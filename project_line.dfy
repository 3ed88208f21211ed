/**
  * The older configuration line of src/project.py: a BuildConfig that turns missing values into
  * '', the line pattern CFG__(\w+?)(?:\s|__(\w+)?).*?=\s*(.*?)\s*$ as the backtracking search the
  * re module performs, and the rendering back to a line.
  */
module ProjectLine {
  import opened Wrappers
  import opened Text
  import MakefileLine

  /** An entry as project.py keeps it: no None anywhere, params as given, and the line number it came from. */
  datatype BuildConfig = BuildConfig(generator: string, configName: string, params: string,
                                     source: Option<string>, lineno: int)

  /** BuildConfig.__init__: a missing or empty generator, name or value becomes ''. */
  function NewBuildConfig(generator: Option<string>, configName: Option<string>, value: Option<string>,
                          source: Option<string>, lineno: int): (c: BuildConfig)
    ensures generator.Some? ==> c.generator == generator.value
    ensures configName.Some? ==> c.configName == configName.value
    ensures value.Some? ==> c.params == value.value
    ensures c.generator == "" <==> generator.None? || generator == Some("")
    ensures c.configName == "" <==> configName.None? || configName == Some("")
    ensures c.params == "" <==> value.None? || value == Some("")
    ensures c.source == source && c.lineno == lineno
  {
    BuildConfig(generator.GetOr(""), configName.GetOr(""), value.GetOr(""), source, lineno)
  }

  predicate NoNewline(s: string) {
    forall i :: 0 <= i < |s| ==> s[i] != '\n'
  }

  /** The lazy scan can stop at position e: an '=' whose rest, stripped, holds no newline. */
  predicate Stops(s: string, e: nat)
    requires e < |s|
  {
    s[e] == '=' && NoNewline(Strip(s[e + 1..]))
  }

  /**
    * .*?=\s*(.*?)\s*$ from position j: the lazy scan stops at each '=' before any newline and
    * succeeds there when the rest, stripped, holds no newline; the third group is that stripped rest.
    */
  function EqScan(s: string, j: nat): (r: Option<string>)
    requires j <= |s|
    ensures r.Some? ==> IsStripped(r.value) && NoNewline(r.value)
    decreases |s| - j
  {
    if j == |s| then None
    else if Stops(s, j) then Some(Strip(s[j + 1..]))
    else if s[j] == '\n' then None
    else EqScan(s, j + 1)
  }

  /** Word characters only among s[a..b]. */
  predicate WordIn(s: string, a: nat, b: nat)
    requires a <= b <= |s|
  {
    forall i :: a <= i < b ==> IsWordChar(s[i])
  }

  /** The end of the run of word characters that starts at j. */
  function WordEnd(s: string, j: nat): (e: nat)
    requires j <= |s|
    ensures j <= e <= |s| && WordIn(s, j, e)
    ensures e < |s| ==> !IsWordChar(s[e])
    decreases |s| - j
  {
    if j < |s| && IsWordChar(s[j]) then WordEnd(s, j + 1) else j
  }

  lemma WordInSlice(s: string, a: nat, b: nat)
    requires a <= b <= |s| && WordIn(s, a, b)
    ensures IsWord(s[a..b])
  {
    forall i | 0 <= i < b - a ensures IsWordChar(s[a..b][i]) {
      assert s[a..b][i] == s[a + i];
    }
  }

  /** __(\w+)? after a first group of length k: the greedy name of length m, then shorter ones, then none. */
  function TryNames(s: string, k: nat, m: nat): (r: Option<(Option<string>, string)>)
    requires k + 2 + m <= |s| && WordIn(s, k + 2, k + 2 + m)
    ensures r.Some? && r.value.0.Some? ==> r.value.0.value != "" && IsWord(r.value.0.value)
    ensures r.Some? ==> IsStripped(r.value.1) && NoNewline(r.value.1)
  {
    if m == 0 then
      match EqScan(s, k + 2)
      case Some(v) => Some((None, v))
      case None => None
    else
      match EqScan(s, k + 2 + m)
      case Some(v) =>
        WordInSlice(s, k + 2, k + 2 + m);
        Some((Some(s[k + 2..k + 2 + m]), v))
      case None => TryNames(s, k, m - 1)
  }

  /** (?:\s|__(\w+)?) and the rest of the pattern, after a first group of length k. */
  function TryAt(s: string, k: nat): (r: Option<(Option<string>, string)>)
    requires k <= |s|
    ensures r.Some? && r.value.0.Some? ==> r.value.0.value != "" && IsWord(r.value.0.value)
    ensures r.Some? ==> IsStripped(r.value.1) && NoNewline(r.value.1)
  {
    var viaSpace :=
      if k < |s| && IsSpace(s[k]) then
        (match EqScan(s, k + 1) case Some(v) => Some((None, v)) case None => None)
      else None;
    if viaSpace.Some? then viaSpace
    else if k + 2 <= |s| && s[k] == '_' && s[k + 1] == '_' then TryNames(s, k, WordEnd(s, k + 2) - (k + 2))
    else None
  }

  /** The lazy first group (\w+?): lengths k, k + 1, ... up to the end w of the word prefix, first success wins. */
  function Search(s: string, w: nat, k: nat): (r: Option<(string, Option<string>, string)>)
    requires 1 <= k && w <= |s| && WordIn(s, 0, w)
    ensures r.Some? ==> r.value.0 != "" && IsWord(r.value.0)
    ensures r.Some? && r.value.1.Some? ==> r.value.1.value != "" && IsWord(r.value.1.value)
    ensures r.Some? ==> IsStripped(r.value.2) && NoNewline(r.value.2)
    decreases w + 1 - k
  {
    if k > w then None
    else
      match TryAt(s, k)
      case Some(p) =>
        WordInSlice(s, 0, k);
        Some((s[..k], p.0, p.1))
      case None => Search(s, w, k + 1)
  }

  /** BuildConfig.from_makefile(source, lineno): the groups of the pattern, or None when it does not match. */
  function FromMakefile(line: string, lineno: int): (r: Option<BuildConfig>)
    ensures !StartsWith(line, MakefileLine.CfgPrefix) ==> r.None?
    ensures r.Some? ==> && r.value.generator != "" && IsWord(r.value.generator)
                        && IsWord(r.value.configName)
                        && IsStripped(r.value.params) && NoNewline(r.value.params)
                        && r.value.source == Some(line) && r.value.lineno == lineno
  {
    if !StartsWith(line, MakefileLine.CfgPrefix) then None
    else
      var s := line[|MakefileLine.CfgPrefix|..];
      match Search(s, WordEnd(s, 0), 1)
      case None => None
      case Some(g) => Some(NewBuildConfig(Some(g.0), g.1, Some(g.2), Some(line), lineno))
  }

  function NameSuffix(name: string): string {
    if name != "" then "__" + name else ""
  }

  /** BuildConfig._render(): the source line when it is non-empty, else "CFG__gen[__name] = params". */
  function Render(c: BuildConfig): (r: string)
    ensures c.source.Some? && c.source.value != "" ==> r == c.source.value
    ensures c.source.None? || c.source.value == "" ==>
      && StartsWith(r, MakefileLine.CfgPrefix + c.generator)
      && |r| >= |c.params| + 3 && r[|r| - |c.params| - 3..] == " = " + c.params
  {
    if c.source.Some? && c.source.value != "" then c.source.value
    else MakefileLine.CfgPrefix + c.generator + NameSuffix(c.configName) + " = " + c.params
  }

  /** str(BuildConfig): the rendering without its trailing whitespace, then exactly one newline. */
  function Str(c: BuildConfig): (r: string)
    ensures |r| >= 1 && r[|r| - 1] == '\n'
    ensures |r| >= 2 ==> !IsSpace(r[|r| - 2])
    ensures StartsWith(Render(c), r[..|r| - 1]) && IsBlank(Render(c)[|r| - 1..])
  {
    var t := RStrip(Render(c));
    RStripShape(Render(c));
    assert (t + "\n")[..|t|] == t;
    t + "\n"
  }

  // ---------------------------------------------------------------- what the pattern accepts

  /** No newline among s[a..b]. */
  predicate NoNewlineIn(s: string, a: nat, b: nat)
    requires a <= b <= |s|
  {
    forall i :: a <= i < b ==> s[i] != '\n'
  }

  /**
    * Where the pattern can match the text s after "CFG__": a first group of k word characters, a
    * whitespace character or "__" at k, an '=' at e with no newline between the separator and it,
    * and a rest after the '=' that strips to a single line.
    */
  predicate MatchableAt(s: string, k: nat, e: nat) {
    && 1 <= k < e < |s| && WordIn(s, 0, k)
    && (IsSpace(s[k]) || (k + 2 <= e && s[k] == '_' && s[k + 1] == '_'))
    && Stops(s, e) && NoNewlineIn(s, k + 1, e)
  }

  /** The scan stops where it can. */
  lemma {:induction false} EqScanStop(s: string, e: nat)
    requires e < |s| && Stops(s, e)
    ensures EqScan(s, e) == Some(Strip(s[e + 1..]))
  {
  }

  /** A character where the scan cannot stop and that is not a newline is passed over. */
  lemma {:induction false} EqScanPass(s: string, j: nat)
    requires j < |s| && !Stops(s, j) && s[j] != '\n'
    ensures EqScan(s, j) == EqScan(s, j + 1)
  {
  }

  /** The lazy scan walks over characters that are neither '=' nor a newline. */
  lemma {:induction false} EqScanSkips(s: string, j: nat, j': nat)
    requires j <= j' <= |s|
    requires forall i :: j <= i < j' ==> s[i] != '=' && s[i] != '\n'
    ensures EqScan(s, j) == EqScan(s, j')
    decreases j' - j
  {
    if j < j' {
      EqScanPass(s, j);
      EqScanSkips(s, j + 1, j');
    }
  }

  /** Text without '=' or newline, an '=' and a rest that strips to one line: the scan gives the stripped rest. */
  lemma {:induction false} ScanTail(s: string, j: nat, mid: string, rest: string)
    requires j <= |s| && s[j..] == mid + "=" + rest
    requires forall i :: 0 <= i < |mid| ==> mid[i] != '=' && mid[i] != '\n'
    requires NoNewline(Strip(rest))
    ensures EqScan(s, j) == Some(Strip(rest))
  {
    var e := j + |mid|;
    assert s[e] == '=' by { assert s[j..][|mid|] == '='; }
    assert s[e + 1..] == rest by { assert s[j..][|mid| + 1..] == rest; }
    forall i | j <= i < e ensures s[i] != '=' && s[i] != '\n' {
      assert s[i] == s[j..][i - j] == mid[i - j];
    }
    EqScanSkips(s, j, e);
    EqScanStop(s, e);
  }

  /** An '=' that the pattern can stop at makes the scan succeed (perhaps at an earlier '='). */
  lemma {:induction false} EqScanReaches(s: string, j: nat, e: nat)
    requires j <= e < |s| && Stops(s, e) && NoNewlineIn(s, j, e)
    ensures EqScan(s, j).Some?
    decreases e - j
  {
    if j == e || Stops(s, j) {
      EqScanStop(s, j);
    } else {
      assert s[j] != '\n';
      EqScanPass(s, j);
      EqScanReaches(s, j + 1, e);
    }
  }

  /** Where a successful scan stopped. */
  lemma {:induction false} EqScanStopsAt(s: string, j: nat) returns (e: nat)
    requires j <= |s| && EqScan(s, j).Some?
    ensures j <= e < |s| && Stops(s, e) && NoNewlineIn(s, j, e) && EqScan(s, j) == EqScan(s, e)
    decreases |s| - j
  {
    if Stops(s, j) {
      e := j;
    } else {
      EqScanPass(s, j);
      e := EqScanStopsAt(s, j + 1);
      assert s[j] != '\n';
    }
  }

  /** A successful scan stops at an '=' with no newline before it; the group is the stripped rest. */
  lemma {:induction false} EqScanWitness(s: string, j: nat) returns (e: nat)
    requires j <= |s| && EqScan(s, j).Some?
    ensures j <= e < |s| && Stops(s, e) && NoNewlineIn(s, j, e)
    ensures EqScan(s, j) == Some(Strip(s[e + 1..]))
  {
    e := EqScanStopsAt(s, j);
    EqScanStop(s, e);
  }

  /** The names tried after "__" all fall back to no name at all, so one scan that succeeds suffices. */
  lemma {:induction false} TryNamesReaches(s: string, k: nat, m: nat)
    requires k + 2 + m <= |s| && WordIn(s, k + 2, k + 2 + m) && EqScan(s, k + 2).Some?
    ensures TryNames(s, k, m).Some?
  {
    if m > 0 && EqScan(s, k + 2 + m).None? {
      TryNamesReaches(s, k, m - 1);
    }
  }

  /** The name length a successful __(\w+)? attempt settled on, and the scan that succeeded after it. */
  lemma {:induction false} TryNamesLength(s: string, k: nat, m: nat) returns (m': nat)
    requires k + 2 + m <= |s| && WordIn(s, k + 2, k + 2 + m) && TryNames(s, k, m).Some?
    ensures m' <= m && EqScan(s, k + 2 + m').Some?
    ensures TryNames(s, k, m).value == (if m' == 0 then None else Some(s[k + 2..k + 2 + m']), EqScan(s, k + 2 + m').value)
  {
    if m == 0 || EqScan(s, k + 2 + m).Some? {
      m' := m;
    } else {
      m' := TryNamesLength(s, k, m - 1);
    }
  }

  /** The two alternatives of TryAt: a whitespace separator whose scan succeeds, else "__" and the names. */
  lemma {:induction false} TryAtCases(s: string, k: nat)
    requires k <= |s|
    ensures TryAt(s, k)
            == if k < |s| && IsSpace(s[k]) && EqScan(s, k + 1).Some? then Some((None, EqScan(s, k + 1).value))
               else if k + 2 <= |s| && s[k] == '_' && s[k + 1] == '_' then TryNames(s, k, WordEnd(s, k + 2) - (k + 2))
               else None
  {
  }

  /** A place where the pattern can match after a first group of length k makes that attempt succeed. */
  lemma {:induction false} TryAtReaches(s: string, k: nat, e: nat)
    requires MatchableAt(s, k, e)
    ensures TryAt(s, k).Some?
  {
    TryAtCases(s, k);
    if IsSpace(s[k]) {
      EqScanReaches(s, k + 1, e);
    } else {
      EqScanReaches(s, k + 2, e);
      TryNamesReaches(s, k, WordEnd(s, k + 2) - (k + 2));
    }
  }

  /** The name an attempt took: the m characters after "__", or none when m is 0. */
  function NameAt(s: string, k: nat, m: nat): (r: Option<string>)
    requires m == 0 || k + 2 + m <= |s|
    ensures r.Some? ==> |r.value| == m
  {
    if m == 0 then None else Some(s[k + 2..k + 2 + m])
  }

  /** Where a successful attempt starts its scan for '=': after the whitespace, or after "__" and a name of length m. */
  lemma {:induction false} AttemptScan(s: string, k: nat) returns (m: nat, j: nat)
    requires k <= |s| && TryAt(s, k).Some?
    ensures k < j < |s| && EqScan(s, j).Some?
    ensures || (m == 0 && j == k + 1 && IsSpace(s[k]))
            || (j == k + 2 + m && s[k] == '_' && s[k + 1] == '_' && WordIn(s, k + 2, j))
    ensures TryAt(s, k) == Some((NameAt(s, k, m), EqScan(s, j).value))
  {
    TryAtCases(s, k);
    if k < |s| && IsSpace(s[k]) {
      m, j := 0, k + 1;
    } else {
      var w := WordEnd(s, k + 2) - (k + 2);
      assert TryAt(s, k) == TryNames(s, k, w);
      m := TryNamesLength(s, k, w);
      j := k + 2 + m;
    }
  }

  /** What a successful attempt after a first group of length k matched: a name of length m, the '=' at e. */
  lemma {:induction false} TryAtWitness(s: string, k: nat) returns (m: nat, e: nat)
    requires 1 <= k <= |s| && WordIn(s, 0, k) && TryAt(s, k).Some?
    ensures MatchableAt(s, k, e)
    ensures m > 0 ==> k + 2 + m <= e && s[k] == '_' && s[k + 1] == '_'
    ensures TryAt(s, k) == Some((NameAt(s, k, m), Strip(s[e + 1..])))
  {
    var j;
    m, j := AttemptScan(s, k);
    e := EqScanWitness(s, j);
    assert NoNewlineIn(s, k + 1, e) by {
      forall i | k + 1 <= i < j ensures s[i] != '\n' {
        assert i == k + 1 || IsWordChar(s[i]);
      }
    }
  }

  /** The lazy search succeeds once some length up to the word prefix lets the rest match. */
  lemma {:induction false} SearchReaches(s: string, w: nat, j: nat, k: nat)
    requires 1 <= j <= k <= w <= |s| && WordIn(s, 0, w) && TryAt(s, k).Some?
    ensures Search(s, w, j).Some?
    decreases k - j
  {
    if j < k && TryAt(s, j).None? {
      SearchReaches(s, w, j + 1, k);
    }
  }

  /** The length at which the lazy search succeeded. */
  lemma {:induction false} SearchWitness(s: string, w: nat, j: nat) returns (k: nat)
    requires 1 <= j && w <= |s| && WordIn(s, 0, w) && Search(s, w, j).Some?
    ensures var r := Search(s, w, j).value;
      j <= k <= w && TryAt(s, k) == Some((r.1, r.2)) && r.0 == s[..k]
    decreases w + 1 - j
  {
    if TryAt(s, j).Some? {
      k := j;
    } else {
      k := SearchWitness(s, w, j + 1);
    }
  }

  /** A run of word characters from j never reaches past WordEnd(s, j). */
  lemma {:induction false} WordEndBound(s: string, j: nat, k: nat)
    requires j <= k <= |s| && WordIn(s, j, k)
    ensures k <= WordEnd(s, j)
    decreases |s| - j
  {
    if j < k {
      WordEndBound(s, j + 1, k);
    }
  }

  /** A run of word characters that stops at a non-word character (or the end) is where WordEnd stops. */
  lemma {:induction false} WordEndAt(s: string, j: nat, k: nat)
    requires j <= k <= |s| && WordIn(s, j, k) && (k == |s| || !IsWordChar(s[k]))
    ensures WordEnd(s, j) == k
    decreases |s| - j
  {
    if j < k {
      WordEndAt(s, j + 1, k);
    }
  }

  /**
    * from_makefile gives an entry exactly when the line starts with "CFG__" and the pattern can match
    * the text after it somewhere: a word, a whitespace character or "__", an '=' with no newline
    * before it, and a rest that strips to one line.
    */
  lemma {:induction false} FromMakefileMatches(line: string, lineno: int)
    ensures FromMakefile(line, lineno).Some?
            <==> StartsWith(line, MakefileLine.CfgPrefix)
                 && exists k, e :: MatchableAt(line[|MakefileLine.CfgPrefix|..], k, e)
  {
    if StartsWith(line, MakefileLine.CfgPrefix) {
      var s := line[|MakefileLine.CfgPrefix|..];
      var w := WordEnd(s, 0);
      if Search(s, w, 1).Some? {
        var k := SearchWitness(s, w, 1);
        var m, e := TryAtWitness(s, k);
      } else if exists k, e :: MatchableAt(s, k, e) {
        var k, e :| MatchableAt(s, k, e);
        TryAtReaches(s, k, e);
        WordEndBound(s, 0, k);
        SearchReaches(s, w, 1, k);
      }
    }
  }

  /**
    * The groups of a matching line: the generator is the word of length k before the separator, the
    * name is the word of length m right after "__" ('' when m is 0), and the params are the stripped
    * rest after the '=' at e where the match stops.
    */
  lemma {:induction false} FromMakefileGroups(line: string, lineno: int) returns (k: nat, m: nat, e: nat)
    requires FromMakefile(line, lineno).Some?
    ensures StartsWith(line, MakefileLine.CfgPrefix)
    ensures var s := line[|MakefileLine.CfgPrefix|..]; var c := FromMakefile(line, lineno).value;
      && MatchableAt(s, k, e) && (m > 0 ==> k + 2 + m <= e && s[k] == '_' && s[k + 1] == '_')
      && c == BuildConfig(s[..k], if m == 0 then "" else s[k + 2..k + 2 + m], Strip(s[e + 1..]), Some(line), lineno)
  {
    var s := line[|MakefileLine.CfgPrefix|..];
    var w := WordEnd(s, 0);
    k := SearchWitness(s, w, 1);
    m, e := TryAtWitness(s, k);
  }

  // ---------------------------------------------------------------- reading a line back

  /** Positions that fail the pattern do not change where the lazy search ends up. */
  lemma {:induction false} SearchSkips(s: string, w: nat, k: nat, k': nat)
    requires 1 <= k <= k' && w <= |s| && WordIn(s, 0, w)
    requires forall j :: k <= j < k' && j <= w ==> TryAt(s, j).None?
    ensures Search(s, w, k) == Search(s, w, k')
    decreases k' - k
  {
    if k < k' && k <= w {
      SearchSkips(s, w, k + 1, k');
    }
  }

  /** A generator word without "__" and not ending in '_' leaves no earlier place for the pattern to match. */
  lemma {:induction false} NoEarlyMatch(gen: string, rest: string, j: nat)
    requires MakefileLine.RoundTrippable(gen) && 1 <= j < |gen|
    ensures TryAt(gen + rest, j).None?
  {
    var s := gen + rest;
    assert s[j] == gen[j] && IsWordChar(gen[j]);
    if j + 1 < |gen| {
      assert !MakefileLine.DunderAt(gen, j);
      assert s[j + 1] == gen[j + 1];
    } else {
      assert gen[j] != '_';
    }
  }

  lemma {:induction false} WordConcat(a: string, b: string)
    requires IsWord(a) && IsWord(b)
    ensures IsWord(a + b)
  {
    forall i | 0 <= i < |a + b| ensures IsWordChar((a + b)[i]) {
      if i < |a| { assert (a + b)[i] == a[i]; } else { assert (a + b)[i] == b[i - |a|]; }
    }
  }

  /** The lazy search stops at the first length where the rest of the pattern matches. */
  lemma {:induction false} SearchHit(s: string, w: nat, k: nat)
    requires 1 <= k <= w <= |s| && WordIn(s, 0, w) && TryAt(s, k).Some?
    ensures Search(s, w, k) == Some((s[..k], TryAt(s, k).value.0, TryAt(s, k).value.1))
  {
  }

  /** The lazy search passes over every length shorter than a round-trippable generator. */
  lemma {:induction false} SkipToGen(s: string, gen: string, w: nat)
    requires MakefileLine.RoundTrippable(gen) && |gen| <= w <= |s| && WordIn(s, 0, w) && s[..|gen|] == gen
    ensures Search(s, w, 1) == Search(s, w, |gen|)
  {
    var g := |gen|;
    var rest := s[g..];
    assert s == gen + rest;
    forall j | 1 <= j < g && j <= w ensures TryAt(s, j).None? {
      NoEarlyMatch(gen, rest, j);
    }
    SearchSkips(s, w, 1, g);
  }

  /** A successful search on the text after "CFG__" is what from_makefile builds its entry from. */
  lemma {:induction false} FromSearch(line: string, lineno: int, s: string, gen: string, name: Option<string>, params: string)
    requires line == MakefileLine.CfgPrefix + s && Search(s, WordEnd(s, 0), 1) == Some((gen, name, params))
    ensures FromMakefile(line, lineno) == Some(NewBuildConfig(Some(gen), name, Some(params), Some(line), lineno))
  {
    assert line[|MakefileLine.CfgPrefix|..] == s;
  }

  /** The separator the pattern allows after the generator: one whitespace character, or "__" and a word. */
  predicate Separator(sep: string, name: string, mid: string) {
    || (|sep| == 1 && IsSpace(sep[0]) && name == "")
    || (sep == "__" + name && IsWord(name) && (mid == [] || !IsWordChar(mid[0])))
  }

  /** The first group ends at the generator; what follows it decides the name and the params. */
  lemma {:induction false} SearchAtGen(s: string, gen: string, w: nat, name: Option<string>, params: string)
    requires MakefileLine.RoundTrippable(gen) && |gen| <= w <= |s| && WordIn(s, 0, w) && s[..|gen|] == gen
    requires TryAt(s, |gen|) == Some((name, params))
    ensures Search(s, w, 1) == Some((gen, name, params))
  {
    SkipToGen(s, gen, w);
    SearchHit(s, w, |gen|);
  }

  /** After a whitespace separator at g, the attempt takes what the scan from g + 1 gives. */
  lemma {:induction false} TryAtSpace(s: string, g: nat, value: string)
    requires g < |s| && IsSpace(s[g]) && EqScan(s, g + 1) == Some(value)
    ensures TryAt(s, g) == Some((None, value))
  {
    TryAtCases(s, g);
  }

  /** After "__" and a word of length m that ends at a non-word character, the name is that word. */
  lemma {:induction false} TryAtDunder(s: string, g: nat, m: nat, value: string)
    requires g + 2 + m <= |s| && s[g] == '_' && s[g + 1] == '_' && WordIn(s, g + 2, g + 2 + m)
    requires g + 2 + m == |s| || !IsWordChar(s[g + 2 + m])
    requires EqScan(s, g + 2 + m) == Some(value)
    ensures WordEnd(s, g + 2) == g + 2 + m
    ensures TryAt(s, g) == Some((if m == 0 then None else Some(s[g + 2..g + 2 + m]), value))
  {
    WordEndAt(s, g + 2, g + 2 + m);
    assert TryNames(s, g, m) == Some((if m == 0 then None else Some(s[g + 2..g + 2 + m]), value));
    TryAtCases(s, g);
    assert !IsSpace(s[g]);
  }

  lemma Assoc(a: string, b: string, c: string)
    ensures a + (b + c) == a + b + c
  {
  }

  /** The pieces of a configuration line, regrouped around the text after the prefix. */
  lemma {:induction false} LineShape(p: string, gen: string, sep: string, mid: string, ws1: string, v: string, ws2: string)
    ensures p + gen + sep + mid + ws1 + v + ws2 == p + (gen + (sep + (mid + (ws1 + v + ws2))))
  {
    Assoc(ws1, v, ws2);
    Assoc(mid, ws1 + v, ws2);
    Assoc(mid, ws1, v);
    Assoc(sep, mid + ws1 + v, ws2);
    Assoc(sep, mid, ws1 + v);
    Assoc(sep, mid + ws1, v);
    Assoc(sep, mid, ws1);
    Assoc(gen, sep + mid + ws1 + v, ws2);
    Assoc(gen, sep + mid + ws1, v);
    Assoc(gen, sep + mid, ws1);
    Assoc(gen, sep, mid);
    Assoc(p, gen + sep + mid + ws1 + v, ws2);
    Assoc(p, gen + sep + mid + ws1, v);
    Assoc(p, gen + sep + mid, ws1);
    Assoc(p, gen + sep, mid);
    Assoc(p, gen, sep);
  }

  /** A generator word followed by a whitespace character: the search ends at the generator. */
  lemma {:induction false} SpacedSearch(s: string, gen: string, mid: string, rest: string)
    requires MakefileLine.RoundTrippable(gen) && |gen| < |s| && s[..|gen|] == gen && IsSpace(s[|gen|])
    requires s[|gen| + 1..] == mid + "=" + rest
    requires forall i :: 0 <= i < |mid| ==> mid[i] != '=' && mid[i] != '\n'
    requires NoNewline(Strip(rest))
    ensures Search(s, WordEnd(s, 0), 1) == Some((gen, None, Strip(rest)))
  {
    var g := |gen|;
    assert WordIn(s, 0, g) by {
      forall i | 0 <= i < g ensures IsWordChar(s[i]) { assert s[i] == gen[i]; }
    }
    ScanTail(s, g + 1, mid, rest);
    TryAtSpace(s, g, Strip(rest));
    WordEndAt(s, 0, g);
    SearchAtGen(s, gen, g, None, Strip(rest));
  }

  /** A generator word followed by "__" and a word of length m: the search ends at the generator and takes the word as name. */
  lemma {:induction false} NamedSearch(s: string, gen: string, m: nat, value: string)
    requires MakefileLine.RoundTrippable(gen) && |gen| + 2 + m <= |s| && s[..|gen|] == gen
    requires s[|gen|] == '_' && s[|gen| + 1] == '_' && WordIn(s, |gen| + 2, |gen| + 2 + m)
    requires |gen| + 2 + m == |s| || !IsWordChar(s[|gen| + 2 + m])
    requires EqScan(s, |gen| + 2 + m) == Some(value)
    ensures Search(s, WordEnd(s, 0), 1) == Some((gen, if m == 0 then None else Some(s[|gen| + 2..|gen| + 2 + m]), value))
  {
    var g := |gen|;
    var j := g + 2 + m;
    assert WordIn(s, 0, j) by {
      forall i | 0 <= i < j ensures IsWordChar(s[i]) {
        if i < g { assert s[i] == gen[i]; }
      }
    }
    TryAtDunder(s, g, m, value);
    WordEndAt(s, 0, j);
    SearchAtGen(s, gen, j, if m == 0 then None else Some(s[g + 2..j]), value);
  }

  /** Where the pieces of gen "__" name mid "=" rest sit. */
  lemma {:induction false} NamedShape(s: string, gen: string, name: string, mid: string, rest: string)
    requires s == gen + ("__" + name + (mid + "=" + rest)) && IsWord(name) && (mid == [] || !IsWordChar(mid[0]))
    ensures var g, j := |gen|, |gen| + 2 + |name|;
      && j <= |s| && s[..g] == gen && s[g] == '_' && s[g + 1] == '_' && WordIn(s, g + 2, j)
      && s[g + 2..j] == name && s[j..] == mid + "=" + rest && (j == |s| || !IsWordChar(s[j]))
  {
    var g := |gen|;
    var j := g + 2 + |name|;
    var tail := mid + "=" + rest;
    assert s[..g] == gen;
    assert s[g..] == "__" + name + tail;
    assert s[g] == '_' && s[g + 1] == '_' by { assert s[g..][0] == '_' && s[g..][1] == '_'; }
    assert s[j..] == tail by { assert s[g..][2 + |name|..] == tail; }
    assert s[g + 2..j] == name by { assert s[g..][2..2 + |name|] == name; }
    assert WordIn(s, g + 2, j) by {
      forall i | g + 2 <= i < j ensures IsWordChar(s[i]) { assert s[i] == s[g + 2..j][i - (g + 2)]; }
    }
    assert j == |s| || !IsWordChar(s[j]) by {
      assert s[j] == tail[0];
      if mid != [] { assert tail[0] == mid[0]; } else { assert tail[0] == '='; }
    }
  }

  /** The text after the prefix of a line "CFG__" gen "__" name mid "=" rest, read by the search. */
  lemma {:induction false} NamedTail(s: string, gen: string, name: string, mid: string, rest: string)
    requires MakefileLine.RoundTrippable(gen)
    requires var g, j := |gen|, |gen| + 2 + |name|;
      && j <= |s| && s[..g] == gen && s[g] == '_' && s[g + 1] == '_' && WordIn(s, g + 2, j)
      && s[g + 2..j] == name && s[j..] == mid + "=" + rest && (j == |s| || !IsWordChar(s[j]))
    requires forall i :: 0 <= i < |mid| ==> mid[i] != '=' && mid[i] != '\n'
    requires NoNewline(Strip(rest))
    ensures Search(s, WordEnd(s, 0), 1) == Some((gen, if name == "" then None else Some(name), Strip(rest)))
  {
    ScanTail(s, |gen| + 2 + |name|, mid, rest);
    NamedSearch(s, gen, |name|, Strip(rest));
  }

  /**
    * A line "CFG__" gen sep mid "=" ws1 v ws2, where the generator is a word with no "__" that does
    * not end in '_', sep is one whitespace character or "__" and a word, mid holds no '=' and no
    * newline, and ws1 and ws2 are whitespace (ws2 may hold the final newline readlines keeps), reads
    * as the entry with that generator and name and the params v stripped.
    */
  lemma {:induction false} ParseLine(line: string, gen: string, sep: string, name: string, mid: string, ws1: string, v: string,
                  ws2: string, lineno: int)
    requires line == MakefileLine.CfgPrefix + gen + sep + mid + "=" + ws1 + v + ws2
    requires MakefileLine.RoundTrippable(gen) && Separator(sep, name, mid)
    requires forall i :: 0 <= i < |mid| ==> mid[i] != '=' && mid[i] != '\n'
    requires IsBlank(ws1) && IsBlank(ws2) && NoNewline(Strip(v))
    ensures FromMakefile(line, lineno) == Some(BuildConfig(gen, name, Strip(v), Some(line), lineno))
  {
    var rest := ws1 + v + ws2;
    StripPadded(ws1, v, ws2);
    var s := gen + (sep + (mid + "=" + rest));
    Assoc(MakefileLine.CfgPrefix + gen + sep, mid, "=");
    LineShape(MakefileLine.CfgPrefix, gen, sep, mid + "=", ws1, v, ws2);
    assert line == MakefileLine.CfgPrefix + s;
    var g := |gen|;
    assert s[..g] == gen && s[g..] == sep + (mid + "=" + rest);
    if |sep| == 1 && IsSpace(sep[0]) && name == "" {
      assert s[g] == sep[0] && s[g + 1..] == mid + "=" + rest;
      SpacedSearch(s, gen, mid, rest);
      FromSearch(line, lineno, s, gen, None, Strip(v));
    } else {
      assert s == gen + ("__" + name + (mid + "=" + rest));
      NamedShape(s, gen, name, mid, rest);
      NamedTail(s, gen, name, mid, rest);
      FromSearch(line, lineno, s, gen, if name == "" then None else Some(name), Strip(v));
    }
  }

  lemma {:induction false} SuffixWord(name: string)
    requires IsWord(name)
    ensures IsWord(NameSuffix(name))
  {
    var suffix := NameSuffix(name);
    forall i | 0 <= i < |suffix| ensures IsWordChar(suffix[i]) {
      if i >= 2 { assert suffix[i] == name[i - 2]; }
    }
  }

  /** The separator _render puts after the generator: " " without a name, "__" and the name with one. */
  function CanonicalSep(name: string): string {
    if name == "" then " " else "__" + name
  }

  /** What _render puts between the separator and the '=': nothing without a name, one space with one. */
  function CanonicalMid(name: string): string {
    if name == "" then "" else " "
  }

  /** _render of an entry without a source line, cut into the pieces of a configuration line. */
  lemma {:induction false} RenderParts(c: BuildConfig)
    requires c.source.None?
    ensures Render(c) == MakefileLine.CfgPrefix + c.generator + CanonicalSep(c.configName) + CanonicalMid(c.configName)
                         + "=" + " " + c.params + ""
  {
    var p, gen, name, params := MakefileLine.CfgPrefix, c.generator, c.configName, c.params;
    var sep := CanonicalSep(name);
    assert Render(c) == p + gen + NameSuffix(name) + " = " + params;
    if name == "" {
      assert p + gen + NameSuffix(name) == p + gen;
      assert p + gen + sep + "" + "=" + " " == p + gen + " = ";
    } else {
      assert p + gen + sep + " " + "=" + " " == p + gen + NameSuffix(name) + " = ";
    }
  }

  /** str() of an entry without a source line: its rendering with the trailing space of empty params dropped, then "\n". */
  lemma {:induction false} StrParts(c: BuildConfig)
    requires c.source.None? && (c.params == [] || !IsSpace(c.params[|c.params| - 1]))
    ensures var ws := if c.params == "" then "" else " ";
      Str(c) == MakefileLine.CfgPrefix + c.generator + CanonicalSep(c.configName) + CanonicalMid(c.configName)
                + "=" + ws + c.params + "\n"
  {
    RenderParts(c);
    var t := MakefileLine.CfgPrefix + c.generator + CanonicalSep(c.configName) + CanonicalMid(c.configName) + "=";
    if c.params == "" {
      assert Render(c) == t + " ";
      assert RStrip(Render(c)) == t by {
        RStripBlankSuffix(t, " ");
        assert t[|t| - 1] == '=';
      }
    } else {
      assert Render(c) == t + " " + c.params + "";
      assert RStrip(Render(c)) == Render(c);
    }
  }

  /** The canonical separator is one the pattern accepts, and stripped params stay as they are. */
  lemma {:induction false} CanonicalPieces(name: string, params: string)
    requires IsWord(name) && IsStripped(params) && NoNewline(params)
    ensures Separator(CanonicalSep(name), name, CanonicalMid(name))
    ensures forall i :: 0 <= i < |CanonicalMid(name)| ==> CanonicalMid(name)[i] != '=' && CanonicalMid(name)[i] != '\n'
    ensures IsBlank(" ") && IsBlank("") && IsBlank("\n") && Strip(params) == params && NoNewline(Strip(params))
  {
    StripIdentity(params);
  }

  /**
    * Reading back the line str() writes for an entry the program built (its rendering with the
    * trailing whitespace dropped and one newline added) gives its generator, name and params, when
    * the generator is a word with no "__" that does not end in '_', the name is '' or a word, and the
    * params are stripped and hold no newline.
    */
  lemma {:induction false} ParseCanonical(c: BuildConfig, lineno: int)
    requires c.source.None? && MakefileLine.RoundTrippable(c.generator)
    requires IsWord(c.configName) && IsStripped(c.params) && NoNewline(c.params)
    ensures FromMakefile(Str(c), lineno) == Some(c.(source := Some(Str(c)), lineno := lineno))
  {
    CanonicalPieces(c.configName, c.params);
    StrParts(c);
    var ws := if c.params == "" then "" else " ";
    ParseLine(Str(c), c.generator, CanonicalSep(c.configName), c.configName, CanonicalMid(c.configName), ws, c.params, "\n", lineno);
  }
}
