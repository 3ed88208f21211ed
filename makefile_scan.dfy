/**
  * What Makefile._parse_makefile (src/makefile.py) computes, as functions of the line array and
  * the known generator names: one scan step per line, the valid/invalid tally the scan keeps, and
  * the default entries added for generators without a line.
  */
module MakefileScan {
  import opened Wrappers
  import opened Text
  import opened Dicts
  import opened MakefileLine

  /** The configurations of one generator, keyed by configuration name (None is the default). */
  type Bucket = Dict<Option<string>, BuildConfig>

  /** generator2configs, later _index: generator name to its configurations. */
  type Index = Dict<string, Bucket>

  /** The comment that marks where a new configuration block goes. */
  const Landmark: string := "# Configure generators"

  /** _index[g][k] when both keys are present. */
  function Lookup(t: Index, g: string, k: Option<string>): Option<BuildConfig> {
    match Get(t, g)
    case None => None
    case Some(b) => Get(b, k)
  }

  lemma LookupPut(t: Index, g: string, b: Bucket, k: Option<string>, c: BuildConfig, g': string, k': Option<string>)
    requires Get(t, g) == Some(b)
    ensures Lookup(Put(t, g, Put(b, k, c)), g', k') == if g' == g && k' == k then Some(c) else Lookup(t, g', k')
  {
  }

  /** The (generator, configuration name) pair an entry is filed under. */
  function KeyOf(c: BuildConfig): (string, Option<string>) {
    (c.generator, c.configName)
  }

  /** No two entries of s are filed under the same pair. */
  ghost predicate DistinctKeys(s: seq<BuildConfig>) {
    forall i, j :: 0 <= i < j < |s| ==> KeyOf(s[i]) != KeyOf(s[j])
  }

  /** Python's list.remove(x): drops the first element equal to x. */
  function RemoveFirst(s: seq<BuildConfig>, x: BuildConfig): (r: seq<BuildConfig>)
    ensures forall v :: v in r ==> v in s
    ensures forall v :: v in s && v != x ==> v in r
    ensures |r| == if x in s then |s| - 1 else |s|
  {
    if s == [] then s
    else if s[0] == x then s[1..]
    else [s[0]] + RemoveFirst(s[1..], x)
  }

  lemma HeadKeyFresh(s: seq<BuildConfig>)
    requires s != [] && DistinctKeys(s)
    ensures forall v :: v in s[1..] ==> KeyOf(v) != KeyOf(s[0])
  {
    forall v | v in s[1..] ensures KeyOf(v) != KeyOf(s[0]) {
      var m :| 0 <= m < |s| - 1 && s[1..][m] == v;
      assert s[m + 1] == v;
    }
  }

  lemma ConsDistinct(x: BuildConfig, t: seq<BuildConfig>)
    requires DistinctKeys(t) && forall v :: v in t ==> KeyOf(v) != KeyOf(x)
    ensures DistinctKeys([x] + t)
  {
    var r := [x] + t;
    forall i, j | 0 <= i < j < |r| ensures KeyOf(r[i]) != KeyOf(r[j]) {
      assert r[j] == t[j - 1];
      if i > 0 {
        assert r[i] == t[i - 1];
      }
    }
  }

  lemma RemoveFirstDistinct(s: seq<BuildConfig>, x: BuildConfig)
    requires DistinctKeys(s)
    ensures DistinctKeys(RemoveFirst(s, x))
  {
    if s != [] {
      TailDistinct(s);
      if s[0] != x {
        RemoveFirstDistinct(s[1..], x);
        HeadKeyFresh(s);
        ConsDistinct(s[0], RemoveFirst(s[1..], x));
      }
    }
  }

  /** The tally the scan keeps: the valid list, the invalid list and the index. */
  datatype Tally = Tally(valid: seq<BuildConfig>, invalid: seq<BuildConfig>, index: Index)

  /**
    * The valid list holds exactly the entries of the index, once each, and every entry is
    * filed under its own generator and configuration name.
    */
  ghost predicate Consistent(y: Tally) {
    && KeysDistinct(y.index)
    && (forall g :: g in Keys(y.index) ==> KeysDistinct(Get(y.index, g).value))
    && (forall g, k :: Lookup(y.index, g, k).Some? ==>
          var v := Lookup(y.index, g, k).value; KeyOf(v) == (g, k) && v in y.valid)
    && (forall v :: v in y.valid ==> Lookup(y.index, v.generator, v.configName) == Some(v))
    && DistinctKeys(y.valid)
  }

  /**
    * One matched line while the run is open: an unknown generator goes to the invalid list; a
    * repeated (generator, name) pair moves the earlier entry from the valid to the invalid list;
    * the new entry is filed in the index and appended to the valid list.
    */
  function Record(y: Tally, c: BuildConfig): (r: Tally)
    ensures |y.invalid| <= |r.invalid| <= |y.invalid| + 1 && r.invalid[..|y.invalid|] == y.invalid
    ensures c in r.valid || r.invalid == y.invalid + [c]
  {
    match Get(y.index, c.generator)
    case None => y.(invalid := y.invalid + [c])
    case Some(b) =>
      var index := Put(y.index, c.generator, Put(b, c.configName, c));
      match Get(b, c.configName)
      case Some(prev) => Tally(RemoveFirst(y.valid, prev) + [c], y.invalid + [prev], index)
      case None => Tally(y.valid + [c], y.invalid, index)
  }

  /** Recording an entry keeps the tally consistent and never adds a generator to the index. */
  lemma RecordConsistent(y: Tally, c: BuildConfig)
    requires Consistent(y)
    ensures Consistent(Record(y, c))
    ensures Keys(Record(y, c).index) == Keys(y.index)
  {
    if Get(y.index, c.generator).Some? {
      var b := Get(y.index, c.generator).value;
      RecordIndex(y, c, b);
      RecordValid(y, c, b);
      ConsistentAfter(y, c, Record(y, c));
    }
  }

  /** The valid list after filing c: the entries under other pairs, then c, with distinct pairs. */
  lemma RecordValid(y: Tally, c: BuildConfig, b: Bucket)
    requires Consistent(y) && Get(y.index, c.generator) == Some(b)
    ensures forall v :: v in Record(y, c).valid <==> (v in y.valid && KeyOf(v) != KeyOf(c)) || v == c
    ensures DistinctKeys(Record(y, c).valid)
  {
    var prev := Get(b, c.configName);
    var kept := if prev.Some? then RemoveFirst(y.valid, prev.value) else y.valid;
    assert Record(y, c).valid == kept + [c];
    forall v | v in y.valid && KeyOf(v) == KeyOf(c) ensures prev == Some(v) {
      assert Lookup(y.index, v.generator, v.configName) == Some(v);
    }
    assert Lookup(y.index, c.generator, c.configName) == prev;
    KeptEntries(y.valid, c, prev, kept);
    AppendDistinct(kept, c);
  }

  /** A tally that files c and otherwise agrees with a consistent one is consistent. */
  lemma ConsistentAfter(y: Tally, c: BuildConfig, r: Tally)
    requires Consistent(y)
    requires KeysDistinct(r.index) && forall g :: g in Keys(r.index) ==> KeysDistinct(Get(r.index, g).value)
    requires forall g, k :: Lookup(r.index, g, k) == if (g, k) == KeyOf(c) then Some(c) else Lookup(y.index, g, k)
    requires forall v :: v in r.valid <==> (v in y.valid && KeyOf(v) != KeyOf(c)) || v == c
    requires DistinctKeys(r.valid)
    ensures Consistent(r)
  {
    forall g, k | Lookup(r.index, g, k).Some?
      ensures KeyOf(Lookup(r.index, g, k).value) == (g, k) && Lookup(r.index, g, k).value in r.valid
    {
      if (g, k) != KeyOf(c) {
        assert Lookup(r.index, g, k) == Lookup(y.index, g, k);
      }
    }
    forall v | v in r.valid ensures Lookup(r.index, v.generator, v.configName) == Some(v) {
      if v != c {
        assert v in y.valid && KeyOf(v) != KeyOf(c);
      }
    }
  }

  /** Filing c in its generator's bucket changes the index at that one pair only. */
  lemma RecordIndex(y: Tally, c: BuildConfig, b: Bucket)
    requires Consistent(y) && Get(y.index, c.generator) == Some(b)
    ensures var t := Put(y.index, c.generator, Put(b, c.configName, c));
      && Keys(t) == Keys(y.index) && KeysDistinct(t)
      && (forall g :: g in Keys(t) ==> KeysDistinct(Get(t, g).value))
      && forall g, k :: Lookup(t, g, k) == if (g, k) == KeyOf(c) then Some(c) else Lookup(y.index, g, k)
  {
    var g, k := c.generator, c.configName;
    var t := Put(y.index, g, Put(b, k, c));
    PutKeys(y.index, g, Put(b, k, c));
    PutKeepsDistinct(y.index, g, Put(b, k, c));
    PutKeepsDistinct(b, k, c);
    forall g', k' ensures Lookup(t, g', k') == if (g', k') == KeyOf(c) then Some(c) else Lookup(y.index, g', k') {
      LookupPut(y.index, g, b, k, c, g', k');
    }
  }

  /** What stays of the valid list when c is filed: every entry filed under another pair. */
  lemma KeptEntries(valid: seq<BuildConfig>, c: BuildConfig, prev: Option<BuildConfig>, kept: seq<BuildConfig>)
    requires DistinctKeys(valid)
    requires forall v :: v in valid && KeyOf(v) == KeyOf(c) ==> prev == Some(v)
    requires prev.Some? ==> KeyOf(prev.value) == KeyOf(c)
    requires kept == if prev.Some? then RemoveFirst(valid, prev.value) else valid
    ensures forall v :: v in kept <==> v in valid && KeyOf(v) != KeyOf(c)
    ensures DistinctKeys(kept)
  {
    if prev.Some? {
      RemoveFirstDistinct(valid, prev.value);
      RemoveFirstGone(valid, prev.value);
    }
  }

  /** With distinct keys an element occurs once, so list.remove leaves none of it behind. */
  lemma RemoveFirstGone(s: seq<BuildConfig>, x: BuildConfig)
    requires DistinctKeys(s)
    ensures x !in RemoveFirst(s, x)
  {
    if s != [] {
      HeadKeyFresh(s);
      if s[0] != x {
        TailDistinct(s);
        RemoveFirstGone(s[1..], x);
      }
    }
  }

  lemma TailDistinct(s: seq<BuildConfig>)
    requires s != [] && DistinctKeys(s)
    ensures DistinctKeys(s[1..])
  {
    forall i, j | 0 <= i < j < |s| - 1 ensures KeyOf(s[1..][i]) != KeyOf(s[1..][j]) {
      assert s[1..][i] == s[i + 1] && s[1..][j] == s[j + 1];
    }
  }

  lemma AppendDistinct(s: seq<BuildConfig>, c: BuildConfig)
    requires DistinctKeys(s) && forall v :: v in s ==> KeyOf(v) != KeyOf(c)
    ensures DistinctKeys(s + [c])
  {
    var r := s + [c];
    forall i, j | 0 <= i < j < |r| ensures KeyOf(r[i]) != KeyOf(r[j]) {
      assert r[i] == s[i] && r[i] in s;
      if j < |s| {
        assert r[j] == s[j];
      }
    }
  }

  /** The matched entries of cs recorded one after another. */
  function Classify(y: Tally, cs: seq<BuildConfig>): (r: Tally)
    ensures |y.invalid| <= |r.invalid| <= |y.invalid| + |cs|
  {
    if cs == [] then y else Record(Classify(y, cs[..|cs| - 1]), cs[|cs| - 1])
  }

  /** The position of the last entry of cs filed under key, or -1. */
  function LastIndex(cs: seq<BuildConfig>, key: (string, Option<string>)): (r: int)
    ensures -1 <= r < |cs|
    ensures r >= 0 ==> KeyOf(cs[r]) == key
    ensures forall j :: r < j < |cs| ==> KeyOf(cs[j]) != key
  {
    if cs == [] then -1
    else if KeyOf(cs[|cs| - 1]) == key then |cs| - 1
    else LastIndex(cs[..|cs| - 1], key)
  }

  lemma {:induction false} ClassifyConsistent(y: Tally, cs: seq<BuildConfig>)
    requires Consistent(y)
    ensures Consistent(Classify(y, cs)) && Keys(Classify(y, cs).index) == Keys(y.index)
  {
    if cs != [] {
      ClassifyConsistent(y, cs[..|cs| - 1]);
      RecordConsistent(Classify(y, cs[..|cs| - 1]), cs[|cs| - 1]);
    }
  }

  /**
    * Later lines win: for a generator of the index, the entry filed under a pair is the last
    * matched entry with that pair; pairs without a matched entry keep what they had.
    */
  lemma {:induction false} ClassifyLookup(y: Tally, cs: seq<BuildConfig>, g: string, k: Option<string>)
    requires Consistent(y)
    ensures Lookup(Classify(y, cs).index, g, k)
            == if g in Keys(y.index) && LastIndex(cs, (g, k)) >= 0 then Some(cs[LastIndex(cs, (g, k))])
               else Lookup(y.index, g, k)
  {
    if cs != [] {
      var z := Classify(y, cs[..|cs| - 1]);
      var c := cs[|cs| - 1];
      var pre := cs[..|cs| - 1];
      ClassifyLookup(y, pre, g, k);
      ClassifyConsistent(y, pre);
      var m := LastIndex(pre, (g, k));
      assert m >= 0 ==> cs[m] == pre[m];
      assert Classify(y, cs) == Record(z, c);
      RecordLookup(z, c, g, k);
      if (g, k) != KeyOf(c) {
        assert LastIndex(cs, (g, k)) == m;
      }
    }
  }

  /** Recording c changes the lookup at its own pair only, and only when its generator is known. */
  lemma RecordLookup(z: Tally, c: BuildConfig, g: string, k: Option<string>)
    requires Consistent(z)
    ensures Lookup(Record(z, c).index, g, k)
            == if c.generator in Keys(z.index) && (g, k) == KeyOf(c) then Some(c) else Lookup(z.index, g, k)
  {
    if Get(z.index, c.generator).Some? {
      RecordIndex(z, c, Get(z.index, c.generator).value);
    }
  }

  /** Entries on the invalid list stay there. */
  lemma {:induction false} InvalidGrows(y: Tally, cs: seq<BuildConfig>, j: nat)
    requires j <= |cs|
    ensures forall x :: x in Classify(y, cs[..j]).invalid ==> x in Classify(y, cs).invalid
    decreases |cs| - j
  {
    if j < |cs| {
      assert cs[..j] == cs[..|cs| - 1][..j];
      InvalidGrows(y, cs[..|cs| - 1], j);
    } else {
      assert cs[..j] == cs;
    }
  }

  /** A matched entry for a generator that is not in the index goes to the invalid list. */
  lemma UnknownIsInvalid(y: Tally, cs: seq<BuildConfig>, i: nat)
    requires i < |cs| && cs[i].generator !in Keys(y.index)
    ensures cs[i] in Classify(y, cs).invalid
  {
    ClassifyKeys(y, cs[..i]);
    assert cs[..i + 1][..i] == cs[..i];
    assert Classify(y, cs[..i + 1]).invalid == Classify(y, cs[..i]).invalid + [cs[i]];
    InvalidGrows(y, cs, i + 1);
  }

  /** Recording never adds a generator to the index (no consistency needed). */
  lemma {:induction false} ClassifyKeys(y: Tally, cs: seq<BuildConfig>)
    ensures Keys(Classify(y, cs).index) == Keys(y.index)
  {
    if cs != [] {
      var z := Classify(y, cs[..|cs| - 1]);
      var c := cs[|cs| - 1];
      ClassifyKeys(y, cs[..|cs| - 1]);
      if Get(z.index, c.generator).Some? {
        PutKeys(z.index, c.generator, Put(Get(z.index, c.generator).value, c.configName, c));
      }
    }
  }

  /**
    * A repeated (generator, name) pair demotes the earlier entry: when a later matched entry has
    * the same pair, the earlier one ends on the invalid list.
    */
  lemma {:induction false} OverriddenIsInvalid(y: Tally, cs: seq<BuildConfig>, i: nat, j: nat)
    requires Consistent(y) && i < j < |cs| && KeyOf(cs[i]) == KeyOf(cs[j])
    requires cs[i].generator in Keys(y.index)
    ensures cs[i] in Classify(y, cs).invalid
    decreases j
  {
    var pre := cs[..j];
    var g, k := cs[j].generator, cs[j].configName;
    var m := LastIndex(pre, (g, k));
    assert pre[i] == cs[i] && KeyOf(pre[i]) == (g, k);
    if m == i {
      var z := Classify(y, pre);
      ClassifyLookup(y, pre, g, k);
      assert Lookup(z.index, g, k) == Some(cs[i]);
      RecordDemotes(z, cs[j], cs[i]);
      ClassifyAt(y, cs, j);
      assert cs[i] in Classify(y, cs[..j + 1]).invalid;
      InvalidGrows(y, cs, j + 1);
    } else {
      assert pre[m] == cs[m];
      OverriddenIsInvalid(y, cs, i, m);
    }
  }

  /** Classify records entry j on top of the ones before it. */
  lemma ClassifyAt(y: Tally, cs: seq<BuildConfig>, j: nat)
    requires j < |cs|
    ensures Classify(y, cs[..j + 1]) == Record(Classify(y, cs[..j]), cs[j])
  {
    assert cs[..j + 1][..j] == cs[..j];
  }

  /** Recording c over an entry filed under the same pair moves that entry to the invalid list. */
  lemma RecordDemotes(z: Tally, c: BuildConfig, prev: BuildConfig)
    requires Lookup(z.index, c.generator, c.configName) == Some(prev)
    ensures Record(z, c).invalid == z.invalid + [prev]
  {
  }

  /** Every matched entry lands on exactly one of the two lists. */
  lemma {:induction false} ClassifyCount(y: Tally, cs: seq<BuildConfig>)
    requires Consistent(y)
    ensures |Classify(y, cs).valid| + |Classify(y, cs).invalid| == |y.valid| + |y.invalid| + |cs|
  {
    if cs != [] {
      var z := Classify(y, cs[..|cs| - 1]);
      var c := cs[|cs| - 1];
      ClassifyCount(y, cs[..|cs| - 1]);
      ClassifyConsistent(y, cs[..|cs| - 1]);
      match Get(z.index, c.generator)
      case None =>
      case Some(b) =>
        if Get(b, c.configName).Some? {
          assert Lookup(z.index, c.generator, c.configName) == Get(b, c.configName);
        }
    }
  }

  /** A table with an empty bucket for each known generator, in listing order. */
  function InitialIndex(generators: seq<string>): (t: Index)
    ensures KeysDistinct(t)
    ensures forall g :: g in Keys(t) <==> g in generators
    ensures forall g :: g in Keys(t) ==> Get(t, g) == Some([])
  {
    if generators == [] then []
    else
      var t := InitialIndex(generators[..|generators| - 1]);
      var g := generators[|generators| - 1];
      PutKeys(t, g, []);
      PutKeepsDistinct(t, g, []);
      assert forall x :: x in generators <==> x in generators[..|generators| - 1] || x == g;
      Put(t, g, [])
  }

  function StartTally(generators: seq<string>): (y: Tally)
    ensures Consistent(y)
  {
    Tally([], [], InitialIndex(generators))
  }

  /**
    * The scan state after some lines: the landmark insertion point, the run bounds and the last
    * matched line of the run (each "unset" while equal to the line count), whether the landmark
    * comment has been seen, and the tally.
    */
  datatype Scan = Scan(afterComment: nat, cfgStart: nat, cfgEnd: nat, lastCfg: nat, sawComment: bool, tally: Tally)

  predicate Matches(line: string) {
    FromMakefile(line).Parsed?
  }

  /** One iteration of the scan over line number idx of n lines. */
  function ScanStep(n: nat, s: Scan, idx: nat, line: string): (r: Result<Scan, ConfigError>)
    ensures r.Ok? && s.cfgEnd < n ==> r.value.cfgEnd == s.cfgEnd && r.value.tally == s.tally
  {
    if IsBlank(line) then
      Ok(if s.sawComment && s.afterComment == n then s.(afterComment := idx) else s)
    else
      var saw := s.sawComment || StartsWith(line, Landmark);
      var ac := if saw && s.afterComment == n && !StartsWith(Strip(line), "#") then idx else s.afterComment;
      match FromMakefile(line)
      case Rejected(e) => Err(e)
      case NoMatch =>
        var end := if s.cfgStart < n && s.cfgEnd == n then s.lastCfg + 1 else s.cfgEnd;
        Ok(s.(afterComment := ac, sawComment := saw, cfgEnd := end))
      case Parsed(c) =>
        var start := if s.cfgStart == n then idx else s.cfgStart;
        if s.cfgEnd == n then Ok(Scan(ac, start, s.cfgEnd, idx, saw, Record(s.tally, c)))
        else Ok(s.(afterComment := ac, sawComment := saw, cfgStart := start))
  }

  /** The scan after the first i lines, or the error a line raised. */
  function ScanPrefix(lines: seq<string>, generators: seq<string>, i: nat): Result<Scan, ConfigError>
    requires i <= |lines|
  {
    var n := |lines|;
    if i == 0 then Ok(Scan(n, n, n, n, false, StartTally(generators)))
    else
      match ScanPrefix(lines, generators, i - 1)
      case Err(e) => Err(e)
      case Ok(s) => ScanStep(n, s, i - 1, lines[i - 1])
  }

  /** Gives a generator with an empty bucket its default entry (gen, None, ''). */
  function AddDefault(y: Tally, g: string): Result<Tally, ConfigError> {
    match Get(y.index, g)
    case Some(b) =>
      if b != [] then Ok(y)
      else
        (match NewBuildConfig(g, None, None, None)
         case Err(e) => Err(e)
         case Ok(c) => Ok(Tally(y.valid + [c], y.invalid, Put(y.index, g, Put(b, None, c)))))
    case None => Ok(y)
  }

  /** AddDefault for each generator of gs, in order. */
  function AddDefaults(y: Tally, gs: seq<string>): (r: Result<Tally, ConfigError>)
    ensures r.Ok? ==> r.value.invalid == y.invalid
    ensures r.Ok? ==> |y.valid| <= |r.value.valid| && r.value.valid[..|y.valid|] == y.valid
  {
    if gs == [] then Ok(y)
    else
      match AddDefaults(y, gs[..|gs| - 1])
      case Err(e) => Err(e)
      case Ok(z) => AddDefault(z, gs[|gs| - 1])
  }

  /** The fields _parse_makefile assigns. */
  datatype Layout = Layout(afterComment: nat, cfgStart: nat, cfgEnd: nat, index: Index,
                           valid: seq<BuildConfig>, invalid: seq<BuildConfig>)

  /** Makefile._parse_makefile: the scan over all lines, then the defaults. */
  function Parse(lines: seq<string>, generators: seq<string>): (r: Result<Layout, ConfigError>)
    ensures r.Ok? ==> r.value.cfgStart <= r.value.cfgEnd <= |lines| && r.value.afterComment <= |lines|
  {
    match ScanPrefix(lines, generators, |lines|)
    case Err(e) => Err(e)
    case Ok(s) =>
      ScanRun(lines, generators, |lines|);
      ScanComment(lines, generators, |lines|);
      match AddDefaults(s.tally, Keys(s.tally.index))
      case Err(e) => Err(e)
      case Ok(y) => Ok(Layout(s.afterComment, s.cfgStart, s.cfgEnd, y.index, y.valid, y.invalid))
  }

  /** The entries of the matching lines, in order. */
  function MatchedConfigs(lines: seq<string>): seq<BuildConfig> {
    if lines == [] then []
    else
      var last := lines[|lines| - 1];
      MatchedConfigs(lines[..|lines| - 1]) + if Matches(last) then [FromMakefile(last).config] else []
  }

  lemma BlankNoMatch(line: string)
    requires IsBlank(line)
    ensures FromMakefile(line) == NoMatch
  {
    if |line| >= |CfgPrefix| {
      assert line[0] != CfgPrefix[0];
    }
  }

  /** What the scan state says about the run of configuration lines among the first i lines. */
  ghost predicate RunInv(lines: seq<string>, i: nat, s: Scan)
    requires i <= |lines|
  {
    && s.cfgStart <= |lines| && s.cfgEnd <= |lines| && s.lastCfg <= |lines|
    && NoRun(lines, i, s) && RunStarted(lines, i, s) && RunOpen(lines, i, s) && RunShut(lines, i, s)
  }

  /** Before the run: none of the first i lines matched. */
  ghost predicate NoRun(lines: seq<string>, i: nat, s: Scan)
    requires i <= |lines|
  {
    s.cfgStart == |lines| ==> s.cfgEnd == |lines| && s.lastCfg == |lines| && forall j :: 0 <= j < i ==> !Matches(lines[j])
  }

  /** The run starts at the first match, and lastCfg is its last match so far. */
  ghost predicate RunStarted(lines: seq<string>, i: nat, s: Scan)
    requires i <= |lines|
  {
    s.cfgStart < |lines| ==>
      && s.cfgStart <= s.lastCfg < i && Matches(lines[s.cfgStart]) && Matches(lines[s.lastCfg])
      && forall j :: 0 <= j < s.cfgStart ==> !Matches(lines[j])
  }

  /** While the run is open, it holds only matches and blank lines, and only blank lines follow its last match. */
  ghost predicate RunOpen(lines: seq<string>, i: nat, s: Scan)
    requires i <= |lines|
  {
    s.cfgStart < |lines| && s.cfgEnd == |lines| ==>
      && (forall j :: s.lastCfg < j < i ==> IsBlank(lines[j]))
      && forall j :: s.cfgStart <= j < i ==> Matches(lines[j]) || IsBlank(lines[j])
  }

  /** Once closed, the run ends just after its last match, and a later line closed it. */
  ghost predicate RunShut(lines: seq<string>, i: nat, s: Scan)
    requires i <= |lines|
  {
    s.cfgEnd < |lines| ==>
      && s.cfgStart < |lines| && s.cfgEnd == s.lastCfg + 1 && s.cfgEnd <= i
      && (forall j :: s.cfgStart <= j < s.cfgEnd ==> Matches(lines[j]) || IsBlank(lines[j]))
      && RunClosed(lines, s.cfgEnd, i)
  }

  /** A line that is neither blank nor a match closed the run, with only blank lines before it. */
  ghost predicate RunClosed(lines: seq<string>, end: nat, i: nat)
    requires i <= |lines|
  {
    exists c :: end <= c < i && !Matches(lines[c]) && !IsBlank(lines[c]) && forall j :: end <= j < c ==> IsBlank(lines[j])
  }

  /** A closed run stays closed as lines are added. */
  lemma RunClosedGrows(lines: seq<string>, end: nat, i: nat)
    requires i < |lines| && RunClosed(lines, end, i)
    ensures RunClosed(lines, end, i + 1)
  {
    var c :| end <= c < i && !Matches(lines[c]) && !IsBlank(lines[c]) && forall j :: end <= j < c ==> IsBlank(lines[j]);
    assert end <= c < i + 1;
  }

  lemma NoRunSkips(lines: seq<string>, i: nat, s: Scan, s': Scan)
    requires i < |lines| && NoRun(lines, i, s) && !Matches(lines[i])
    requires s'.cfgStart == s.cfgStart && s'.cfgEnd == s.cfgEnd && s'.lastCfg == s.lastCfg
    ensures NoRun(lines, i + 1, s')
  {
    if s.cfgStart == |lines| {
      forall j | 0 <= j < i + 1 ensures !Matches(lines[j]) {
        if j < i {
          assert 0 <= j < i;
        }
      }
    }
  }

  lemma RunStartedGrows(lines: seq<string>, i: nat, s: Scan, s': Scan)
    requires i < |lines| && RunStarted(lines, i, s)
    requires s'.cfgStart == s.cfgStart && s'.lastCfg == s.lastCfg
    ensures RunStarted(lines, i + 1, s')
  {
  }

  lemma RunOpenBlank(lines: seq<string>, i: nat, s: Scan, s': Scan)
    requires i < |lines| && RunOpen(lines, i, s) && IsBlank(lines[i])
    requires s'.cfgStart == s.cfgStart && s'.cfgEnd == s.cfgEnd && s'.lastCfg == s.lastCfg
    ensures RunOpen(lines, i + 1, s')
  {
    if s.cfgStart < |lines| && s.cfgEnd == |lines| {
      forall j | s.lastCfg < j < i + 1
        ensures IsBlank(lines[j])
      {
        if j < i {
          assert s.lastCfg < j < i;
        }
      }
      forall j | s.cfgStart <= j < i + 1
        ensures Matches(lines[j]) || IsBlank(lines[j])
      {
        if j < i {
          assert s.cfgStart <= j < i;
        }
      }
    }
  }

  lemma RunShutGrows(lines: seq<string>, i: nat, s: Scan, s': Scan)
    requires i < |lines| && RunShut(lines, i, s)
    requires s'.cfgStart == s.cfgStart && s'.cfgEnd == s.cfgEnd && s'.lastCfg == s.lastCfg
    ensures RunShut(lines, i + 1, s')
  {
    if s.cfgEnd < |lines| {
      RunClosedGrows(lines, s.cfgEnd, i);
    }
  }

  /** A blank line leaves the run where it was. */
  lemma RunBlank(lines: seq<string>, i: nat, s: Scan, s': Scan)
    requires i < |lines| && RunInv(lines, i, s) && IsBlank(lines[i]) && !Matches(lines[i])
    requires s'.cfgStart == s.cfgStart && s'.cfgEnd == s.cfgEnd && s'.lastCfg == s.lastCfg
    ensures RunInv(lines, i + 1, s')
  {
    NoRunSkips(lines, i, s, s');
    RunStartedGrows(lines, i, s, s');
    RunOpenBlank(lines, i, s, s');
    RunShutGrows(lines, i, s, s');
  }

  /** A line that is neither blank nor a match closes an open run just after its last match. */
  lemma RunCloses(lines: seq<string>, i: nat, s: Scan, s': Scan)
    requires i < |lines| && RunStarted(lines, i, s) && RunOpen(lines, i, s) && !IsBlank(lines[i]) && !Matches(lines[i])
    requires s.cfgStart < |lines| && s.cfgEnd == |lines|
    requires s'.cfgStart == s.cfgStart && s'.lastCfg == s.lastCfg && s'.cfgEnd == s.lastCfg + 1
    ensures RunShut(lines, i + 1, s')
  {
    assert RunClosed(lines, s.lastCfg + 1, i + 1);
  }

  /** A line that is neither blank nor a match closes an open run. */
  lemma RunOther(lines: seq<string>, i: nat, s: Scan, s': Scan)
    requires i < |lines| && RunInv(lines, i, s) && !IsBlank(lines[i]) && !Matches(lines[i])
    requires s'.cfgStart == s.cfgStart && s'.lastCfg == s.lastCfg
    requires s'.cfgEnd == if s.cfgStart < |lines| && s.cfgEnd == |lines| then s.lastCfg + 1 else s.cfgEnd
    ensures RunInv(lines, i + 1, s')
  {
    var n := |lines|;
    RunStartedGrows(lines, i, s, s');
    if s.cfgStart < n && s.cfgEnd == n {
      RunCloses(lines, i, s, s');
    } else {
      NoRunSkips(lines, i, s, s');
      RunShutGrows(lines, i, s, s');
    }
  }

  /** The first match opens the run. */
  lemma RunOpens(lines: seq<string>, i: nat, s: Scan, s': Scan)
    requires i < |lines| && NoRun(lines, i, s) && Matches(lines[i]) && s.cfgStart == |lines|
    requires s'.cfgStart == i && s'.cfgEnd == |lines| && s'.lastCfg == i
    ensures RunStarted(lines, i + 1, s') && RunOpen(lines, i + 1, s')
  {
    forall j | i <= j < i + 1
      ensures Matches(lines[j])
    {
      assert j == i;
    }
  }

  /** A match extends an open run. */
  lemma RunExtends(lines: seq<string>, i: nat, s: Scan, s': Scan)
    requires i < |lines| && RunStarted(lines, i, s) && RunOpen(lines, i, s) && Matches(lines[i])
    requires s.cfgStart < |lines| && s.cfgEnd == |lines|
    requires s'.cfgStart == s.cfgStart && s'.cfgEnd == |lines| && s'.lastCfg == i
    ensures RunStarted(lines, i + 1, s') && RunOpen(lines, i + 1, s')
  {
    forall j | s.cfgStart <= j < i + 1
      ensures Matches(lines[j]) || IsBlank(lines[j])
    {
      if j < i {
        assert s.cfgStart <= j < i;
      } else {
        assert j == i;
      }
    }
  }

  /** A match opens the run, or extends it while it is still open. */
  lemma RunMatch(lines: seq<string>, i: nat, s: Scan, s': Scan)
    requires i < |lines| && RunInv(lines, i, s) && Matches(lines[i])
    requires s'.cfgStart == (if s.cfgStart == |lines| then i else s.cfgStart) && s'.cfgEnd == s.cfgEnd
    requires s'.lastCfg == if s.cfgEnd == |lines| then i else s.lastCfg
    ensures RunInv(lines, i + 1, s')
  {
    var n := |lines|;
    if s.cfgStart == n {
      RunOpens(lines, i, s, s');
    } else if s.cfgEnd == n {
      RunExtends(lines, i, s, s');
    } else {
      RunStartedGrows(lines, i, s, s');
      RunShutGrows(lines, i, s, s');
    }
  }

  lemma StepRun(lines: seq<string>, i: nat, s: Scan, s': Scan)
    requires i < |lines| && RunInv(lines, i, s)
    requires ScanStep(|lines|, s, i, lines[i]) == Ok(s')
    ensures RunInv(lines, i + 1, s')
  {
    var line := lines[i];
    if IsBlank(line) {
      BlankNoMatch(line);
      RunBlank(lines, i, s, s');
    } else if FromMakefile(line).NoMatch? {
      RunOther(lines, i, s, s');
    } else {
      RunMatch(lines, i, s, s');
    }
  }

  lemma {:induction false} ScanRun(lines: seq<string>, generators: seq<string>, i: nat)
    requires i <= |lines| && ScanPrefix(lines, generators, i).Ok?
    ensures RunInv(lines, i, ScanPrefix(lines, generators, i).value)
  {
    if i > 0 {
      ScanRun(lines, generators, i - 1);
      StepRun(lines, i - 1, ScanPrefix(lines, generators, i - 1).value, ScanPrefix(lines, generators, i).value);
    }
  }

  /** Lines that do not match add no entries. */
  lemma {:induction false} MatchedSkip(lines: seq<string>, a: nat, b: nat)
    requires a <= b <= |lines| && forall j :: a <= j < b ==> !Matches(lines[j])
    ensures MatchedConfigs(lines[..b]) == MatchedConfigs(lines[..a])
    decreases b
  {
    if a < b {
      assert lines[..b][..b - 1] == lines[..b - 1];
      MatchedSkip(lines, a, b - 1);
    }
  }

  lemma MatchedNext(lines: seq<string>, i: nat)
    requires i < |lines|
    ensures MatchedConfigs(lines[..i + 1])
            == MatchedConfigs(lines[..i]) + if Matches(lines[i]) then [FromMakefile(lines[i]).config] else []
  {
    assert lines[..i + 1][..i] == lines[..i];
  }

  /** Where the classified part of the first i lines ends: i while the run is open, else the run's end. */
  function Classified(n: nat, i: nat, s: Scan): nat {
    if s.cfgEnd == n then i else s.cfgEnd
  }

  /** The effect of one step on the run bounds and the tally. */
  ghost predicate StepEffect(n: nat, s: Scan, line: string, s': Scan) {
    && (!Matches(line) ==>
          && s'.tally == s.tally && s'.lastCfg == s.lastCfg && s'.cfgStart == s.cfgStart
          && s'.cfgEnd == if !IsBlank(line) && s.cfgStart < n && s.cfgEnd == n then s.lastCfg + 1 else s.cfgEnd)
    && (Matches(line) ==>
          && !IsBlank(line) && s'.cfgEnd == s.cfgEnd
          && s'.tally == if s.cfgEnd == n then Record(s.tally, FromMakefile(line).config) else s.tally)
  }

  lemma StepShape(n: nat, s: Scan, idx: nat, line: string)
    requires ScanStep(n, s, idx, line).Ok?
    ensures StepEffect(n, s, line, ScanStep(n, s, idx, line).value)
  {
    if IsBlank(line) {
      BlankNoMatch(line);
    }
  }

  lemma StepTally(lines: seq<string>, generators: seq<string>, i: nat, s: Scan, s': Scan)
    requires i < |lines| && Classified(|lines|, i, s) <= i
    requires s.cfgStart < |lines| && s.cfgEnd == |lines| ==>
               s.lastCfg < i && forall j :: s.lastCfg < j < i ==> IsBlank(lines[j])
    requires s.tally == Classify(StartTally(generators), MatchedConfigs(lines[..Classified(|lines|, i, s)]))
    requires ScanStep(|lines|, s, i, lines[i]) == Ok(s')
    ensures Classified(|lines|, i + 1, s') <= i + 1
    ensures s'.tally == Classify(StartTally(generators), MatchedConfigs(lines[..Classified(|lines|, i + 1, s')]))
  {
    StepShape(|lines|, s, i, lines[i]);
    TallyStep(lines, StartTally(generators), i, s, s');
  }

  lemma TallyStep(lines: seq<string>, y0: Tally, i: nat, s: Scan, s': Scan)
    requires i < |lines| && Classified(|lines|, i, s) <= i
    requires s.cfgStart < |lines| && s.cfgEnd == |lines| ==>
               s.lastCfg < i && forall j :: s.lastCfg < j < i ==> IsBlank(lines[j])
    requires s.tally == Classify(y0, MatchedConfigs(lines[..Classified(|lines|, i, s)]))
    requires StepEffect(|lines|, s, lines[i], s')
    ensures Classified(|lines|, i + 1, s') <= i + 1
    ensures s'.tally == Classify(y0, MatchedConfigs(lines[..Classified(|lines|, i + 1, s')]))
  {
    var n, line := |lines|, lines[i];
    if Matches(line) {
      assert s'.cfgEnd == s.cfgEnd;
      if s.cfgEnd == n {
        assert s'.tally == Record(s.tally, FromMakefile(line).config);
        TallyRecords(lines, i, s.tally, y0);
      } else {
        assert s'.tally == s.tally;
      }
    } else {
      assert s'.tally == s.tally && s'.lastCfg == s.lastCfg;
      if s.cfgEnd != n {
        assert s'.cfgEnd == s.cfgEnd;
      } else if !IsBlank(line) && s.cfgStart < n {
        assert s'.cfgEnd == s.lastCfg + 1;
        TallyCloses(lines, i, s.lastCfg + 1, s.tally, y0);
      } else {
        assert s'.cfgEnd == n;
        TallySkips(lines, i, s.tally, y0);
      }
    }
  }

  /** Blank lines after the last match add nothing, so the tally is the one up to that match. */
  lemma TallyCloses(lines: seq<string>, i: nat, a: nat, t: Tally, y0: Tally)
    requires a <= i < |lines| && forall j :: a <= j < i ==> IsBlank(lines[j])
    requires t == Classify(y0, MatchedConfigs(lines[..i]))
    ensures t == Classify(y0, MatchedConfigs(lines[..a]))
  {
    forall j | a <= j < i ensures !Matches(lines[j]) {
      BlankNoMatch(lines[j]);
    }
    MatchedSkip(lines, a, i);
  }

  /** A line that does not match leaves the tally as it was. */
  lemma TallySkips(lines: seq<string>, i: nat, t: Tally, y0: Tally)
    requires i < |lines| && !Matches(lines[i])
    requires t == Classify(y0, MatchedConfigs(lines[..i]))
    ensures t == Classify(y0, MatchedConfigs(lines[..i + 1]))
  {
    MatchedNext(lines, i);
    assert MatchedConfigs(lines[..i]) + [] == MatchedConfigs(lines[..i]);
  }

  /** A match is recorded on top of the tally of the lines before it. */
  lemma TallyRecords(lines: seq<string>, i: nat, t: Tally, y0: Tally)
    requires i < |lines| && Matches(lines[i])
    requires t == Classify(y0, MatchedConfigs(lines[..i]))
    ensures Record(t, FromMakefile(lines[i]).config) == Classify(y0, MatchedConfigs(lines[..i + 1]))
  {
    MatchedNext(lines, i);
    ClassifyNext(y0, MatchedConfigs(lines[..i]), FromMakefile(lines[i]).config);
  }

  lemma ClassifyNext(y: Tally, m: seq<BuildConfig>, c: BuildConfig)
    ensures Classify(y, m + [c]) == Record(Classify(y, m), c)
  {
    assert (m + [c])[..|m|] == m;
  }

  /** A step fails exactly on a line that raises. */
  lemma StepErrors(n: nat, s: Scan, idx: nat, line: string)
    ensures ScanStep(n, s, idx, line).Err? <==> FromMakefile(line).Rejected?
    ensures ScanStep(n, s, idx, line).Err? ==> ScanStep(n, s, idx, line).error == EmptyConfigName
  {
    if IsBlank(line) {
      BlankNoMatch(line);
    }
  }

  lemma {:induction false} ScanTally(lines: seq<string>, generators: seq<string>, i: nat)
    requires i <= |lines| && ScanPrefix(lines, generators, i).Ok?
    ensures var s := ScanPrefix(lines, generators, i).value;
            Classified(|lines|, i, s) <= i
            && s.tally == Classify(StartTally(generators), MatchedConfigs(lines[..Classified(|lines|, i, s)]))
  {
    if i > 0 {
      ScanTally(lines, generators, i - 1);
      ScanRun(lines, generators, i - 1);
      StepTally(lines, generators, i - 1, ScanPrefix(lines, generators, i - 1).value, ScanPrefix(lines, generators, i).value);
    } else {
      assert lines[..0] == [];
    }
  }

  /** The scan stops at the first line that raises; that error is the one for an empty name. */
  lemma {:induction false} ScanErrors(lines: seq<string>, generators: seq<string>, i: nat)
    requires i <= |lines|
    ensures ScanPrefix(lines, generators, i).Ok? <==> forall j :: 0 <= j < i ==> !FromMakefile(lines[j]).Rejected?
    ensures ScanPrefix(lines, generators, i).Err? ==> ScanPrefix(lines, generators, i).error == EmptyConfigName
  {
    if i > 0 {
      ScanErrors(lines, generators, i - 1);
      var p := ScanPrefix(lines, generators, i - 1);
      if p.Ok? {
        StepErrors(|lines|, p.value, i - 1, lines[i - 1]);
        if ScanPrefix(lines, generators, i).Ok? {
          forall j | 0 <= j < i ensures !FromMakefile(lines[j]).Rejected? {
            if j < i - 1 {
              assert 0 <= j < i - 1;
            }
          }
        }
      } else {
        var j :| 0 <= j < i - 1 && FromMakefile(lines[j]).Rejected?;
        assert 0 <= j < i;
      }
    }
  }

  /** The landmark line is itself a comment line. */
  lemma LandmarkIsComment(line: string)
    requires StartsWith(line, Landmark)
    ensures !IsBlank(line) && StartsWith(Strip(line), "#")
  {
    assert line[0] == '#';
    var l := LStrip(line);
    assert l == line;
    var r := RStrip(l);
    RStripShape(l);
    assert !IsSpace(l[0]);
    assert r[0] == line[0];
  }

  /** The effect of one step on the landmark state. */
  lemma StepComment(n: nat, s: Scan, idx: nat, line: string)
    requires ScanStep(n, s, idx, line).Ok?
    ensures var s' := ScanStep(n, s, idx, line).value;
      && s'.sawComment == (s.sawComment || (!IsBlank(line) && StartsWith(line, Landmark)))
      && s'.afterComment
         == if s.sawComment && s.afterComment == n && Opens(line) then idx
            else s.afterComment
  {
    if StartsWith(line, Landmark) {
      LandmarkIsComment(line);
    }
  }

  /**
    * What the scan state says about the landmark after i lines: before the first landmark comment
    * nothing is set; after it, the insertion point is unset until the first line that opens, and
    * then that line.
    */
  ghost predicate CommentInv(lines: seq<string>, i: nat, s: Scan)
    requires i <= |lines|
  {
    var n := |lines|;
    var until := if s.afterComment < n then s.afterComment else i;
    && s.afterComment <= n
    && (!s.sawComment ==> s.afterComment == n && forall j :: 0 <= j < i ==> !StartsWith(lines[j], Landmark))
    && (s.sawComment ==> exists l :: 0 <= l < until && FirstStarting(lines, Landmark, l) && QuietAfter(lines, l, until))
    && (s.afterComment < n ==> s.afterComment < i && Opens(lines[s.afterComment]))
  }

  lemma {:induction false} ScanComment(lines: seq<string>, generators: seq<string>, i: nat)
    requires i <= |lines| && ScanPrefix(lines, generators, i).Ok?
    ensures CommentInv(lines, i, ScanPrefix(lines, generators, i).value)
  {
    if i > 0 {
      var s := ScanPrefix(lines, generators, i - 1).value;
      ScanComment(lines, generators, i - 1);
      PrefixComment(lines, i, s, ScanPrefix(lines, generators, i).value);
    }
  }

  lemma PrefixComment(lines: seq<string>, i: nat, s: Scan, s': Scan)
    requires 0 < i <= |lines| && CommentInv(lines, i - 1, s)
    requires ScanStep(|lines|, s, i - 1, lines[i - 1]) == Ok(s')
    ensures CommentInv(lines, i, s')
  {
    StepComment(|lines|, s, i - 1, lines[i - 1]);
    CommentStep(lines, i, s, s');
  }

  /** One line keeps the landmark invariant, given only how the step changes the landmark state. */
  lemma CommentStep(lines: seq<string>, i: nat, s: Scan, s': Scan)
    requires 0 < i <= |lines| && CommentInv(lines, i - 1, s)
    requires s'.sawComment == (s.sawComment || (!IsBlank(lines[i - 1]) && StartsWith(lines[i - 1], Landmark)))
    requires s'.afterComment
             == if s.sawComment && s.afterComment == |lines| && Opens(lines[i - 1]) then i - 1 else s.afterComment
    ensures CommentInv(lines, i, s')
  {
    if s.sawComment {
      CommentLater(lines, i, s, s');
    } else {
      CommentBefore(lines, i, s, s');
    }
  }

  /** The step over a line before any landmark comment. */
  lemma CommentBefore(lines: seq<string>, i: nat, s: Scan, s': Scan)
    requires 0 < i <= |lines| && CommentInv(lines, i - 1, s) && !s.sawComment
    requires s'.sawComment == (!IsBlank(lines[i - 1]) && StartsWith(lines[i - 1], Landmark))
    requires s'.afterComment == s.afterComment
    ensures CommentInv(lines, i, s')
  {
    if StartsWith(lines[i - 1], Landmark) {
      LandmarkIsComment(lines[i - 1]);
      assert FirstStarting(lines, Landmark, i - 1);
      assert QuietAfter(lines, i - 1, i);
    }
  }

  /** The step over a line after the landmark comment. */
  lemma CommentLater(lines: seq<string>, i: nat, s: Scan, s': Scan)
    requires 0 < i <= |lines| && CommentInv(lines, i - 1, s) && s.sawComment && s'.sawComment
    requires s'.afterComment
             == if s.afterComment == |lines| && Opens(lines[i - 1]) then i - 1 else s.afterComment
    ensures CommentInv(lines, i, s')
  {
    if s.afterComment == |lines| && !Opens(lines[i - 1]) {
      var l :| 0 <= l < i - 1 && FirstStarting(lines, Landmark, l) && QuietAfter(lines, l, i - 1);
      assert QuietAfter(lines, l, i);
    }
  }

  /** The landmark facts of the state after the last line. */
  lemma ScanLandmark(lines: seq<string>, generators: seq<string>)
    requires ScanPrefix(lines, generators, |lines|).Ok?
    ensures var ac := ScanPrefix(lines, generators, |lines|).value.afterComment;
      && ac <= |lines|
      && (ac < |lines| ==>
            && Opens(lines[ac])
            && exists l :: 0 <= l < ac && FirstStarting(lines, Landmark, l) && QuietAfter(lines, l, ac))
      && (ac == |lines| ==>
            forall l :: 0 <= l < |lines| && StartsWith(lines[l], Landmark) ==> QuietAfter(lines, l, |lines|))
  {
    var n := |lines|;
    var s := ScanPrefix(lines, generators, n).value;
    ScanComment(lines, generators, n);
    if s.afterComment == n && s.sawComment {
      var l0 :| 0 <= l0 < n && FirstStarting(lines, Landmark, l0) && QuietAfter(lines, l0, n);
      forall l | 0 <= l < n && StartsWith(lines[l], Landmark) ensures QuietAfter(lines, l, n) {
        assert l >= l0;
      }
    }
  }

  /** The default entry a generator without lines receives. */
  function DefaultEntry(g: string): BuildConfig {
    BuildConfig(g, None, "", None)
  }

  /** Whether AddDefaults gives g a default entry. */
  predicate GetsDefault(y: Tally, gs: seq<string>, g: string) {
    g in gs && Get(y.index, g) == Some([])
  }

  /**
    * The defaults fill exactly the empty buckets of the listed generators with (g, None, '');
    * nothing else changes, and the tally stays consistent.
    */
  lemma {:induction false} DefaultsEffect(y: Tally, gs: seq<string>)
    requires Consistent(y) && AddDefaults(y, gs).Ok?
    ensures var z := AddDefaults(y, gs).value;
      && Consistent(z) && Keys(z.index) == Keys(y.index) && z.invalid == y.invalid
      && forall g :: Get(z.index, g) == if GetsDefault(y, gs, g) then Some([(None, DefaultEntry(g))]) else Get(y.index, g)
  {
    if gs != [] {
      var pre := gs[..|gs| - 1];
      var g := gs[|gs| - 1];
      DefaultsEffect(y, pre);
      DefaultStep(AddDefaults(y, pre).value, g);
      assert forall x :: x in gs <==> x in pre || x == g;
    }
  }

  lemma DefaultStep(z: Tally, g: string)
    requires Consistent(z) && AddDefault(z, g).Ok?
    ensures var z' := AddDefault(z, g).value;
      && Consistent(z') && Keys(z'.index) == Keys(z.index) && z'.invalid == z.invalid
      && forall g' :: Get(z'.index, g') == if g' == g && Get(z.index, g) == Some([]) then Some([(None, DefaultEntry(g))]) else Get(z.index, g')
  {
    if Get(z.index, g) == Some([]) {
      var c := DefaultEntry(g);
      var empty: Bucket := [];
      assert Put(empty, None, c) == [(None, c)];
      assert AddDefault(z, g).value == Record(z, c);
      RecordConsistent(z, c);
    }
  }

  /** The defaults fail exactly when a listed generator with an empty bucket has an empty name. */
  lemma {:induction false} DefaultsError(y: Tally, gs: seq<string>)
    ensures AddDefaults(y, gs).Err? ==> AddDefaults(y, gs).error == NamelessGenerator
    ensures Consistent(y) ==> (AddDefaults(y, gs).Err? <==> GetsDefault(y, gs, ""))
  {
    if gs != [] {
      var pre := gs[..|gs| - 1];
      var g := gs[|gs| - 1];
      DefaultsError(y, pre);
      assert forall x :: x in gs <==> x in pre || x == g;
      if Consistent(y) && AddDefaults(y, pre).Ok? {
        DefaultsEffect(y, pre);
      }
    }
  }

  /** A bucket in which no key is found is empty. */
  lemma NoKeysEmpty(b: Bucket)
    requires forall k :: Get(b, k).None?
    ensures b == []
  {
    if b != [] {
      assert Get(b, b[0].0).Some?;
    }
  }

  /** The entries the parse classifies: those of the matching lines before the end of the run. */
  function Block(lines: seq<string>, p: Layout): seq<BuildConfig>
    requires p.cfgEnd <= |lines|
  {
    MatchedConfigs(lines[..p.cfgEnd])
  }

  /** A successful parse is the scan over all lines followed by the defaults. */
  lemma ParseParts(lines: seq<string>, generators: seq<string>) returns (s: Scan)
    requires Parse(lines, generators).Ok?
    ensures ScanPrefix(lines, generators, |lines|) == Ok(s)
    ensures var p := Parse(lines, generators).value;
      && p.afterComment == s.afterComment && p.cfgStart == s.cfgStart && p.cfgEnd == s.cfgEnd <= |lines|
      && s.tally == Classify(StartTally(generators), MatchedConfigs(lines[..s.cfgEnd]))
      && Consistent(s.tally) && (forall g :: g in Keys(s.tally.index) <==> g in generators)
      && AddDefaults(s.tally, Keys(s.tally.index)) == Ok(Tally(p.valid, p.invalid, p.index))
  {
    s := ScanPrefix(lines, generators, |lines|).value;
    ScanTally(lines, generators, |lines|);
    ScanRun(lines, generators, |lines|);
    ClassifyConsistent(StartTally(generators), MatchedConfigs(lines[..s.cfgEnd]));
  }

  /**
    * The run of configuration lines: it starts at the first matching line, holds only matching
    * and blank lines, and when it ends before the last line it ends just after a match, closed by
    * the first non-blank, non-matching line that follows; blank lines never close it.
    */
  lemma ParseRun(lines: seq<string>, generators: seq<string>)
    requires Parse(lines, generators).Ok?
    ensures var p := Parse(lines, generators).value; var n := |lines|;
      && (forall j :: 0 <= j < p.cfgStart ==> !Matches(lines[j]))
      && (p.cfgStart < n ==> Matches(lines[p.cfgStart]))
      && (forall j :: p.cfgStart <= j < p.cfgEnd ==> Matches(lines[j]) || IsBlank(lines[j]))
      && (p.cfgEnd < n ==> 0 < p.cfgEnd && Matches(lines[p.cfgEnd - 1]) && RunClosed(lines, p.cfgEnd, n))
  {
    var s := ParseParts(lines, generators);
    ScanRun(lines, generators, |lines|);
    ScanComment(lines, generators, |lines|);
  }

  /**
    * The landmark insertion point: when set, it is the first line that opens after the first
    * "# Configure generators" line; when unset, no line opens after any landmark line.
    */
  lemma ParseLandmark(lines: seq<string>, generators: seq<string>)
    requires Parse(lines, generators).Ok?
    ensures var ac := Parse(lines, generators).value.afterComment;
      && ac <= |lines|
      && (ac < |lines| ==>
            && Opens(lines[ac])
            && exists l :: 0 <= l < ac && FirstStarting(lines, Landmark, l) && QuietAfter(lines, l, ac))
      && (ac == |lines| ==>
            forall l :: 0 <= l < |lines| && StartsWith(lines[l], Landmark) ==> QuietAfter(lines, l, |lines|))
  {
    var s := ParseParts(lines, generators);
    ScanLandmark(lines, generators);
  }

  /**
    * The parse raises exactly when a line has an explicit empty "__" segment (anywhere in the
    * file) or a known generator has an empty name.
    */
  lemma ParseErrors(lines: seq<string>, generators: seq<string>)
    ensures Parse(lines, generators).Ok?
            <==> (forall j :: 0 <= j < |lines| ==> !FromMakefile(lines[j]).Rejected?) && "" !in generators
    ensures (exists j :: 0 <= j < |lines| && FromMakefile(lines[j]).Rejected?)
            ==> Parse(lines, generators) == Err(EmptyConfigName)
  {
    var n := |lines|;
    ScanErrors(lines, generators, n);
    if ScanPrefix(lines, generators, n).Ok? {
      var s := ScanPrefix(lines, generators, n).value;
      var y := StartTally(generators);
      ScanTally(lines, generators, n);
      ScanRun(lines, generators, n);
      var block := MatchedConfigs(lines[..s.cfgEnd]);
      ClassifyConsistent(y, block);
      DefaultsError(s.tally, Keys(s.tally.index));
      if "" in generators {
        forall k ensures Get(Get(s.tally.index, "").value, k).None? {
          ClassifyLookup(y, block, "", k);
          var m := LastIndex(block, ("", k));
          if m >= 0 {
            MatchedNonEmpty(lines[..s.cfgEnd], m);
          }
        }
        NoKeysEmpty(Get(s.tally.index, "").value);
      }
    }
  }

  /** No matched entry has an empty generator name. */
  lemma {:induction false} MatchedNonEmpty(lines: seq<string>, m: nat)
    requires m < |MatchedConfigs(lines)|
    ensures MatchedConfigs(lines)[m].generator != ""
  {
    var pre := MatchedConfigs(lines[..|lines| - 1]);
    if m < |pre| {
      MatchedNonEmpty(lines[..|lines| - 1], m);
    }
  }

  /**
    * The index after a parse: it has exactly the known generators, each with at least one entry,
    * and it stays consistent with the valid list.
    */
  lemma ParseIndex(lines: seq<string>, generators: seq<string>)
    requires Parse(lines, generators).Ok?
    ensures var p := Parse(lines, generators).value;
      && Consistent(Tally(p.valid, p.invalid, p.index))
      && (forall g :: g in Keys(p.index) <==> g in generators)
      && forall g :: g in generators ==> Get(p.index, g).value != []
  {
    var s := ParseParts(lines, generators);
    DefaultsEffect(s.tally, Keys(s.tally.index));
  }

  /** A known generator without matched lines in the run gets just its default (gen, None, ''). */
  lemma ParseDefaults(lines: seq<string>, generators: seq<string>, g: string)
    requires Parse(lines, generators).Ok? && g in generators
    requires forall c :: c in Block(lines, Parse(lines, generators).value) ==> c.generator != g
    ensures Get(Parse(lines, generators).value.index, g) == Some([(None, DefaultEntry(g))])
  {
    var s := ParseParts(lines, generators);
    TallyNoEntries(generators, MatchedConfigs(lines[..s.cfgEnd]), g);
    DefaultsEffect(s.tally, Keys(s.tally.index));
  }

  /** A generator of the directory that no entry names keeps its empty bucket. */
  lemma TallyNoEntries(generators: seq<string>, block: seq<BuildConfig>, g: string)
    requires g in generators && forall c :: c in block ==> c.generator != g
    ensures Get(Classify(StartTally(generators), block).index, g) == Some([])
  {
    var y := StartTally(generators);
    var z := Classify(y, block);
    ClassifyKeys(y, block);
    assert g in Keys(z.index);
    forall k ensures Get(Get(z.index, g).value, k).None? {
      ClassifyLookup(y, block, g, k);
      assert forall i :: 0 <= i < |block| ==> KeyOf(block[i]) != (g, k);
    }
    NoKeysEmpty(Get(z.index, g).value);
  }

  /**
    * Later lines win: for a known generator, the entry filed under (gen, name) is the one from the
    * last matching line of the run with that pair; with no such line, only the default
    * (gen, None, '') of a generator that no line of the run names is there.
    */
  lemma ParseLastWins(lines: seq<string>, generators: seq<string>, g: string, k: Option<string>)
    requires Parse(lines, generators).Ok?
    ensures var p := Parse(lines, generators).value;
      var block := Block(lines, p);
      var m := LastIndex(block, (g, k));
      Lookup(p.index, g, k)
        == if g !in generators then None
           else if m >= 0 then Some(block[m])
           else if k == None && forall c :: c in block ==> c.generator != g then Some(DefaultEntry(g))
           else None
  {
    var p := Parse(lines, generators).value;
    var s := ParseParts(lines, generators);
    DefaultsLookup(s.tally, g, k);
    if g in generators {
      TallyLastWins(generators, Block(lines, p), g, k);
    }
  }

  /** After the defaults, a lookup finds the default exactly where the bucket was empty. */
  lemma DefaultsLookup(t: Tally, g: string, k: Option<string>)
    requires Consistent(t) && AddDefaults(t, Keys(t.index)).Ok?
    ensures Lookup(AddDefaults(t, Keys(t.index)).value.index, g, k)
            == if Get(t.index, g) == Some([]) then (if k == None then Some(DefaultEntry(g)) else None)
               else Lookup(t.index, g, k)
  {
    DefaultsEffect(t, Keys(t.index));
    var z := AddDefaults(t, Keys(t.index)).value;
    if Get(t.index, g) == Some([]) {
      assert GetsDefault(t, Keys(t.index), g);
      var d: Bucket := [(None, DefaultEntry(g))];
      assert Get(z.index, g) == Some(d);
      assert Get(d, k) == if k == None then Some(DefaultEntry(g)) else None;
    } else {
      assert Get(z.index, g) == Get(t.index, g);
    }
  }

  /**
    * Before the defaults: the lookup is the last entry with the pair, and a generator's bucket is
    * empty exactly when no entry names it.
    */
  lemma TallyLastWins(generators: seq<string>, block: seq<BuildConfig>, g: string, k: Option<string>)
    requires g in generators
    ensures var t := Classify(StartTally(generators), block);
      var m := LastIndex(block, (g, k));
      && Lookup(t.index, g, k) == (if m >= 0 then Some(block[m]) else None)
      && (Get(t.index, g) == Some([]) <==> forall c :: c in block ==> c.generator != g)
  {
    ClassifyLookup(StartTally(generators), block, g, k);
    if forall c :: c in block ==> c.generator != g {
      TallyNoEntries(generators, block, g);
    } else {
      var c :| c in block && c.generator == g;
      var i :| 0 <= i < |block| && block[i] == c;
      TallyHasEntry(generators, block, i);
    }
  }

  /** A generator of the directory that some entry of the block names ends with a non-empty bucket. */
  lemma TallyHasEntry(generators: seq<string>, block: seq<BuildConfig>, i: nat)
    requires i < |block| && block[i].generator in generators
    ensures Get(Classify(StartTally(generators), block).index, block[i].generator) != Some([])
  {
    var y := StartTally(generators);
    var key := KeyOf(block[i]);
    var m := LastIndex(block, key);
    assert m >= 0;
    ClassifyLookup(y, block, key.0, key.1);
  }

  /**
    * The invalid list: every matched entry of the run for an unknown generator, and every entry a
    * later line of the run overrides.
    */
  lemma ParseInvalid(lines: seq<string>, generators: seq<string>)
    requires Parse(lines, generators).Ok?
    ensures var p := Parse(lines, generators).value; var block := Block(lines, p);
      && (forall i :: 0 <= i < |block| && block[i].generator !in generators ==> block[i] in p.invalid)
      && forall i, j :: 0 <= i < j < |block| && KeyOf(block[i]) == KeyOf(block[j]) && block[i].generator in generators
                        ==> block[i] in p.invalid
  {
    var p := Parse(lines, generators).value;
    var s := ParseParts(lines, generators);
    DefaultsEffect(s.tally, Keys(s.tally.index));
    var block := Block(lines, p);
    var y := StartTally(generators);
    forall i | 0 <= i < |block| && block[i].generator !in generators ensures block[i] in p.invalid {
      UnknownIsInvalid(y, block, i);
    }
    forall i, j | 0 <= i < j < |block| && KeyOf(block[i]) == KeyOf(block[j]) && block[i].generator in generators
      ensures block[i] in p.invalid
    {
      OverriddenIsInvalid(y, block, i, j);
    }
  }
}
