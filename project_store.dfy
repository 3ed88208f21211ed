/**
  * ProjectMakefile of src/project.py: the generator names read off the project directory, the
  * scan of the Makefile's lines, the index rebuilt from the valid list, and the object whose
  * methods add generators and configurations and splice a fresh block back into the lines.
  */
module ProjectStore {
  import opened Wrappers
  import opened Text
  import opened Dicts
  import opened ProjectLine
  import MakefileLine

  type ConfigError = MakefileLine.ConfigError

  /** The configurations of one generator, keyed by configuration name ('' is the default). */
  type Bucket = Dict<string, BuildConfig>

  /** generator2configs, later _index: generator name to its configurations. */
  type Index = Dict<string, Bucket>

  /** The comment that marks where a new configuration block goes. */
  const Landmark: string := "# Configure generators"

  /** The file suffix that marks a generator source in the project directory. */
  const GenSuffix: string := ".gen.cpp"

  // ---------------------------------------------------------------- generator names

  /** str.rstrip(chars): drops trailing characters that belong to the set chars. */
  function RStripChars(s: string, chars: string): (r: string)
    ensures |r| <= |s| && r == s[..|r|]
    ensures r == [] || r[|r| - 1] !in chars
    ensures forall k :: |r| <= k < |s| ==> s[k] in chars
  {
    if s != [] && s[|s| - 1] in chars then RStripChars(s[..|s| - 1], chars) else s
  }

  /** The generator name _parse_makefile derives from a file name: the suffix's characters stripped as a set. */
  function GlobNameAsWritten(file: string): (r: string)
    ensures |r| <= |file| && r == file[..|r|]
    ensures r == [] || r[|r| - 1] !in GenSuffix
  {
    RStripChars(file, GenSuffix)
  }

  /** A stem that ends in one of the letters of ".gen.cpp" loses it: pipe.gen.cpp names "pi". */
  lemma GlobNameAsWrittenLosesLetters()
    ensures GlobNameAsWritten("pipe" + GenSuffix) == "pi"
    ensures GlobNameAsWritten("pipe" + GenSuffix) != "pipe"
  {
    var s := "pipe" + GenSuffix;
    assert s[..11] == "pipe.gen.cp";
    assert s[..10] == "pipe.gen.c";
    assert s[..9] == "pipe.gen.";
    assert s[..8] == "pipe.gen";
    assert s[..7] == "pipe.ge";
    assert s[..6] == "pipe.g";
    assert s[..5] == "pipe.";
    assert s[..4] == "pipe";
    assert s[..3] == "pip";
    assert "pip"[..2] == "pi";
    assert RStripChars("pi", GenSuffix) == "pi";
  }

  /** Only a stem whose last letter is outside ".gencp" survives the set stripping intact. */
  lemma GlobNameAsWrittenOf(stem: string)
    ensures GlobNameAsWritten(stem + GenSuffix) == stem <==> stem == [] || stem[|stem| - 1] !in GenSuffix
  {
    var s := stem + GenSuffix;
    var r := GlobNameAsWritten(s);
    assert forall k :: |stem| <= k < |s| ==> s[k] in GenSuffix by {
      forall k | |stem| <= k < |s| ensures s[k] in GenSuffix {
        assert s[k] == GenSuffix[k - |stem|];
      }
    }
    if stem == [] || stem[|stem| - 1] !in GenSuffix {
      StripCharsStops(s, GenSuffix, |stem|);
      assert s[..|stem|] == stem;
    }
  }

  /** Stripping a character set ends exactly at the last position m whose prefix ends outside the set. */
  lemma {:induction false} StripCharsStops(s: string, chars: string, m: nat)
    requires m <= |s| && (m == 0 || s[m - 1] !in chars)
    requires forall k :: m <= k < |s| ==> s[k] in chars
    ensures RStripChars(s, chars) == s[..m]
    decreases |s|
  {
    if |s| > m {
      assert s[..|s| - 1][..m] == s[..m];
      StripCharsStops(s[..|s| - 1], chars, m);
    } else {
      assert s[..m] == s;
    }
  }

  /** The generator name as os.path.basename(gen)[:-len('.gen.cpp')]: the suffix dropped once. */
  function GeneratorName(file: string): (r: string)
    ensures |file| >= |GenSuffix| ==> |r| == |file| - |GenSuffix| && r == file[..|r|]
    ensures |file| < |GenSuffix| ==> r == ""
  {
    if |file| >= |GenSuffix| then file[..|file| - |GenSuffix|] else ""
  }

  /** Every stem comes back whole from its file name. */
  lemma GeneratorNameOf(stem: string)
    ensures GeneratorName(stem + GenSuffix) == stem
  {
    assert (stem + GenSuffix)[..|stem|] == stem;
  }

  /** The names of the generator files, in listing order. */
  function GeneratorNames(files: seq<string>): (names: seq<string>)
    ensures |names| == |files|
    ensures forall i :: 0 <= i < |files| ==> names[i] == GeneratorName(files[i])
  {
    seq(|files|, i requires 0 <= i < |files| => GeneratorName(files[i]))
  }

  // ---------------------------------------------------------------- the valid/invalid tally

  /** _index[g][k] when both keys are present. */
  function Lookup(t: Index, g: string, k: string): Option<BuildConfig> {
    match Get(t, g)
    case None => None
    case Some(b) => Get(b, k)
  }

  /** The (generator, configuration name) pair an entry is filed under. */
  function KeyOf(c: BuildConfig): (string, string) {
    (c.generator, c.configName)
  }

  /** Python's list.remove(x) on the valid list: drops the first entry equal to x. */
  function RemoveFirst(s: seq<BuildConfig>, x: BuildConfig): (r: seq<BuildConfig>)
    ensures forall v :: v in r ==> v in s
    ensures forall v :: v in s && v != x ==> v in r
    ensures |r| == if x in s then |s| - 1 else |s|
  {
    if s == [] then s
    else if s[0] == x then s[1..]
    else [s[0]] + RemoveFirst(s[1..], x)
  }

  /** configurations, invalid_configurations and generator2configs while the lines are scanned. */
  datatype Tally = Tally(valid: seq<BuildConfig>, invalid: seq<BuildConfig>, table: Index)

  /**
    * One matched line while the run is open: an unknown generator goes to the invalid list; a
    * repeated pair moves the earlier entry from the valid to the invalid list; the new entry is
    * filed in the table and appended to the valid list.
    */
  function Record(y: Tally, c: BuildConfig): (r: Tally)
    ensures |y.invalid| <= |r.invalid| <= |y.invalid| + 1 && r.invalid[..|y.invalid|] == y.invalid
    ensures c in r.valid || r.invalid == y.invalid + [c]
  {
    match Get(y.table, c.generator)
    case None => y.(invalid := y.invalid + [c])
    case Some(b) =>
      var table := Put(y.table, c.generator, Put(b, c.configName, c));
      match Get(b, c.configName)
      case Some(prev) => Tally(RemoveFirst(y.valid, prev) + [c], y.invalid + [prev], table)
      case None => Tally(y.valid + [c], y.invalid, table)
  }

  /**
    * What one recorded entry does: an entry for an unknown generator lands on the invalid list and
    * nothing else moves; otherwise it is filed under its own pair, appended to the valid list, and
    * the entry it replaces (if any) goes to the invalid list; every other pair keeps its entry.
    */
  lemma RecordEffect(y: Tally, c: BuildConfig)
    ensures var z := Record(y, c);
      && Keys(z.table) == Keys(y.table)
      && (c.generator !in Keys(y.table) ==> z == y.(invalid := y.invalid + [c]))
      && (c.generator in Keys(y.table) ==>
            && Lookup(z.table, c.generator, c.configName) == Some(c)
            && |z.valid| > 0 && z.valid[|z.valid| - 1] == c
            && z.invalid == y.invalid + match Lookup(y.table, c.generator, c.configName)
                                        case Some(prev) => [prev]
                                        case None => [])
      && forall g, k :: (g, k) != KeyOf(c) ==> Lookup(z.table, g, k) == Lookup(y.table, g, k)
  {
    if Get(y.table, c.generator).Some? {
      var b := Get(y.table, c.generator).value;
      PutKeys(y.table, c.generator, Put(b, c.configName, c));
    }
  }

  /** The table of known generators, each with no configurations yet, in listing order. */
  function InitialIndex(generators: seq<string>): (t: Index)
    ensures forall g :: g in Keys(t) <==> g in generators
    ensures forall g :: g in Keys(t) ==> Get(t, g) == Some([])
  {
    if generators == [] then []
    else
      var t := InitialIndex(generators[..|generators| - 1]);
      var g := generators[|generators| - 1];
      PutKeys(t, g, []);
      assert forall x :: x in generators <==> x in generators[..|generators| - 1] || x == g;
      Put(t, g, [])
  }

  // ---------------------------------------------------------------- the line scan

  /**
    * The scan state after some lines: the landmark insertion point, the run bounds and the last
    * matched line of the run (each "unset" while equal to the line count), whether the landmark
    * comment has been seen, and the tally.
    */
  datatype Scan = Scan(afterComment: nat, cfgStart: nat, cfgEnd: nat, lastCfg: nat, sawComment: bool, tally: Tally)

  predicate Matches(line: string) {
    FromMakefile(line, 0).Some?
  }

  /** One iteration of the line loop over line number idx of n lines. */
  function ScanStep(n: nat, s: Scan, idx: nat, line: string): (r: Scan)
    ensures IsBlank(line) ==> r.cfgStart == s.cfgStart && r.cfgEnd == s.cfgEnd && r.tally == s.tally
    ensures s.cfgStart < n ==> r.cfgStart == s.cfgStart
    ensures s.cfgEnd < n ==> r.cfgEnd == s.cfgEnd && r.tally == s.tally
  {
    if IsBlank(line) then
      if s.sawComment && s.afterComment == n then s.(afterComment := idx) else s
    else
      var saw := s.sawComment || StartsWith(line, Landmark);
      var ac := if saw && s.afterComment == n && !StartsWith(Strip(line), "#") then idx else s.afterComment;
      var config := FromMakefile(line, idx);
      var start := if s.cfgStart == n && config.Some? then idx else s.cfgStart;
      var filing := s.cfgEnd == n && config.Some?;
      var tally := if filing then Record(s.tally, config.value) else s.tally;
      var last := if filing then idx else s.lastCfg;
      var end := if start < n && s.cfgEnd == n && config.None? then last + 1 else s.cfgEnd;
      Scan(ac, start, end, last, saw, tally)
  }

  /** The tally before any line: both lists empty, and every known generator with an empty bucket. */
  function StartTally(generators: seq<string>): Tally {
    Tally([], [], InitialIndex(generators))
  }

  /** The scan state before any line: nothing set, and the starting tally. */
  function StartScan(n: nat, generators: seq<string>): Scan {
    Scan(n, n, n, n, false, StartTally(generators))
  }

  /** The scan after the first i lines, starting from s0. */
  function ScanFrom(lines: seq<string>, s0: Scan, i: nat): Scan
    requires i <= |lines|
  {
    if i == 0 then s0 else ScanStep(|lines|, ScanFrom(lines, s0, i - 1), i - 1, lines[i - 1])
  }

  /** The scan after the first i lines. */
  function ScanPrefix(lines: seq<string>, generators: seq<string>, i: nat): Scan
    requires i <= |lines|
  {
    ScanFrom(lines, StartScan(|lines|, generators), i)
  }

  /** The default entry BuildConfig(gen, '', '') a generator without lines receives. */
  function DefaultEntry(g: string): BuildConfig {
    BuildConfig(g, "", "", None, -1)
  }

  /** A generator with an empty bucket gets its default, both in the table and on the valid list. */
  function AddDefault(y: Tally, g: string): Tally {
    match Get(y.table, g)
    case Some(b) =>
      if b != [] then y
      else Tally(y.valid + [DefaultEntry(g)], y.invalid, Put(y.table, g, Put(b, "", DefaultEntry(g))))
    case None => y
  }

  /** AddDefault for each generator of gs, in order. */
  function AddDefaults(y: Tally, gs: seq<string>): (r: Tally)
    ensures r.invalid == y.invalid
    ensures |y.valid| <= |r.valid| && r.valid[..|y.valid|] == y.valid
  {
    if gs == [] then y else AddDefault(AddDefaults(y, gs[..|gs| - 1]), gs[|gs| - 1])
  }

  /** The defaultdict _index rebuilt from the valid list: each entry filed under its own pair, later ones winning. */
  function Reindex(cs: seq<BuildConfig>): (r: Index)
    ensures forall c :: c in cs ==> Get(r, c.generator).Some?
  {
    if cs == [] then []
    else
      var t := Reindex(cs[..|cs| - 1]);
      var c := cs[|cs| - 1];
      Put(t, c.generator, Put(Get(t, c.generator).GetOr([]), c.configName, c))
  }

  /** The fields _parse_makefile assigns and the two lists it returns. */
  datatype Layout = Layout(afterComment: nat, cfgStart: nat, cfgEnd: nat, index: Index,
                           valid: seq<BuildConfig>, invalid: seq<BuildConfig>)

  /** ProjectMakefile._parse_makefile: the scan over all lines, the defaults, then the rebuilt index. */
  function Parse(lines: seq<string>, files: seq<string>): (r: Layout)
    ensures r.cfgStart <= r.cfgEnd <= |lines| && r.afterComment <= |lines|
  {
    var s := ScanPrefix(lines, GeneratorNames(files), |lines|);
    ScanBounds(lines, GeneratorNames(files));
    var y := AddDefaults(s.tally, Keys(s.tally.table));
    Layout(s.afterComment, s.cfgStart, s.cfgEnd, Reindex(y.valid), y.valid, y.invalid)
  }

  // ---------------------------------------------------------------- the run of configuration lines

  lemma MatchesAt(line: string, idx: int)
    ensures FromMakefile(line, idx).Some? == Matches(line)
  {
  }

  lemma BlankNoMatch(line: string)
    requires IsBlank(line)
    ensures !Matches(line)
  {
    if |line| >= |MakefileLine.CfgPrefix| {
      assert line[0] != MakefileLine.CfgPrefix[0];
    }
  }

  /** What the scan state says about the run of configuration lines among the first i lines. */
  ghost predicate RunInv(lines: seq<string>, i: nat, s: Scan)
    requires i <= |lines|
  {
    && s.afterComment <= |lines| && s.cfgStart <= |lines| && s.cfgEnd <= |lines| && s.lastCfg <= |lines|
    && NoRun(lines, i, s) && RunStarted(lines, i, s) && RunOpen(lines, i, s) && RunShut(lines, i, s)
  }

  /** Before the run: none of the first i lines matched. */
  ghost predicate NoRun(lines: seq<string>, i: nat, s: Scan)
    requires i <= |lines|
  {
    s.cfgStart == |lines| ==> s.cfgEnd == |lines| && s.lastCfg == |lines| && forall j :: 0 <= j < i ==> !Matches(lines[j])
  }

  /** The run starts at the first match, and lastCfg is its last match so far. */
  ghost predicate RunStarted(lines: seq<string>, i: nat, s: Scan)
    requires i <= |lines|
  {
    s.cfgStart < |lines| ==>
      && s.cfgStart <= s.lastCfg < i && Matches(lines[s.cfgStart]) && Matches(lines[s.lastCfg])
      && forall j :: 0 <= j < s.cfgStart ==> !Matches(lines[j])
  }

  /** While the run is open, it holds only matches and blank lines, and only blank lines follow its last match. */
  ghost predicate RunOpen(lines: seq<string>, i: nat, s: Scan)
    requires i <= |lines|
  {
    s.cfgStart < |lines| && s.cfgEnd == |lines| ==>
      && (forall j :: s.lastCfg < j < i ==> IsBlank(lines[j]))
      && forall j :: s.cfgStart <= j < i ==> Matches(lines[j]) || IsBlank(lines[j])
  }

  /** Once closed, the run ends just after its last match, and a later line closed it. */
  ghost predicate RunShut(lines: seq<string>, i: nat, s: Scan)
    requires i <= |lines|
  {
    s.cfgEnd < |lines| ==>
      && s.cfgStart < |lines| && s.cfgEnd == s.lastCfg + 1 && s.cfgEnd <= i
      && (forall j :: s.cfgStart <= j < s.cfgEnd ==> Matches(lines[j]) || IsBlank(lines[j]))
      && RunClosed(lines, s.cfgEnd, i)
  }

  /** A line that is neither blank nor a match closed the run, with only blank lines before it. */
  ghost predicate RunClosed(lines: seq<string>, end: nat, i: nat)
    requires i <= |lines|
  {
    exists c :: end <= c < i && !Matches(lines[c]) && !IsBlank(lines[c]) && forall j :: end <= j < c ==> IsBlank(lines[j])
  }

  /** The effect of one step on the run bounds and the tally. */
  ghost predicate StepEffect(n: nat, s: Scan, idx: nat, line: string, s': Scan) {
    && (!Matches(line) ==>
          && s'.tally == s.tally && s'.lastCfg == s.lastCfg && s'.cfgStart == s.cfgStart
          && s'.cfgEnd == if !IsBlank(line) && s.cfgStart < n && s.cfgEnd == n then s.lastCfg + 1 else s.cfgEnd)
    && (Matches(line) ==>
          && !IsBlank(line) && s'.cfgEnd == s.cfgEnd
          && s'.cfgStart == (if s.cfgStart == n then idx else s.cfgStart)
          && s'.lastCfg == (if s.cfgEnd == n then idx else s.lastCfg)
          && s'.tally == if s.cfgEnd == n then Record(s.tally, FromMakefile(line, idx).value) else s.tally)
  }

  lemma StepShape(n: nat, s: Scan, idx: nat, line: string)
    ensures StepEffect(n, s, idx, line, ScanStep(n, s, idx, line))
  {
    MatchesAt(line, idx);
    if IsBlank(line) {
      BlankNoMatch(line);
    }
  }

  /** A closed run stays closed as lines are added. */
  lemma RunClosedGrows(lines: seq<string>, end: nat, i: nat)
    requires i < |lines| && RunClosed(lines, end, i)
    ensures RunClosed(lines, end, i + 1)
  {
    var c :| end <= c < i && !Matches(lines[c]) && !IsBlank(lines[c]) && forall j :: end <= j < c ==> IsBlank(lines[j]);
    assert end <= c < i + 1;
  }

  lemma NoRunSkips(lines: seq<string>, i: nat, s: Scan, s': Scan)
    requires i < |lines| && NoRun(lines, i, s) && !Matches(lines[i])
    requires s'.cfgStart == s.cfgStart && s'.cfgEnd == s.cfgEnd && s'.lastCfg == s.lastCfg
    ensures NoRun(lines, i + 1, s')
  {
    if s.cfgStart == |lines| {
      forall j | 0 <= j < i + 1 ensures !Matches(lines[j]) {
        if j < i {
          assert 0 <= j < i;
        }
      }
    }
  }

  lemma RunOpenBlank(lines: seq<string>, i: nat, s: Scan, s': Scan)
    requires i < |lines| && RunOpen(lines, i, s) && IsBlank(lines[i])
    requires s'.cfgStart == s.cfgStart && s'.cfgEnd == s.cfgEnd && s'.lastCfg == s.lastCfg
    ensures RunOpen(lines, i + 1, s')
  {
    if s.cfgStart < |lines| && s.cfgEnd == |lines| {
      forall j | s.lastCfg < j < i + 1 ensures IsBlank(lines[j]) {
        if j < i {
          assert s.lastCfg < j < i;
        }
      }
      forall j | s.cfgStart <= j < i + 1 ensures Matches(lines[j]) || IsBlank(lines[j]) {
        if j < i {
          assert s.cfgStart <= j < i;
        }
      }
    }
  }

  lemma RunShutGrows(lines: seq<string>, i: nat, s: Scan, s': Scan)
    requires i < |lines| && RunShut(lines, i, s)
    requires s'.cfgStart == s.cfgStart && s'.cfgEnd == s.cfgEnd && s'.lastCfg == s.lastCfg
    ensures RunShut(lines, i + 1, s')
  {
    if s.cfgEnd < |lines| {
      RunClosedGrows(lines, s.cfgEnd, i);
    }
  }

  /** A blank line leaves the run where it was. */
  lemma RunBlank(lines: seq<string>, i: nat, s: Scan, s': Scan)
    requires i < |lines| && RunInv(lines, i, s) && IsBlank(lines[i]) && !Matches(lines[i])
    requires s'.cfgStart == s.cfgStart && s'.cfgEnd == s.cfgEnd && s'.lastCfg == s.lastCfg
    requires s'.afterComment <= |lines|
    ensures RunInv(lines, i + 1, s')
  {
    NoRunSkips(lines, i, s, s');
    RunOpenBlank(lines, i, s, s');
    RunShutGrows(lines, i, s, s');
  }

  /** A line that is neither blank nor a match closes an open run just after its last match. */
  lemma RunCloses(lines: seq<string>, i: nat, s: Scan, s': Scan)
    requires i < |lines| && RunStarted(lines, i, s) && RunOpen(lines, i, s) && !IsBlank(lines[i]) && !Matches(lines[i])
    requires s.cfgStart < |lines| && s.cfgEnd == |lines|
    requires s'.cfgStart == s.cfgStart && s'.lastCfg == s.lastCfg && s'.cfgEnd == s.lastCfg + 1
    ensures RunShut(lines, i + 1, s')
  {
    assert RunClosed(lines, s.lastCfg + 1, i + 1);
  }

  /** A line that is neither blank nor a match closes an open run. */
  lemma RunOther(lines: seq<string>, i: nat, s: Scan, s': Scan)
    requires i < |lines| && RunInv(lines, i, s) && !IsBlank(lines[i]) && !Matches(lines[i])
    requires s'.cfgStart == s.cfgStart && s'.lastCfg == s.lastCfg && s'.afterComment <= |lines|
    requires s'.cfgEnd == if s.cfgStart < |lines| && s.cfgEnd == |lines| then s.lastCfg + 1 else s.cfgEnd
    ensures RunInv(lines, i + 1, s')
  {
    var n := |lines|;
    if s.cfgStart < n && s.cfgEnd == n {
      RunCloses(lines, i, s, s');
    } else {
      NoRunSkips(lines, i, s, s');
      RunShutGrows(lines, i, s, s');
    }
  }

  /** The first match opens the run. */
  lemma RunOpens(lines: seq<string>, i: nat, s: Scan, s': Scan)
    requires i < |lines| && NoRun(lines, i, s) && Matches(lines[i]) && s.cfgStart == |lines|
    requires s'.cfgStart == i && s'.cfgEnd == |lines| && s'.lastCfg == i
    ensures RunStarted(lines, i + 1, s') && RunOpen(lines, i + 1, s')
  {
    forall j | i <= j < i + 1 ensures Matches(lines[j]) {
      assert j == i;
    }
  }

  /** A match extends an open run. */
  lemma RunExtends(lines: seq<string>, i: nat, s: Scan, s': Scan)
    requires i < |lines| && RunStarted(lines, i, s) && RunOpen(lines, i, s) && Matches(lines[i])
    requires s.cfgStart < |lines| && s.cfgEnd == |lines|
    requires s'.cfgStart == s.cfgStart && s'.cfgEnd == |lines| && s'.lastCfg == i
    ensures RunStarted(lines, i + 1, s') && RunOpen(lines, i + 1, s')
  {
    forall j | s.cfgStart <= j < i + 1 ensures Matches(lines[j]) || IsBlank(lines[j]) {
      if j < i {
        assert s.cfgStart <= j < i;
      } else {
        assert j == i;
      }
    }
  }

  /** A match opens the run, or extends it while it is still open. */
  lemma RunMatch(lines: seq<string>, i: nat, s: Scan, s': Scan)
    requires i < |lines| && RunInv(lines, i, s) && Matches(lines[i])
    requires s'.cfgStart == (if s.cfgStart == |lines| then i else s.cfgStart) && s'.cfgEnd == s.cfgEnd
    requires s'.lastCfg == (if s.cfgEnd == |lines| then i else s.lastCfg) && s'.afterComment <= |lines|
    ensures RunInv(lines, i + 1, s')
  {
    var n := |lines|;
    if s.cfgStart == n {
      RunOpens(lines, i, s, s');
    } else if s.cfgEnd == n {
      RunExtends(lines, i, s, s');
    } else {
      RunShutGrows(lines, i, s, s');
    }
  }

  lemma StepRun(lines: seq<string>, i: nat, s: Scan, s': Scan)
    requires i < |lines| && RunInv(lines, i, s) && s' == ScanStep(|lines|, s, i, lines[i])
    ensures RunInv(lines, i + 1, s')
  {
    var line := lines[i];
    StepShape(|lines|, s, i, line);
    if IsBlank(line) {
      BlankNoMatch(line);
      RunBlank(lines, i, s, s');
    } else if !Matches(line) {
      RunOther(lines, i, s, s');
    } else {
      RunMatch(lines, i, s, s');
    }
  }

  lemma {:induction false} ScanRun(lines: seq<string>, generators: seq<string>, i: nat)
    requires i <= |lines|
    ensures RunInv(lines, i, ScanPrefix(lines, generators, i))
  {
    if i > 0 {
      ScanRun(lines, generators, i - 1);
      PrefixRun(lines, generators, i);
    }
  }

  lemma PrefixRun(lines: seq<string>, generators: seq<string>, i: nat)
    requires 0 < i <= |lines| && RunInv(lines, i - 1, ScanPrefix(lines, generators, i - 1))
    ensures RunInv(lines, i, ScanPrefix(lines, generators, i))
  {
    StepRun(lines, i - 1, ScanPrefix(lines, generators, i - 1), ScanPrefix(lines, generators, i));
  }

  /**
    * The run [start, end) of a parse: it starts at the first configuration line (or is unset when
    * no line is one), holds only configuration and blank lines, and when closed it ends just after
    * a configuration line and the first later line that is neither blank nor one closed it.
    */
  ghost predicate RunFound(lines: seq<string>, start: nat, end: nat) {
    var n := |lines|;
    && start <= end <= n
    && (forall j :: 0 <= j < start ==> !Matches(lines[j]))
    && (start < n ==> Matches(lines[start]))
    && (start == n ==> end == n)
    && (forall j :: start <= j < end ==> Matches(lines[j]) || IsBlank(lines[j]))
    && (end < n ==> start < end && Matches(lines[end - 1]) && RunClosed(lines, end, n))
  }

  /** The run the parse finds is the first run of configuration lines, closed as the loop closes it. */
  lemma ParseRun(lines: seq<string>, files: seq<string>)
    ensures RunFound(lines, Parse(lines, files).cfgStart, Parse(lines, files).cfgEnd)
  {
    var s := ScanPrefix(lines, GeneratorNames(files), |lines|);
    ScanRun(lines, GeneratorNames(files), |lines|);
    FinalRun(lines, s);
    assert Parse(lines, files).cfgStart == s.cfgStart && Parse(lines, files).cfgEnd == s.cfgEnd;
  }

  /** The run facts once every line is scanned. */
  lemma FinalRun(lines: seq<string>, s: Scan)
    requires RunInv(lines, |lines|, s)
    ensures RunFound(lines, s.cfgStart, s.cfgEnd)
  {
    var n := |lines|;
    if s.cfgStart == n {
      forall j | 0 <= j < s.cfgStart ensures !Matches(lines[j]) {
        assert 0 <= j < n;
      }
    }
  }

  /** The scan over all lines leaves its positions within the lines, the run start before its end. */
  lemma ScanBounds(lines: seq<string>, generators: seq<string>)
    ensures var s := ScanPrefix(lines, generators, |lines|);
      s.cfgStart <= s.cfgEnd <= |lines| && s.afterComment <= |lines|
  {
    ScanRun(lines, generators, |lines|);
  }

  // ---------------------------------------------------------------- every known generator is indexed

  /** Every entry of the table is filed under its own generator. */
  ghost predicate Filed(t: Index) {
    forall g, k :: Lookup(t, g, k).Some? ==> Lookup(t, g, k).value.generator == g
  }

  /** A generator whose bucket holds something has an entry on the valid list. */
  ghost predicate Covered(y: Tally) {
    forall g :: g in Keys(y.table) && Get(y.table, g).value != [] ==> exists v :: v in y.valid && v.generator == g
  }

  lemma RecordCovered(y: Tally, c: BuildConfig)
    requires Filed(y.table) && Covered(y)
    ensures Filed(Record(y, c).table) && Covered(Record(y, c))
  {
    RecordEffect(y, c);
    var z := Record(y, c);
    if Get(y.table, c.generator).Some? {
      var b := Get(y.table, c.generator).value;
      assert c in z.valid;
      forall g | g in Keys(z.table) && Get(z.table, g).value != [] ensures exists v :: v in z.valid && v.generator == g {
        if g != c.generator {
          assert Get(z.table, g) == Get(y.table, g);
          var v :| v in y.valid && v.generator == g;
          if Get(b, c.configName).Some? {
            assert Lookup(y.table, c.generator, c.configName) == Get(b, c.configName);
            assert v != Get(b, c.configName).value;
          }
          assert v in z.valid;
        }
      }
    }
  }

  /** The tally invariant of the scan: entries are filed under their own generator, every non-empty bucket is covered, and the table keeps its keys. */
  ghost predicate ScanSound(y: Tally, keys: seq<string>) {
    Filed(y.table) && Covered(y) && Keys(y.table) == keys
  }

  /** The scan from line i to the end, starting in state s. */
  function ScanRest(lines: seq<string>, s: Scan, i: nat): Scan
    requires i <= |lines|
    decreases |lines| - i
  {
    if i == |lines| then s else ScanRest(lines, ScanStep(|lines|, s, i, lines[i]), i + 1)
  }

  /** Scanning the first i lines and then the rest is scanning all of them. */
  lemma {:induction false} ScanSplit(lines: seq<string>, s0: Scan, i: nat)
    requires i <= |lines|
    ensures ScanRest(lines, ScanFrom(lines, s0, i), i) == ScanFrom(lines, s0, |lines|)
    decreases |lines| - i
  {
    if i < |lines| {
      ScanSplit(lines, s0, i + 1);
    }
  }

  lemma {:induction false} ScanCovered(lines: seq<string>, s: Scan, keys: seq<string>, i: nat)
    requires i <= |lines| && ScanSound(s.tally, keys)
    ensures ScanSound(ScanRest(lines, s, i).tally, keys)
    decreases |lines| - i
  {
    if i < |lines| {
      StepCovered(|lines|, s, i, lines[i], keys);
      ScanCovered(lines, ScanStep(|lines|, s, i, lines[i]), keys, i + 1);
    }
  }

  /** The scan starts sound: every bucket is empty. */
  lemma StartSound(n: nat, generators: seq<string>)
    ensures ScanSound(StartScan(n, generators).tally, Keys(InitialIndex(generators)))
  {
    var t := StartScan(n, generators).tally.table;
    forall g, k ensures Lookup(t, g, k) == None {
      if Get(t, g).Some? {
        assert Get(t, g) == Some([]);
      }
    }
  }

  lemma StepCovered(n: nat, s: Scan, idx: nat, line: string, keys: seq<string>)
    requires ScanSound(s.tally, keys)
    ensures ScanSound(ScanStep(n, s, idx, line).tally, keys)
  {
    StepTally(n, s, idx, line);
    CoveredStep(s.tally, Filing(n, s, idx, line), keys);
  }

  /** The entry one step files, if any. */
  function Filing(n: nat, s: Scan, idx: nat, line: string): Option<BuildConfig> {
    if !IsBlank(line) && s.cfgEnd == n then FromMakefile(line, idx) else None
  }

  /** One step records the entry it files and leaves the tally alone otherwise. */
  lemma StepTally(n: nat, s: Scan, idx: nat, line: string)
    ensures var c := Filing(n, s, idx, line);
      ScanStep(n, s, idx, line).tally == if c.Some? then Record(s.tally, c.value) else s.tally
  {
  }

  lemma CoveredStep(y: Tally, c: Option<BuildConfig>, keys: seq<string>)
    requires ScanSound(y, keys)
    ensures ScanSound(if c.Some? then Record(y, c.value) else y, keys)
  {
    if c.Some? {
      RecordCovered(y, c.value);
      RecordEffect(y, c.value);
    }
  }

  lemma DefaultCovered(y: Tally, g: string)
    requires Filed(y.table) && Covered(y)
    ensures var z := AddDefault(y, g);
      && Filed(z.table) && Covered(z) && Keys(z.table) == Keys(y.table)
      && (g in Keys(y.table) ==> Get(z.table, g).value != [])
      && forall h :: h in Keys(y.table) && Get(y.table, h).value != [] ==> Get(z.table, h).value != []
  {
    match Get(y.table, g)
    case Some(b) =>
      if b == [] {
        var z := AddDefault(y, g);
        PutKeys(y.table, g, Put(b, "", DefaultEntry(g)));
        assert DefaultEntry(g) in z.valid;
        forall h, k | Lookup(z.table, h, k).Some? ensures Lookup(z.table, h, k).value.generator == h {
          if h != g {
            assert Lookup(z.table, h, k) == Lookup(y.table, h, k);
          }
        }
      }
    case None =>
  }

  lemma {:induction false} DefaultsCovered(y: Tally, gs: seq<string>)
    requires Filed(y.table) && Covered(y)
    ensures var z := AddDefaults(y, gs);
      && Filed(z.table) && Covered(z) && Keys(z.table) == Keys(y.table)
      && forall g :: g in gs && g in Keys(y.table) ==> Get(z.table, g).value != []
  {
    if gs != [] {
      var pre := gs[..|gs| - 1];
      DefaultsCovered(y, pre);
      DefaultCovered(AddDefaults(y, pre), gs[|gs| - 1]);
      assert forall g :: g in gs ==> g in pre || g == gs[|gs| - 1];
    }
  }

  /** The position of the last entry of cs filed under key, or -1. */
  function LastIndex(cs: seq<BuildConfig>, key: (string, string)): (r: int)
    ensures -1 <= r < |cs|
    ensures r >= 0 ==> KeyOf(cs[r]) == key
    ensures forall j :: r < j < |cs| ==> KeyOf(cs[j]) != key
  {
    if cs == [] then -1
    else if KeyOf(cs[|cs| - 1]) == key then |cs| - 1
    else LastIndex(cs[..|cs| - 1], key)
  }

  /** The rebuilt index files under each pair the last valid entry with that pair, and nothing else. */
  lemma {:induction false} ReindexLookup(cs: seq<BuildConfig>, g: string, k: string)
    ensures Lookup(Reindex(cs), g, k) == if LastIndex(cs, (g, k)) >= 0 then Some(cs[LastIndex(cs, (g, k))]) else None
  {
    if cs != [] {
      var pre := cs[..|cs| - 1];
      ReindexLookup(pre, g, k);
      var m := LastIndex(pre, (g, k));
      assert m >= 0 ==> cs[m] == pre[m];
    }
  }

  /**
    * After a parse every generator of the directory is a key of the index, so has_generator holds
    * for it, whether or not the lines configure it.
    */
  lemma ParseCovers(lines: seq<string>, files: seq<string>, g: string)
    requires g in GeneratorNames(files)
    ensures g in Keys(Parse(lines, files).index)
  {
    var names := GeneratorNames(files);
    var y := ScanPrefix(lines, names, |lines|).tally;
    StartSound(|lines|, names);
    ScanCovered(lines, StartScan(|lines|, names), Keys(InitialIndex(names)), 0);
    ScanSplit(lines, StartScan(|lines|, names), 0);
    DefaultsCovered(y, Keys(y.table));
    var z := AddDefaults(y, Keys(y.table));
    var v :| v in z.valid && v.generator == g;
  }

  // ---------------------------------------------------------------- the regenerated block

  /** A bucket holding only the default, with empty params, is left out of the Makefile. */
  predicate LoneDefault(b: Bucket) {
    |b| == 1 && Get(b, "").Some? && Get(b, "").value.params == ""
  }

  /** map(str, configs) */
  function Strs(cs: seq<BuildConfig>): (r: seq<string>)
    ensures |r| == |cs| && forall i :: 0 <= i < |cs| ==> r[i] == Str(cs[i])
    ensures LinesEnded(r)
  {
    seq(|cs|, i requires 0 <= i < |cs| => Str(cs[i]))
  }

  /** cfgs of _regenerate: in index order, str of every entry of each bucket that is not a lone default. */
  function Block(index: Index): (r: seq<string>)
    ensures LinesEnded(r)
  {
    if index == [] then []
    else
      var b := index[|index| - 1].1;
      var tail := if LoneDefault(b) then [] else Strs(Values(b));
      LinesEndedConcat(Block(index[..|index| - 1]), tail);
      Block(index[..|index| - 1]) + tail
  }

  /** Every line ends in a newline. */
  predicate LinesEnded(xs: seq<string>) {
    forall i :: 0 <= i < |xs| ==> |xs[i]| >= 1 && xs[i][|xs[i]| - 1] == '\n'
  }

  lemma LinesEndedConcat(a: seq<string>, b: seq<string>)
    requires LinesEnded(a) && LinesEnded(b)
    ensures LinesEnded(a + b)
  {
    forall i | 0 <= i < |a + b| ensures |(a + b)[i]| >= 1 && (a + b)[i][|(a + b)[i]| - 1] == '\n' {
      if i >= |a| {
        assert (a + b)[i] == b[i - |a|];
      }
    }
  }

  lemma BlockPrefix(index: Index, i: nat)
    requires i < |index|
    ensures Block(index[..i + 1]) == Block(index[..i]) + if LoneDefault(index[i].1) then [] else Strs(Values(index[i].1))
  {
    assert index[..i + 1][..i] == index[..i];
  }

  /** Entry j of bucket i is written out. */
  ghost predicate Emits(index: Index, i: int, j: int) {
    0 <= i < |index| && !LoneDefault(index[i].1) && 0 <= j < |index[i].1|
  }

  /** The block of an index with one more bucket: what came before, then that bucket's lines. */
  lemma BlockSnoc(index: Index)
    requires index != []
    ensures var b := index[|index| - 1].1;
      Block(index) == Block(index[..|index| - 1]) + if LoneDefault(b) then [] else Strs(Values(b))
  {
  }

  /** The block holds a line for each entry of each bucket that is not a lone default. */
  lemma {:induction false} BlockHas(index: Index, i: int, j: int)
    requires Emits(index, i, j)
    ensures Str(index[i].1[j].1) in Block(index)
  {
    var pre := index[..|index| - 1];
    BlockSnoc(index);
    if i < |index| - 1 {
      assert index[i] == pre[i];
      BlockHas(pre, i, j);
    } else {
      assert Strs(Values(index[i].1))[j] == Str(index[i].1[j].1);
    }
  }

  /** Every line of the block is the line of such an entry. */
  lemma {:induction false} BlockOnly(index: Index, l: string)
    requires l in Block(index)
    ensures exists i, j :: Emits(index, i, j) && l == Str(index[i].1[j].1)
  {
    var pre := index[..|index| - 1];
    var last := index[|index| - 1].1;
    BlockSnoc(index);
    if l in Block(pre) {
      BlockOnly(pre, l);
      var i, j :| Emits(pre, i, j) && l == Str(pre[i].1[j].1);
      assert index[i] == pre[i];
      assert Emits(index, i, j) && l == Str(index[i].1[j].1);
    } else {
      assert !LoneDefault(last);
      var tail := Strs(Values(last));
      assert l in tail;
      var j :| 0 <= j < |tail| && tail[j] == l;
      assert tail[j] == Str(last[j].1);
      assert Emits(index, |index| - 1, j) && l == Str(index[|index| - 1].1[j].1);
    }
  }

  // ---------------------------------------------------------------- state transitions

  /** The fields of a ProjectMakefile. */
  datatype Fields = Fields(lines: seq<string>, afterComment: nat, cfgStart: nat, cfgEnd: nat,
                           index: Index, gens: seq<BuildConfig>, invalid: seq<BuildConfig>)

  /** Where _regenerate puts the block: over the run, else at the landmark, else at the end. */
  function SpliceStart(f: Fields): (a: nat)
    ensures a <= |f.lines|
  {
    if f.cfgStart < |f.lines| then f.cfgStart
    else if f.afterComment < |f.lines| then f.afterComment
    else |f.lines|
  }

  /** Where the kept suffix starts: the end of the run, or the insertion point itself. */
  function SpliceEnd(f: Fields): nat {
    if f.cfgStart < |f.lines| then f.cfgEnd else SpliceStart(f)
  }

  /** prefix + cfgs + suffix, with Python's clamped slicing. */
  function Spliced(f: Fields, block: seq<string>): (r: seq<string>)
    ensures |r| == SpliceStart(f) + |block| + |Drop(f.lines, SpliceEnd(f))|
    ensures r[..SpliceStart(f)] == f.lines[..SpliceStart(f)]
    ensures r[SpliceStart(f)..SpliceStart(f) + |block|] == block
    ensures r[SpliceStart(f) + |block|..] == Drop(f.lines, SpliceEnd(f))
  {
    var pre := f.lines[..SpliceStart(f)];
    var r := pre + block + Drop(f.lines, SpliceEnd(f));
    assert r[..|pre|] == pre;
    assert r[|pre|..|pre| + |block|] == block;
    assert r[|pre| + |block|..] == Drop(f.lines, SpliceEnd(f));
    r
  }

  /** The object just made: the lines as read and every field the first parse gives. */
  function Opened(lines: seq<string>, files: seq<string>): Fields {
    var p := Parse(lines, files);
    Fields(lines, p.afterComment, p.cfgStart, p.cfgEnd, p.index, p.valid, p.invalid)
  }

  /** _parse_makefile called for its effect: bounds and index follow the lines, _gens and _invalid stay. */
  function Reparsed(f: Fields, files: seq<string>): Fields {
    var p := Parse(f.lines, files);
    f.(afterComment := p.afterComment, cfgStart := p.cfgStart, cfgEnd := p.cfgEnd, index := p.index)
  }

  /** _regenerate: splice the block of the index in, then parse the new lines. */
  function Regenerated(f: Fields, files: seq<string>): (r: Fields)
    ensures r.gens == f.gens && r.invalid == f.invalid
    ensures Sound(r, files)
  {
    ReparsedSound(f.(lines := Spliced(f, Block(f.index))), files);
    Reparsed(f.(lines := Spliced(f, Block(f.index))), files)
  }

  /**
    * What every parse leaves behind: a run inside the lines that does not end before it starts,
    * an insertion point inside the lines, and every generator of the directory in the index.
    */
  ghost predicate Sound(f: Fields, files: seq<string>) {
    && f.cfgStart <= f.cfgEnd <= |f.lines| && f.afterComment <= |f.lines|
    && forall g :: g in GeneratorNames(files) ==> g in Keys(f.index)
  }

  lemma ReparsedSound(f: Fields, files: seq<string>)
    ensures Sound(Reparsed(f, files), files) && Sound(Opened(f.lines, files), files)
  {
    forall g | g in GeneratorNames(files) ensures g in Keys(Parse(f.lines, files).index) {
      ParseCovers(f.lines, files, g);
    }
  }

  /**
    * _regenerate keeps the lines before the insertion point and after the replaced run, puts the
    * block in between, re-reads bounds and index from the new lines, and leaves the two lists
    * returned by the first parse as they were.
    */
  lemma RegeneratedFrame(f: Fields, files: seq<string>)
    ensures var r := Regenerated(f, files); var block := Block(f.index);
      && |r.lines| == SpliceStart(f) + |block| + |Drop(f.lines, SpliceEnd(f))|
      && r.lines[..SpliceStart(f)] == f.lines[..SpliceStart(f)]
      && r.lines[SpliceStart(f)..SpliceStart(f) + |block|] == block
      && r.lines[SpliceStart(f) + |block|..] == Drop(f.lines, SpliceEnd(f))
      && r.gens == f.gens && r.invalid == f.invalid
      && r.index == Parse(r.lines, files).index
      && Sound(r, files)
  {
    var spliced := f.(lines := Spliced(f, Block(f.index)));
    ReparsedSound(spliced, files);
  }

  /** add_generator: refuses a name the index has; otherwise files BuildConfig(name, '', '') under ''. */
  function AddGeneratorEdit(f: Fields, name: string): (r: (Fields, Option<ConfigError>))
    ensures r.1.Some? <==> name in Keys(f.index)
    ensures r.0.(index := f.index) == f
  {
    if name in Keys(f.index) then (f, Some(MakefileLine.GeneratorExists(name)))
    else (f.(index := Put(f.index, name, Put([], "", DefaultEntry(name)))), None)
  }

  /**
    * add_generator raises exactly when the generator is indexed; otherwise it makes it indexed
    * with only its default, changes no other generator and does not touch the lines.
    */
  lemma AddGeneratorEffect(f: Fields, name: string, files: seq<string>)
    requires Sound(f, files)
    ensures var (g, err) := AddGeneratorEdit(f, name);
      && (err.Some? <==> name in Keys(f.index))
      && (err.Some? ==> err == Some(MakefileLine.GeneratorExists(name)) && g == f)
      && (err.None? ==> Get(g.index, name) == Some([("", BuildConfig(name, "", "", None, -1))]))
      && g.(index := f.index) == f
      && Keys(g.index) == (if err.Some? then Keys(f.index) else Keys(f.index) + [name])
      && (forall other :: other != name ==> Get(g.index, other) == Get(f.index, other))
      && Sound(g, files)
  {
    PutKeys(f.index, name, Put([], "", DefaultEntry(name)));
  }

  /** add_configuration before its regenerate: a new (gen, name) pair is filed and appended to _gens. */
  function AddConfigurationEdit(f: Fields, gen: string, name: string, params: string): (r: Result<Fields, ConfigError>)
    ensures r.Err? <==> Lookup(f.index, gen, name).Some?
    ensures r.Ok? ==> r.value.(gens := f.gens, index := f.index) == f && |r.value.gens| == |f.gens| + 1
  {
    var b := Get(f.index, gen).GetOr([]);
    if name in Keys(b) then Err(MakefileLine.ConfigurationExists(gen, name))
    else
      var c := NewBuildConfig(Some(gen), Some(name), Some(params), None, -1);
      Ok(f.(gens := f.gens + [c], index := Put(f.index, gen, Put(b, name, c))))
  }

  /** The state after an edit that regenerates when it succeeds, and the error it raised otherwise. */
  function AfterEdit(f: Fields, edit: Result<Fields, ConfigError>, files: seq<string>): (Fields, Option<ConfigError>) {
    match edit
    case Err(e) => (f, Some(e))
    case Ok(g) => (Regenerated(g, files), None)
  }

  /**
    * add_configuration raises exactly when the pair is already indexed; otherwise, before it
    * regenerates, the new entry (gen, name, params) is filed under its pair (a generator the index
    * lacked is appended), appended to _gens, and every other pair keeps its entry.
    */
  lemma AddConfigurationEffect(f: Fields, gen: string, name: string, params: string)
    ensures var e := AddConfigurationEdit(f, gen, name, params);
      && (e.Err? <==> Lookup(f.index, gen, name).Some?)
      && (e.Err? ==> e.error == MakefileLine.ConfigurationExists(gen, name))
      && (e.Ok? ==>
            var g := e.value;
            var c := BuildConfig(gen, name, params, None, -1);
            && g.lines == f.lines && g.invalid == f.invalid && g.gens == f.gens + [c]
            && Lookup(g.index, gen, name) == Some(c)
            && Keys(g.index) == (if gen in Keys(f.index) then Keys(f.index) else Keys(f.index) + [gen])
            && forall h, k :: (h, k) != (gen, name) ==> Lookup(g.index, h, k) == Lookup(f.index, h, k))
  {
    var b := Get(f.index, gen).GetOr([]);
    if name in Keys(b) {
      assert Get(b, name).Some?;
    } else {
      var c := NewBuildConfig(Some(gen), Some(name), Some(params), None, -1);
      AddConfigurationEditOf(f, gen, name, params, b, c);
      PutKeys(f.index, gen, Put(b, name, c));
      FiledUnder(f.index, gen, name, c);
    }
  }

  /** Filing c under (gen, name) sets that pair's entry and leaves every other pair's entry alone. */
  lemma FiledUnder(t: Index, gen: string, name: string, c: BuildConfig)
    ensures var u := Put(t, gen, Put(Get(t, gen).GetOr([]), name, c));
      && Lookup(u, gen, name) == Some(c)
      && forall h, k :: (h, k) != (gen, name) ==> Lookup(u, h, k) == Lookup(t, h, k)
  {
    var b := Get(t, gen).GetOr([]);
    var u := Put(t, gen, Put(b, name, c));
    forall h, k | (h, k) != (gen, name) ensures Lookup(u, h, k) == Lookup(t, h, k) {
      if h == gen {
        assert Get(u, h) == Some(Put(b, name, c));
        assert Get(Put(b, name, c), k) == Get(b, k);
      }
    }
  }

  /** The success case of add_configuration, spelled out. */
  lemma AddConfigurationEditOf(f: Fields, gen: string, name: string, params: string, b: Bucket, c: BuildConfig)
    requires b == Get(f.index, gen).GetOr([]) && name !in Keys(b)
    requires c == NewBuildConfig(Some(gen), Some(name), Some(params), None, -1)
    ensures AddConfigurationEdit(f, gen, name, params) == Ok(f.(gens := f.gens + [c], index := Put(f.index, gen, Put(b, name, c))))
  {
  }

  /** The success case of add_configuration together with the regenerate that follows it. */
  lemma AddConfigurationRegenerates(f: Fields, gen: string, name: string, params: string, b: Bucket, c: BuildConfig,
                                    g: Fields, files: seq<string>)
    requires b == Get(f.index, gen).GetOr([]) && name !in Keys(b)
    requires c == NewBuildConfig(Some(gen), Some(name), Some(params), None, -1)
    requires g == f.(gens := f.gens + [c], index := Put(f.index, gen, Put(b, name, c)))
    ensures AfterEdit(f, AddConfigurationEdit(f, gen, name, params), files) == (Regenerated(g, files), None)
  {
    AddConfigurationEditOf(f, gen, name, params, b, c);
  }

  /** The new bucket is written out unless it is the lone default with empty params. */
  lemma AddedBucketShown(b: Bucket, name: string, c: BuildConfig)
    requires name !in Keys(b) && (b != [] || name != "" || c.params != "")
    ensures !LoneDefault(Put(b, name, c))
  {
    var nb := Put(b, name, c);
    PutKeys(b, name, c);
    if b == [] && |nb| == 1 {
      assert nb == [(name, c)];
    }
  }

  /** A line of the block is a line of the regenerated Makefile. */
  lemma BlockLineWritten(g: Fields, files: seq<string>, l: string)
    requires l in Block(g.index)
    ensures l in Regenerated(g, files).lines
  {
    RegeneratedFrame(g, files);
    SliceMember(Regenerated(g, files).lines, SpliceStart(g), Block(g.index), l);
  }

  lemma SliceMember(xs: seq<string>, a: nat, block: seq<string>, l: string)
    requires a + |block| <= |xs| && xs[a..a + |block|] == block && l in block
    ensures l in xs
  {
    var k :| 0 <= k < |block| && block[k] == l;
    assert xs[a + k] == xs[a..a + |block|][k];
  }

  /**
    * A configuration that was added is written into the Makefile by the regenerate that follows,
    * unless it is a default with empty params that is alone in a new bucket.
    */
  lemma AddConfigurationWrites(f: Fields, gen: string, name: string, params: string, files: seq<string>)
    requires Lookup(f.index, gen, name).None?
    requires Get(f.index, gen).GetOr([]) != [] || name != "" || params != ""
    ensures AddConfigurationEdit(f, gen, name, params).Ok?
    ensures Str(BuildConfig(gen, name, params, None, -1)) in AfterEdit(f, AddConfigurationEdit(f, gen, name, params), files).0.lines
  {
    var b := Get(f.index, gen).GetOr([]);
    var c := NewBuildConfig(Some(gen), Some(name), Some(params), None, -1);
    var nb := Put(b, name, c);
    var g := f.(gens := f.gens + [c], index := Put(f.index, gen, nb));
    assert name !in Keys(b);
    AddConfigurationRegenerates(f, gen, name, params, b, c, g, files);
    AddedBucketShown(b, name, c);
    EntryWritten(g, gen, nb, name, c, files);
  }

  /** An entry filed in a bucket that is not a lone default is written by the regenerate. */
  lemma EntryWritten(g: Fields, gen: string, nb: Bucket, name: string, c: BuildConfig, files: seq<string>)
    requires Get(g.index, gen) == Some(nb) && Get(nb, name) == Some(c) && !LoneDefault(nb)
    ensures Str(c) in Regenerated(g, files).lines
  {
    var i :| 0 <= i < |g.index| && g.index[i] == (gen, nb);
    var j :| 0 <= j < |nb| && nb[j] == (name, c);
    BlockHas(g.index, i, j);
    BlockLineWritten(g, files, Str(c));
  }

  // ---------------------------------------------------------------- the loops of _parse_makefile

  /** The glob loop: an empty bucket for each generator file, keyed by the name the file gives. */
  method NewTable(files: seq<string>) returns (t: Index)
    ensures t == InitialIndex(GeneratorNames(files))
  {
    t := [];
    for i := 0 to |files|
      invariant t == InitialIndex(GeneratorNames(files)[..i])
    {
      assert GeneratorNames(files)[..i + 1][..i] == GeneratorNames(files)[..i];
      var gen := GeneratorName(files[i]);
      t := Put(t, gen, []);
    }
    assert GeneratorNames(files)[..|files|] == GeneratorNames(files);
  }

  /** One matched line while the run is open, as the branch on the generator table does it. */
  method FileConfig(y: Tally, c: BuildConfig) returns (z: Tally)
    ensures z == Record(y, c)
  {
    var configurations, invalidConfigurations, generator2configs := y.valid, y.invalid, y.table;
    match Get(generator2configs, c.generator) {
      case None =>
        invalidConfigurations := invalidConfigurations + [c];
      case Some(b) =>
        match Get(b, c.configName) {
          case Some(oldConfig) =>
            configurations := RemoveFirst(configurations, oldConfig);
            invalidConfigurations := invalidConfigurations + [oldConfig];
          case None =>
        }
        generator2configs := Put(generator2configs, c.generator, Put(b, c.configName, c));
        configurations := configurations + [c];
    }
    z := Tally(configurations, invalidConfigurations, generator2configs);
  }

  /** The body of the line loop, on the loop's variables. */
  method ScanLine(n: nat, s: Scan, idx: nat, line: string) returns (r: Scan)
    ensures r == ScanStep(n, s, idx, line)
  {
    var ac, start, end, lastCfg, saw, tally := s.afterComment, s.cfgStart, s.cfgEnd, s.lastCfg, s.sawComment, s.tally;
    if IsBlank(line) {
      if saw && ac == n {
        ac := idx;
      }
      return s.(afterComment := ac);
    }
    if StartsWith(line, Landmark) {
      saw := true;
    }
    if saw && ac == n && !StartsWith(Strip(line), "#") {
      ac := idx;
    }
    var config := FromMakefile(line, idx);
    if start == n && config.Some? {
      start := idx;
    }
    if end == n && config.Some? {
      tally := FileConfig(tally, config.value);
      lastCfg := idx;
    }
    if start < n && end == n && config.None? {
      end := lastCfg + 1;
    }
    r := Scan(ac, start, end, lastCfg, saw, tally);
  }

  /** The line loop of _parse_makefile. */
  method ScanLines(lines: seq<string>, generators: seq<string>, table: Index) returns (s: Scan)
    requires table == InitialIndex(generators)
    ensures s == ScanPrefix(lines, generators, |lines|)
  {
    var n := |lines|;
    s := Scan(n, n, n, n, false, Tally([], [], table));
    for i := 0 to n
      invariant s == ScanPrefix(lines, generators, i)
    {
      s := ScanLine(n, s, i, lines[i]);
    }
  }

  /** The default loop: a generator with an empty bucket gets BuildConfig(gen, '', ''). */
  method FillDefaults(y: Tally, gens: seq<string>) returns (z: Tally)
    ensures z == AddDefaults(y, gens)
  {
    var configurations, generator2configs := y.valid, y.table;
    for j := 0 to |gens|
      invariant AddDefaults(y, gens[..j]) == Tally(configurations, y.invalid, generator2configs)
    {
      assert gens[..j + 1][..j] == gens[..j];
      var gen := gens[j];
      match Get(generator2configs, gen) {
        case Some(b) =>
          if b == [] {
            generator2configs := Put(generator2configs, gen, Put(b, "", DefaultEntry(gen)));
            configurations := configurations + [DefaultEntry(gen)];
          }
        case None =>
      }
    }
    assert gens[..|gens|] == gens;
    z := Tally(configurations, y.invalid, generator2configs);
  }

  /** The loop that rebuilds _index from the valid list. */
  method RebuildIndex(configurations: seq<BuildConfig>) returns (index: Index)
    ensures index == Reindex(configurations)
  {
    index := [];
    for i := 0 to |configurations|
      invariant index == Reindex(configurations[..i])
    {
      assert configurations[..i + 1][..i] == configurations[..i];
      var config := configurations[i];
      var b := Get(index, config.generator).GetOr([]);
      index := Put(index, config.generator, Put(b, config.configName, config));
    }
    assert configurations[..|configurations|] == configurations;
  }

  /** The cfgs loop of _regenerate. */
  method RenderBlock(index: Index) returns (cfgs: seq<string>)
    ensures cfgs == Block(index)
  {
    cfgs := [];
    for i := 0 to |index|
      invariant cfgs == Block(index[..i])
    {
      BlockPrefix(index, i);
      var genCfgs := index[i].1;
      if !(|genCfgs| == 1 && "" in Keys(genCfgs) && Get(genCfgs, "").value.params == "") {
        cfgs := cfgs + Strs(Values(genCfgs));
      }
    }
    assert index[..|index|] == index;
  }

  // ---------------------------------------------------------------- the ProjectMakefile object

  /**
    * A project's Makefile: its lines, the valid and invalid lists of the first parse, the index
    * of configurations by generator and name, and where the run and the landmark are. The
    * generator files the project directory holds are fixed when the object is made.
    */
  class ProjectMakefile {
    const generatorFiles: seq<string>
    var lines: seq<string>
    var gens: seq<BuildConfig>
    var invalid: seq<BuildConfig>
    var index: Index
    var afterComment: nat
    var cfgStart: nat
    var cfgEnd: nat

    function State(): Fields
      reads this
    {
      Fields(lines, afterComment, cfgStart, cfgEnd, index, gens, invalid)
    }

    ghost predicate Valid()
      reads this
    {
      Sound(State(), generatorFiles)
    }

    /** ProjectMakefile(project): read the lines, then keep the two lists the parse returns. */
    constructor (lines: seq<string>, generatorFiles: seq<string>)
      ensures this.generatorFiles == generatorFiles
      ensures State() == Opened(lines, generatorFiles) && Valid()
    {
      this.generatorFiles := generatorFiles;
      this.lines := lines;
      gens := [];
      invalid := [];
      index := [];
      afterComment := 0;
      cfgStart := 0;
      cfgEnd := 0;
      new;
      var configurations, invalidConfigurations := ParseMakefile();
      gens := configurations;
      invalid := invalidConfigurations;
      ReparsedSound(State(), generatorFiles);
    }

    /** lines() */
    function Lines(): seq<string>
      reads this
    {
      lines
    }

    /** get_generators: the lists the first parse returned, with the added configurations appended. */
    function GetGenerators(): (seq<BuildConfig>, seq<BuildConfig>)
      reads this
    {
      (gens, invalid)
    }

    /** has_generator */
    predicate HasGenerator(name: string)
      reads this
    {
      name in Keys(index)
    }

    /** _parse_makefile: assigns the bounds and the index; returns the valid and invalid lists. */
    method ParseMakefile() returns (configurations: seq<BuildConfig>, invalidConfigurations: seq<BuildConfig>)
      modifies this
      ensures State() == Reparsed(old(State()), generatorFiles)
      ensures configurations == Parse(lines, generatorFiles).valid
      ensures invalidConfigurations == Parse(lines, generatorFiles).invalid
    {
      var table := NewTable(generatorFiles);
      var s := ScanLines(lines, GeneratorNames(generatorFiles), table);
      var y := FillDefaults(s.tally, Keys(s.tally.table));
      index := RebuildIndex(y.valid);
      afterComment := s.afterComment;
      cfgStart := s.cfgStart;
      cfgEnd := s.cfgEnd;
      configurations := y.valid;
      invalidConfigurations := y.invalid;
    }

    /** _regenerate: the block replaces the run (or lands at the landmark, or at the end), then reparse. */
    method Regenerate()
      modifies this
      ensures State() == Regenerated(old(State()), generatorFiles) && Valid()
    {
      ghost var f := State();
      var start, end;
      if cfgStart < |lines| {
        start, end := cfgStart, cfgEnd;
      } else if afterComment < |lines| {
        start, end := afterComment, afterComment;
      } else {
        start, end := |lines|, |lines|;
      }
      var prefix := lines[..start];
      var suffix := Drop(lines, end);
      var cfgs := RenderBlock(index);
      lines := prefix + cfgs + suffix;
      ghost var g := f.(lines := Spliced(f, Block(f.index)));
      assert State() == g by {
        assert lines == Spliced(f, Block(f.index));
      }
      var _, _ := ParseMakefile();
      assert State() == Reparsed(g, generatorFiles) == Regenerated(f, generatorFiles);
    }

    /** add_generator: refuses an indexed name; files the default; does not regenerate. */
    method AddGenerator(name: string) returns (err: Option<ConfigError>)
      requires Valid()
      modifies this
      ensures (State(), err) == AddGeneratorEdit(old(State()), name) && Valid()
    {
      AddGeneratorEffect(State(), name, generatorFiles);
      if HasGenerator(name) {
        return Some(MakefileLine.GeneratorExists(name));
      }
      index := Put(index, name, Put([], "", BuildConfig(name, "", "", None, -1)));
      err := None;
    }

    /**
      * add_configuration: refuses an existing pair; appends and files the new entry, then
      * regenerates. Looking the generator up creates its bucket when it is new.
      */
    method AddConfiguration(gen: string, name: string, params: string) returns (err: Option<ConfigError>)
      requires Valid()
      modifies this
      ensures (State(), err) == AfterEdit(old(State()), AddConfigurationEdit(old(State()), gen, name, params), generatorFiles)
      ensures Valid()
    {
      ghost var f := State();
      var b := Get(index, gen).GetOr([]);
      if name in Keys(b) {
        return Some(MakefileLine.ConfigurationExists(gen, name));
      }
      var config := NewBuildConfig(Some(gen), Some(name), Some(params), None, -1);
      var filed := Put(index, gen, Put(b, name, config));
      ghost var edited := f.(gens := f.gens + [config], index := filed);
      gens, index := gens + [config], filed;
      assert State() == edited;
      Regenerate();
      err := None;
      AddConfigurationRegenerates(f, gen, name, params, b, config, edited, generatorFiles);
    }
  }
}
