/**
  * What ProjectMakefile._parse_makefile of src/project.py reads from the lines: the entries of
  * the run of configuration lines, recorded one after another, the default entries of the
  * generators no line names, and the index rebuilt from the valid list.
  */
module ProjectParse {
  import opened Wrappers
  import opened Text
  import opened Dicts
  import opened ProjectLine
  import opened ProjectStore

  // ---------------------------------------------------------------- the matched entries

  /** The entries of the matching lines among the first n, in order, each with its line number. */
  function MatchedConfigs(lines: seq<string>, n: nat): (cs: seq<BuildConfig>)
    requires n <= |lines|
    ensures |cs| <= n
  {
    if n == 0 then []
    else
      var line := lines[n - 1];
      MatchedConfigs(lines, n - 1) + if Matches(line) then [FromMakefile(line, n - 1).value] else []
  }

  /** Lines that do not match add no entries. */
  lemma {:induction false} MatchedSkip(lines: seq<string>, a: nat, b: nat)
    requires a <= b <= |lines| && forall j :: a <= j < b ==> !Matches(lines[j])
    ensures MatchedConfigs(lines, b) == MatchedConfigs(lines, a)
    decreases b
  {
    if a < b {
      MatchedSkip(lines, a, b - 1);
      assert MatchedConfigs(lines, b - 1) + [] == MatchedConfigs(lines, b - 1);
    }
  }

  /** The entries the parse records: those of the matching lines before the end of the run. */
  function RunEntries(lines: seq<string>, p: Layout): seq<BuildConfig>
    requires p.cfgEnd <= |lines|
  {
    MatchedConfigs(lines, p.cfgEnd)
  }

  // ---------------------------------------------------------------- recording entries in turn

  /** The entries of cs recorded one after another. */
  function Classify(y: Tally, cs: seq<BuildConfig>): (r: Tally)
    ensures |y.invalid| <= |r.invalid| <= |y.invalid| + |cs| && r.invalid[..|y.invalid|] == y.invalid
  {
    if cs == [] then y
    else
      var z := Classify(y, cs[..|cs| - 1]);
      var r := Record(z, cs[|cs| - 1]);
      assert r.invalid[..|y.invalid|] == r.invalid[..|z.invalid|][..|y.invalid|];
      r
  }

  lemma ClassifyNext(y: Tally, m: seq<BuildConfig>, c: BuildConfig)
    ensures Classify(y, m + [c]) == Record(Classify(y, m), c)
  {
    assert (m + [c])[..|m|] == m;
  }

  /** Classify records entry j on top of the ones before it. */
  lemma ClassifyAt(y: Tally, cs: seq<BuildConfig>, j: nat)
    requires j < |cs|
    ensures Classify(y, cs[..j + 1]) == Record(Classify(y, cs[..j]), cs[j])
  {
    assert cs[..j + 1][..j] == cs[..j];
  }

  /** Recording never adds or drops a generator of the table. */
  lemma {:induction false} ClassifyKeys(y: Tally, cs: seq<BuildConfig>)
    ensures Keys(Classify(y, cs).table) == Keys(y.table)
  {
    if cs != [] {
      ClassifyKeys(y, cs[..|cs| - 1]);
      RecordEffect(Classify(y, cs[..|cs| - 1]), cs[|cs| - 1]);
    }
  }

  /**
    * Later lines win: for a generator of the table, the entry filed under a pair is the last
    * recorded entry with that pair; pairs without a recorded entry keep what they had.
    */
  lemma {:induction false} ClassifyLookup(y: Tally, cs: seq<BuildConfig>, g: string, k: string)
    ensures Lookup(Classify(y, cs).table, g, k)
            == if g in Keys(y.table) && LastIndex(cs, (g, k)) >= 0 then Some(cs[LastIndex(cs, (g, k))])
               else Lookup(y.table, g, k)
  {
    if cs != [] {
      var pre := cs[..|cs| - 1];
      var c := cs[|cs| - 1];
      ClassifyLookup(y, pre, g, k);
      ClassifyKeys(y, pre);
      RecordEffect(Classify(y, pre), c);
      var m := LastIndex(pre, (g, k));
      assert m >= 0 ==> cs[m] == pre[m];
      if (g, k) != KeyOf(c) {
        assert LastIndex(cs, (g, k)) == m;
      }
    }
  }

  /** Entries on the invalid list stay there. */
  lemma {:induction false} InvalidGrows(y: Tally, cs: seq<BuildConfig>, j: nat)
    requires j <= |cs|
    ensures forall x :: x in Classify(y, cs[..j]).invalid ==> x in Classify(y, cs).invalid
    decreases |cs| - j
  {
    if j < |cs| {
      assert cs[..j] == cs[..|cs| - 1][..j];
      InvalidGrows(y, cs[..|cs| - 1], j);
      RecordEffect(Classify(y, cs[..|cs| - 1]), cs[|cs| - 1]);
    } else {
      assert cs[..j] == cs;
    }
  }

  /** A recorded entry for a generator that is not in the table goes to the invalid list. */
  lemma UnknownIsInvalid(y: Tally, cs: seq<BuildConfig>, i: nat)
    requires i < |cs| && cs[i].generator !in Keys(y.table)
    ensures cs[i] in Classify(y, cs).invalid
  {
    ClassifyKeys(y, cs[..i]);
    ClassifyAt(y, cs, i);
    RecordEffect(Classify(y, cs[..i]), cs[i]);
    InvalidGrows(y, cs, i + 1);
  }

  /** Recording c over an entry filed under the same pair moves that entry to the invalid list. */
  lemma RecordDemotes(z: Tally, c: BuildConfig, prev: BuildConfig)
    requires Lookup(z.table, c.generator, c.configName) == Some(prev)
    ensures Record(z, c).invalid == z.invalid + [prev]
  {
  }

  /**
    * A repeated (generator, name) pair demotes the earlier entry: when a later recorded entry has
    * the same pair and the generator is in the table, the earlier one ends on the invalid list.
    */
  lemma {:induction false} OverriddenIsInvalid(y: Tally, cs: seq<BuildConfig>, i: nat, j: nat)
    requires i < j < |cs| && KeyOf(cs[i]) == KeyOf(cs[j]) && cs[i].generator in Keys(y.table)
    ensures cs[i] in Classify(y, cs).invalid
    decreases j
  {
    var pre := cs[..j];
    var g, k := cs[j].generator, cs[j].configName;
    var m := LastIndex(pre, (g, k));
    assert pre[i] == cs[i] && KeyOf(pre[i]) == (g, k);
    if m == i {
      var z := Classify(y, pre);
      ClassifyLookup(y, pre, g, k);
      RecordDemotes(z, cs[j], cs[i]);
      ClassifyAt(y, cs, j);
      assert cs[i] in Classify(y, cs[..j + 1]).invalid;
      InvalidGrows(y, cs, j + 1);
    } else {
      assert pre[m] == cs[m];
      OverriddenIsInvalid(y, cs, i, m);
    }
  }

  // ---------------------------------------------------------------- the table agrees with the valid list

  /** The last entry of cs filed under key, if any. */
  function LastOf(cs: seq<BuildConfig>, key: (string, string)): (r: Option<BuildConfig>)
    ensures r.Some? ==> r.value in cs && KeyOf(r.value) == key
  {
    if LastIndex(cs, key) >= 0 then Some(cs[LastIndex(cs, key)]) else None
  }

  lemma LastOfSnoc(cs: seq<BuildConfig>, c: BuildConfig, key: (string, string))
    ensures LastOf(cs + [c], key) == if KeyOf(c) == key then Some(c) else LastOf(cs, key)
  {
    var m := LastIndex(cs, key);
    assert (cs + [c])[..|cs|] == cs;
    assert m >= 0 ==> (cs + [c])[m] == cs[m];
  }

  /** An entry in front only counts when no later entry has the key. */
  lemma {:induction false} LastOfCons(c: BuildConfig, cs: seq<BuildConfig>, key: (string, string))
    ensures LastOf([c] + cs, key)
            == if LastOf(cs, key).Some? then LastOf(cs, key) else if KeyOf(c) == key then Some(c) else None
    decreases |cs|
  {
    if cs == [] {
      assert [c] + cs == [] + [c];
      LastOfSnoc([], c, key);
    } else {
      var pre := cs[..|cs| - 1];
      var d := cs[|cs| - 1];
      assert [c] + cs == ([c] + pre) + [d];
      assert cs == pre + [d];
      LastOfSnoc([c] + pre, d, key);
      LastOfSnoc(pre, d, key);
      LastOfCons(c, pre, key);
    }
  }

  /** Removing an entry filed under another key leaves the last entry under key as it was. */
  lemma {:induction false} RemoveOther(cs: seq<BuildConfig>, x: BuildConfig, key: (string, string))
    requires KeyOf(x) != key
    ensures LastOf(RemoveFirst(cs, x), key) == LastOf(cs, key)
  {
    if cs != [] {
      assert cs == [cs[0]] + cs[1..];
      LastOfCons(cs[0], cs[1..], key);
      if cs[0] != x {
        RemoveOther(cs[1..], x, key);
        LastOfCons(cs[0], RemoveFirst(cs[1..], x), key);
      }
    }
  }

  /** Every pair's entry in the table is the last entry on the valid list with that pair. */
  ghost predicate Agrees(y: Tally) {
    forall g, k :: Lookup(y.table, g, k) == LastOf(y.valid, (g, k))
  }

  lemma StartAgrees(generators: seq<string>)
    ensures Agrees(StartTally(generators))
  {
    var t := StartTally(generators).table;
    forall g, k ensures Lookup(t, g, k) == None {
      if Get(t, g).Some? {
        assert Get(t, g) == Some([]);
      }
    }
  }

  lemma RecordAgrees(y: Tally, c: BuildConfig)
    requires Agrees(y)
    ensures Agrees(Record(y, c))
  {
    var z := Record(y, c);
    RecordEffect(y, c);
    if Get(y.table, c.generator).Some? {
      var prev := Lookup(y.table, c.generator, c.configName);
      var rest := if prev.Some? then RemoveFirst(y.valid, prev.value) else y.valid;
      assert z.valid == rest + [c];
      forall g, k ensures Lookup(z.table, g, k) == LastOf(z.valid, (g, k)) {
        LastOfSnoc(rest, c, (g, k));
        if (g, k) != KeyOf(c) && prev.Some? {
          assert LastOf(y.valid, KeyOf(c)) == prev;
          RemoveOther(y.valid, prev.value, (g, k));
        }
      }
    }
  }

  lemma {:induction false} ClassifyAgrees(y: Tally, cs: seq<BuildConfig>)
    requires Agrees(y)
    ensures Agrees(Classify(y, cs))
  {
    if cs != [] {
      ClassifyAgrees(y, cs[..|cs| - 1]);
      RecordAgrees(Classify(y, cs[..|cs| - 1]), cs[|cs| - 1]);
    }
  }

  /** Every recorded entry lands on exactly one of the two lists. */
  lemma {:induction false} ClassifyCount(y: Tally, cs: seq<BuildConfig>)
    requires Agrees(y)
    ensures |Classify(y, cs).valid| + |Classify(y, cs).invalid| == |y.valid| + |y.invalid| + |cs|
  {
    if cs != [] {
      var z := Classify(y, cs[..|cs| - 1]);
      var c := cs[|cs| - 1];
      ClassifyCount(y, cs[..|cs| - 1]);
      ClassifyAgrees(y, cs[..|cs| - 1]);
      var prev := Lookup(z.table, c.generator, c.configName);
      if Get(z.table, c.generator).Some? && prev.Some? {
        assert prev == LastOf(z.valid, KeyOf(c));
        assert prev.value in z.valid;
      }
    }
  }

  // ---------------------------------------------------------------- the defaults

  lemma DefaultAgrees(y: Tally, g: string)
    requires Agrees(y)
    ensures Agrees(AddDefault(y, g))
  {
    if Get(y.table, g) == Some([]) {
      var z := AddDefault(y, g);
      var d := DefaultEntry(g);
      forall h, k ensures Lookup(z.table, h, k) == LastOf(z.valid, (h, k)) {
        LastOfSnoc(y.valid, d, (h, k));
        if h == g {
          assert Get(z.table, g) == Some([("", d)]);
          assert Lookup(y.table, g, k) == None;
        }
      }
    }
  }

  lemma {:induction false} DefaultsAgree(y: Tally, gs: seq<string>)
    requires Agrees(y)
    ensures Agrees(AddDefaults(y, gs))
  {
    if gs != [] {
      DefaultsAgree(y, gs[..|gs| - 1]);
      DefaultAgrees(AddDefaults(y, gs[..|gs| - 1]), gs[|gs| - 1]);
    }
  }

  /**
    * After the defaults, the bucket of each generator of gs that had an empty one holds just its
    * default under the name ''; every other bucket and the invalid list are as they were.
    */
  lemma {:induction false} DefaultsBucket(y: Tally, gs: seq<string>, g: string)
    ensures Get(AddDefaults(y, gs).table, g)
            == if g in gs && Get(y.table, g) == Some([]) then Some([("", DefaultEntry(g))]) else Get(y.table, g)
    ensures AddDefaults(y, gs).invalid == y.invalid
  {
    if gs != [] {
      var pre := gs[..|gs| - 1];
      var h := gs[|gs| - 1];
      DefaultsBucket(y, pre, g);
      DefaultsBucket(y, pre, h);
      assert g in gs <==> g in pre || g == h;
    }
  }

  /** After the defaults, a lookup finds the default exactly where the bucket was empty. */
  lemma DefaultsLookup(t: Tally, g: string, k: string)
    ensures Lookup(AddDefaults(t, Keys(t.table)).table, g, k)
            == if Get(t.table, g) == Some([]) then (if k == "" then Some(DefaultEntry(g)) else None)
               else Lookup(t.table, g, k)
  {
    DefaultsBucket(t, Keys(t.table), g);
  }

  // ---------------------------------------------------------------- the scan records the run's entries

  /** Where the recorded part of the first i lines ends: i while the run is open, else the run's end. */
  function Classified(n: nat, i: nat, s: Scan): nat {
    if s.cfgEnd == n then i else s.cfgEnd
  }

  lemma TallyStep(lines: seq<string>, y0: Tally, i: nat, s: Scan, s': Scan)
    requires i < |lines| && Classified(|lines|, i, s) <= i
    requires s.cfgStart < |lines| && s.cfgEnd == |lines| ==>
               s.lastCfg < i && forall j :: s.lastCfg < j < i ==> IsBlank(lines[j])
    requires s.tally == Classify(y0, MatchedConfigs(lines, Classified(|lines|, i, s)))
    requires StepEffect(|lines|, s, i, lines[i], s')
    ensures Classified(|lines|, i + 1, s') <= i + 1
    ensures s'.tally == Classify(y0, MatchedConfigs(lines, Classified(|lines|, i + 1, s')))
  {
    var n, line := |lines|, lines[i];
    if Matches(line) {
      if s.cfgEnd == n {
        TallyRecords(lines, y0, i);
      }
    } else if s.cfgEnd == n {
      if !IsBlank(line) && s.cfgStart < n {
        TallyCloses(lines, i, s.lastCfg + 1);
      } else {
        TallySkips(lines, i);
      }
    }
  }

  /** A match is recorded on top of the entries of the lines before it. */
  lemma TallyRecords(lines: seq<string>, y0: Tally, i: nat)
    requires i < |lines| && Matches(lines[i])
    ensures Classify(y0, MatchedConfigs(lines, i + 1))
            == Record(Classify(y0, MatchedConfigs(lines, i)), FromMakefile(lines[i], i).value)
  {
    ClassifyNext(y0, MatchedConfigs(lines, i), FromMakefile(lines[i], i).value);
  }

  /** A line that does not match adds no entry. */
  lemma TallySkips(lines: seq<string>, i: nat)
    requires i < |lines| && !Matches(lines[i])
    ensures MatchedConfigs(lines, i + 1) == MatchedConfigs(lines, i)
  {
    assert MatchedConfigs(lines, i) + [] == MatchedConfigs(lines, i);
  }

  /** Blank lines after the last match add nothing, so the entries are those up to that match. */
  lemma TallyCloses(lines: seq<string>, i: nat, a: nat)
    requires a <= i < |lines| && forall j :: a <= j < i ==> IsBlank(lines[j])
    ensures MatchedConfigs(lines, i) == MatchedConfigs(lines, a)
  {
    forall j | a <= j < i ensures !Matches(lines[j]) {
      BlankNoMatch(lines[j]);
    }
    MatchedSkip(lines, a, i);
  }

  /** The tally of s records the matched entries of the lines classified after i lines. */
  ghost predicate TallyAt(lines: seq<string>, y0: Tally, i: nat, s: Scan)
    requires i <= |lines|
  {
    Classified(|lines|, i, s) <= i && s.tally == Classify(y0, MatchedConfigs(lines, Classified(|lines|, i, s)))
  }

  /** While the run is open, only blank lines follow its last match among the first i lines. */
  ghost predicate OpenBlank(lines: seq<string>, i: nat, s: Scan)
    requires i <= |lines|
  {
    s.cfgStart < |lines| && s.cfgEnd == |lines| ==> s.lastCfg < i && forall j :: s.lastCfg < j < i ==> IsBlank(lines[j])
  }

  lemma OpenTail(lines: seq<string>, generators: seq<string>, i: nat)
    requires i <= |lines|
    ensures OpenBlank(lines, i, ScanPrefix(lines, generators, i))
  {
    ScanRun(lines, generators, i);
  }

  /** One step of the scan keeps the tally equal to the recorded entries of the classified lines. */
  lemma ScanStepTally(lines: seq<string>, y0: Tally, i: nat, s: Scan)
    requires i < |lines| && TallyAt(lines, y0, i, s) && OpenBlank(lines, i, s)
    ensures TallyAt(lines, y0, i + 1, ScanStep(|lines|, s, i, lines[i]))
  {
    StepShape(|lines|, s, i, lines[i]);
    TallyStep(lines, y0, i, s, ScanStep(|lines|, s, i, lines[i]));
  }

  /** The tally after the first i lines records the matched entries of the lines classified so far. */
  lemma {:induction false} ScanTally(lines: seq<string>, generators: seq<string>, i: nat)
    requires i <= |lines|
    ensures TallyAt(lines, StartTally(generators), i, ScanPrefix(lines, generators, i))
  {
    if i > 0 {
      var s := ScanPrefix(lines, generators, i - 1);
      ScanTally(lines, generators, i - 1);
      OpenTail(lines, generators, i - 1);
      ScanStepTally(lines, StartTally(generators), i - 1, s);
      assert ScanPrefix(lines, generators, i) == ScanStep(|lines|, s, i - 1, lines[i - 1]);
    }
  }

  // ---------------------------------------------------------------- the landmark comment

  /** The landmark line is itself a comment line. */
  lemma LandmarkIsComment(line: string)
    requires StartsWith(line, Landmark)
    ensures !IsBlank(line) && StartsWith(Strip(line), "#")
  {
    assert line[0] == '#';
    var l := LStrip(line);
    assert l == line;
    RStripShape(l);
    assert !IsSpace(l[0]);
    assert RStrip(l)[0] == line[0];
  }

  /** The effect of one step on the landmark state. */
  lemma StepComment(n: nat, s: Scan, idx: nat, line: string)
    ensures var s' := ScanStep(n, s, idx, line);
      && s'.sawComment == (s.sawComment || (!IsBlank(line) && StartsWith(line, Landmark)))
      && s'.afterComment
         == if s.sawComment && s.afterComment == n && Opens(line) then idx
            else s.afterComment
  {
    if StartsWith(line, Landmark) {
      LandmarkIsComment(line);
    }
  }

  /**
    * What the scan state says about the landmark after i lines: before the first landmark comment
    * nothing is set; after it, the insertion point is unset until the first line that opens, and
    * then that line.
    */
  ghost predicate CommentInv(lines: seq<string>, i: nat, s: Scan)
    requires i <= |lines|
  {
    var n := |lines|;
    var until := if s.afterComment < n then s.afterComment else i;
    && s.afterComment <= n
    && (!s.sawComment ==> s.afterComment == n && forall j :: 0 <= j < i ==> !StartsWith(lines[j], Landmark))
    && (s.sawComment ==> exists l :: 0 <= l < until && FirstStarting(lines, Landmark, l) && QuietAfter(lines, l, until))
    && (s.afterComment < n ==> s.afterComment < i && Opens(lines[s.afterComment]))
  }

  lemma {:induction false} ScanComment(lines: seq<string>, generators: seq<string>, i: nat)
    requires i <= |lines|
    ensures CommentInv(lines, i, ScanPrefix(lines, generators, i))
  {
    if i > 0 {
      ScanComment(lines, generators, i - 1);
      PrefixComment(lines, generators, i);
    }
  }

  lemma PrefixComment(lines: seq<string>, generators: seq<string>, i: nat)
    requires 0 < i <= |lines| && CommentInv(lines, i - 1, ScanPrefix(lines, generators, i - 1))
    ensures CommentInv(lines, i, ScanPrefix(lines, generators, i))
  {
    var s := ScanPrefix(lines, generators, i - 1);
    StepComment(|lines|, s, i - 1, lines[i - 1]);
    CommentStep(lines, i, s, ScanPrefix(lines, generators, i));
  }

  /** One line keeps the landmark invariant, given only how the step changes the landmark state. */
  lemma CommentStep(lines: seq<string>, i: nat, s: Scan, s': Scan)
    requires 0 < i <= |lines| && CommentInv(lines, i - 1, s)
    requires s'.sawComment == (s.sawComment || (!IsBlank(lines[i - 1]) && StartsWith(lines[i - 1], Landmark)))
    requires s'.afterComment
             == if s.sawComment && s.afterComment == |lines| && Opens(lines[i - 1]) then i - 1 else s.afterComment
    ensures CommentInv(lines, i, s')
  {
    if s.sawComment {
      CommentLater(lines, i, s, s');
    } else {
      CommentBefore(lines, i, s, s');
    }
  }

  /** The step over a line before any landmark comment. */
  lemma CommentBefore(lines: seq<string>, i: nat, s: Scan, s': Scan)
    requires 0 < i <= |lines| && CommentInv(lines, i - 1, s) && !s.sawComment
    requires s'.sawComment == (!IsBlank(lines[i - 1]) && StartsWith(lines[i - 1], Landmark))
    requires s'.afterComment == s.afterComment
    ensures CommentInv(lines, i, s')
  {
    if StartsWith(lines[i - 1], Landmark) {
      LandmarkIsComment(lines[i - 1]);
      assert FirstStarting(lines, Landmark, i - 1);
      assert QuietAfter(lines, i - 1, i);
    }
  }

  /** The step over a line after the landmark comment. */
  lemma CommentLater(lines: seq<string>, i: nat, s: Scan, s': Scan)
    requires 0 < i <= |lines| && CommentInv(lines, i - 1, s) && s.sawComment && s'.sawComment
    requires s'.afterComment
             == if s.afterComment == |lines| && Opens(lines[i - 1]) then i - 1 else s.afterComment
    ensures CommentInv(lines, i, s')
  {
    if s.afterComment == |lines| && !Opens(lines[i - 1]) {
      var l :| 0 <= l < i - 1 && FirstStarting(lines, Landmark, l) && QuietAfter(lines, l, i - 1);
      assert QuietAfter(lines, l, i);
    }
  }

  /** A parse is the scan over all lines, the defaults, then the index rebuilt from the valid list. */
  lemma ParseParts(lines: seq<string>, files: seq<string>) returns (s: Scan)
    ensures s == ScanPrefix(lines, GeneratorNames(files), |lines|)
    ensures var p := Parse(lines, files); var z := AddDefaults(s.tally, Keys(s.tally.table));
      && p.afterComment == s.afterComment && p.cfgStart == s.cfgStart && p.cfgEnd == s.cfgEnd <= |lines|
      && s.tally == Classify(StartTally(GeneratorNames(files)), RunEntries(lines, p))
      && Keys(s.tally.table) == Keys(InitialIndex(GeneratorNames(files)))
      && Agrees(s.tally) && Agrees(z)
      && p.valid == z.valid && p.invalid == z.invalid && p.index == Reindex(z.valid)
  {
    var names := GeneratorNames(files);
    s := ScanPrefix(lines, names, |lines|);
    ScanTally(lines, names, |lines|);
    ScanRun(lines, names, |lines|);
    var block := MatchedConfigs(lines, s.cfgEnd);
    StartAgrees(names);
    ClassifyAgrees(StartTally(names), block);
    ClassifyKeys(StartTally(names), block);
    DefaultsAgree(s.tally, Keys(s.tally.table));
  }

  /** The rebuilt index finds what the table of an agreeing tally finds. */
  lemma IndexAgrees(z: Tally, g: string, k: string)
    requires Agrees(z)
    ensures Lookup(Reindex(z.valid), g, k) == Lookup(z.table, g, k)
  {
    ReindexLookup(z.valid, g, k);
  }

  /** A bucket in which no key is found is empty. */
  lemma NoKeysEmpty(b: Bucket)
    requires forall k :: Get(b, k).None?
    ensures b == []
  {
    if b != [] {
      assert Get(b, b[0].0).Some?;
    }
  }

  /** A generator of the directory that no entry names keeps its empty bucket. */
  lemma TallyNoEntries(generators: seq<string>, block: seq<BuildConfig>, g: string)
    requires g in generators && forall c :: c in block ==> c.generator != g
    ensures Get(Classify(StartTally(generators), block).table, g) == Some([])
  {
    var y := StartTally(generators);
    var z := Classify(y, block);
    ClassifyKeys(y, block);
    assert g in Keys(z.table);
    forall k ensures Get(Get(z.table, g).value, k).None? {
      ClassifyLookup(y, block, g, k);
      assert forall i :: 0 <= i < |block| ==> KeyOf(block[i]) != (g, k);
    }
    NoKeysEmpty(Get(z.table, g).value);
  }

  /** A generator of the directory that some entry names ends with a non-empty bucket. */
  lemma TallyHasEntry(generators: seq<string>, block: seq<BuildConfig>, i: nat)
    requires i < |block| && block[i].generator in generators
    ensures Get(Classify(StartTally(generators), block).table, block[i].generator) != Some([])
  {
    var key := KeyOf(block[i]);
    assert LastIndex(block, key) >= 0;
    ClassifyLookup(StartTally(generators), block, key.0, key.1);
  }

  /**
    * Before the defaults: for a generator of the directory, the lookup is the last entry with the
    * pair, and its bucket is empty exactly when no entry names it.
    */
  lemma TallyLastWins(generators: seq<string>, block: seq<BuildConfig>, g: string, k: string)
    requires g in generators
    ensures var t := Classify(StartTally(generators), block);
      var m := LastIndex(block, (g, k));
      && Lookup(t.table, g, k) == (if m >= 0 then Some(block[m]) else None)
      && (Get(t.table, g) == Some([]) <==> forall c :: c in block ==> c.generator != g)
  {
    ClassifyLookup(StartTally(generators), block, g, k);
    if forall c :: c in block ==> c.generator != g {
      TallyNoEntries(generators, block, g);
    } else {
      var c :| c in block && c.generator == g;
      var i :| 0 <= i < |block| && block[i] == c;
      TallyHasEntry(generators, block, i);
    }
  }

  /** The landmark facts of the state after the last line. */
  lemma ScanLandmark(lines: seq<string>, generators: seq<string>)
    ensures var ac := ScanPrefix(lines, generators, |lines|).afterComment;
      && ac <= |lines|
      && (ac < |lines| ==>
            && Opens(lines[ac])
            && exists l :: 0 <= l < ac && FirstStarting(lines, Landmark, l) && QuietAfter(lines, l, ac))
      && (ac == |lines| ==>
            forall l :: 0 <= l < |lines| && StartsWith(lines[l], Landmark) ==> QuietAfter(lines, l, |lines|))
  {
    var n := |lines|;
    var s := ScanPrefix(lines, generators, n);
    ScanComment(lines, generators, n);
    if s.afterComment == n && s.sawComment {
      var l0 :| 0 <= l0 < n && FirstStarting(lines, Landmark, l0) && QuietAfter(lines, l0, n);
      forall l | 0 <= l < n && StartsWith(lines[l], Landmark) ensures QuietAfter(lines, l, n) {
        assert l >= l0;
      }
    }
  }

  /**
    * The landmark insertion point: when set, it is the first line that opens after the first
    * "# Configure generators" line; when unset, no line opens after any landmark line.
    */
  lemma ParseLandmark(lines: seq<string>, files: seq<string>)
    ensures var p := Parse(lines, files); var ac := p.afterComment;
      && ac <= |lines|
      && (ac < |lines| ==>
            && Opens(lines[ac])
            && exists l :: 0 <= l < ac && FirstStarting(lines, Landmark, l) && QuietAfter(lines, l, ac))
      && (ac == |lines| ==>
            forall l :: 0 <= l < |lines| && StartsWith(lines[l], Landmark) ==> QuietAfter(lines, l, |lines|))
  {
    var s := ParseParts(lines, files);
    ScanLandmark(lines, GeneratorNames(files));
  }

  /**
    * Later lines win: for a generator of the directory, the index files under (gen, name) the
    * entry of the last matching line of the run with that pair; with no such line, only the
    * default (gen, '', '') of a generator that no line of the run names is there; a generator
    * outside the directory has nothing.
    */
  lemma ParseLastWins(lines: seq<string>, files: seq<string>, g: string, k: string)
    ensures var p := Parse(lines, files);
      var block := RunEntries(lines, p);
      var m := LastIndex(block, (g, k));
      Lookup(p.index, g, k)
        == if g !in GeneratorNames(files) then None
           else if m >= 0 then Some(block[m])
           else if k == "" && forall c :: c in block ==> c.generator != g then Some(DefaultEntry(g))
           else None
  {
    var names := GeneratorNames(files);
    var s := ParseParts(lines, files);
    var p := Parse(lines, files);
    var block := RunEntries(lines, p);
    IndexAgrees(AddDefaults(s.tally, Keys(s.tally.table)), g, k);
    DefaultsLookup(s.tally, g, k);
    ClassifyLookup(StartTally(names), block, g, k);
    if g in names {
      TallyLastWins(names, block, g, k);
    }
  }

  /**
    * The invalid list: every entry of the run for a generator outside the directory, and every
    * entry a later line of the run overrides.
    */
  lemma ParseInvalid(lines: seq<string>, files: seq<string>)
    ensures var p := Parse(lines, files); var block := RunEntries(lines, p); var names := GeneratorNames(files);
      && (forall i :: 0 <= i < |block| && block[i].generator !in names ==> block[i] in p.invalid)
      && forall i, j :: 0 <= i < j < |block| && KeyOf(block[i]) == KeyOf(block[j]) && block[i].generator in names
                        ==> block[i] in p.invalid
  {
    var names := GeneratorNames(files);
    var p := Parse(lines, files);
    var s := ParseParts(lines, files);
    DefaultsBucket(s.tally, Keys(s.tally.table), "");
    var block := RunEntries(lines, p);
    var y := StartTally(names);
    forall i | 0 <= i < |block| && block[i].generator !in names ensures block[i] in p.invalid {
      UnknownIsInvalid(y, block, i);
    }
    forall i, j | 0 <= i < j < |block| && KeyOf(block[i]) == KeyOf(block[j]) && block[i].generator in names
      ensures block[i] in p.invalid
    {
      OverriddenIsInvalid(y, block, i, j);
    }
  }

  /** The run's entries are split between the valid and invalid lists before the defaults are added. */
  lemma ParseCount(lines: seq<string>, files: seq<string>)
    ensures var p := Parse(lines, files);
      |p.invalid| <= |RunEntries(lines, p)| <= |p.valid| + |p.invalid|
  {
    var names := GeneratorNames(files);
    var p := Parse(lines, files);
    var s := ParseParts(lines, files);
    StartAgrees(names);
    ClassifyCount(StartTally(names), RunEntries(lines, p));
    DefaultsBucket(s.tally, Keys(s.tally.table), "");
  }
}
