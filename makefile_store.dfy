/**
  * The configuration store of src/makefile.py: interpose, the linearised index, the regenerated
  * block and its splice into the line array, the four mutators as state transitions, and the
  * Makefile class whose methods perform them in place.
  */
module MakefileStore {
  import opened Wrappers
  import opened Text
  import opened Dicts
  import opened Sorting
  import opened MakefileLine
  import opened MakefileScan

  // ---------------------------------------------------------------- interpose

  /** interpose(xs, x): the elements of xs in order, with x between each two neighbours. */
  function Interposed<T>(xs: seq<T>, x: T): (r: seq<T>)
    ensures |r| == if xs == [] then 0 else 2 * |xs| - 1
    ensures forall i :: 0 <= i < |xs| ==> r[2 * i] == xs[i]
    ensures forall i :: 0 <= i < |xs| - 1 ==> r[2 * i + 1] == x
  {
    if |xs| <= 1 then xs else Interposed(xs[..|xs| - 1], x) + [x, xs[|xs| - 1]]
  }

  /** The generator loop of interpose, with its past_start flag. */
  method Interpose<T>(xs: seq<T>, x: T) returns (r: seq<T>)
    ensures r == Interposed(xs, x)
  {
    r := [];
    var pastStart := false;
    for i := 0 to |xs|
      invariant pastStart <==> i > 0
      invariant r == Interposed(xs[..i], x)
    {
      assert xs[..i + 1][..i] == xs[..i];
      if pastStart {
        r := r + [x];
      }
      r := r + [xs[i]];
      pastStart := true;
    }
    assert xs[..|xs|] == xs;
  }

  /** The separator is never first or last, and every other position holds an element. */
  lemma InterposedEnds<T>(xs: seq<T>, x: T)
    requires xs != []
    ensures Interposed(xs, x)[0] == xs[0] && Interposed(xs, x)[|Interposed(xs, x)| - 1] == xs[|xs| - 1]
  {
    assert 2 * (|xs| - 1) == |Interposed(xs, x)| - 1;
  }

  // ---------------------------------------------------------------- _linearize_index

  /** The sort key of an entry in its group: its configuration name, '' for the default. */
  function NameKey(c: BuildConfig): string {
    c.configName.GetOr("")
  }

  /** The sort key of a group: the generator of its first entry (never asked of an empty group). */
  function FirstGenerator(grp: seq<BuildConfig>): string {
    if grp == [] then "" else grp[0].generator
  }

  /** A generator whose only entry is keyed '' and has no parameters emits nothing. */
  predicate LoneEmptyDefault(b: Bucket) {
    |b| == 1 && Get(b, Some("")).Some? && Get(b, Some("")).value.params == ""
  }

  /** The groups before the final sort: each emitted bucket's entries sorted by name. */
  function Groups(index: Index): (r: seq<seq<BuildConfig>>)
    ensures |r| <= |index|
  {
    if index == [] then []
    else
      var pre := Groups(index[..|index| - 1]);
      var b := index[|index| - 1].1;
      if LoneEmptyDefault(b) then pre else pre + [SortBy(Values(b), NameKey)]
  }

  /** Every bucket that is not a lone empty default contributes its sorted entries as a group. */
  lemma {:induction false} GroupsComplete(index: Index)
    ensures forall i :: 0 <= i < |index| && !LoneEmptyDefault(index[i].1) ==> SortBy(Values(index[i].1), NameKey) in Groups(index)
  {
    if index != [] {
      var n := |index|;
      var pre := index[..n - 1];
      GroupsComplete(pre);
      forall i | 0 <= i < n && !LoneEmptyDefault(index[i].1)
        ensures SortBy(Values(index[i].1), NameKey) in Groups(index)
      {
        if i < n - 1 {
          assert pre[i] == index[i];
        }
      }
    }
  }

  /** Every group is the sorted entries of a bucket that is not a lone empty default. */
  lemma {:induction false} GroupsSound(index: Index)
    ensures forall grp :: grp in Groups(index) ==> exists i :: 0 <= i < |index| && !LoneEmptyDefault(index[i].1)
                                                              && grp == SortBy(Values(index[i].1), NameKey)
  {
    if index != [] {
      var n := |index|;
      var pre := index[..n - 1];
      var last := index[n - 1].1;
      GroupsSound(pre);
      forall grp | grp in Groups(index)
        ensures exists i :: 0 <= i < n && !LoneEmptyDefault(index[i].1) && grp == SortBy(Values(index[i].1), NameKey)
      {
        if grp in Groups(pre) {
          var i :| 0 <= i < n - 1 && !LoneEmptyDefault(pre[i].1) && grp == SortBy(Values(pre[i].1), NameKey);
          assert pre[i] == index[i];
        } else {
          assert !LoneEmptyDefault(last) && grp == SortBy(Values(last), NameKey);
        }
      }
    }
  }

  /** The groups are exactly the sorted entries of the buckets that are not lone empty defaults. */
  lemma GroupsMembers(index: Index)
    ensures forall i :: 0 <= i < |index| && !LoneEmptyDefault(index[i].1) ==> SortBy(Values(index[i].1), NameKey) in Groups(index)
    ensures forall grp :: grp in Groups(index) ==> exists i :: 0 <= i < |index| && !LoneEmptyDefault(index[i].1)
                                                              && grp == SortBy(Values(index[i].1), NameKey)
  {
    GroupsComplete(index);
    GroupsSound(index);
  }


  /** Makefile._linearize_index: the groups sorted by generator; an empty bucket raises IndexError. */
  function Linearize(index: Index): (r: Result<seq<seq<BuildConfig>>, ConfigError>)
    ensures r.Ok? ==> multiset(r.value) == multiset(Groups(index)) && |r.value| == |Groups(index)|
    ensures r.Ok? ==> forall i :: 0 <= i < |r.value| ==> r.value[i] != []
  {
    var groups := Groups(index);
    if [] in groups then Err(EmptyGroup)
    else
      var sorted := SortBy(groups, FirstGenerator);
      assert forall i :: 0 <= i < |sorted| ==> sorted[i] in multiset(groups);
      Ok(sorted)
  }

  /** The loop of _linearize_index, followed by its sort. */
  method LinearizeIndex(index: Index) returns (r: Result<seq<seq<BuildConfig>>, ConfigError>)
    ensures r == Linearize(index)
  {
    var cfgs: seq<seq<BuildConfig>> := [];
    for i := 0 to |index|
      invariant cfgs == Groups(index[..i])
    {
      assert index[..i + 1][..i] == index[..i];
      var genCfgs := index[i].1;
      if !LoneEmptyDefault(genCfgs) {
        cfgs := cfgs + [SortBy(Values(genCfgs), NameKey)];
      }
    }
    assert index[..|index|] == index;
    if [] in cfgs {
      return Err(EmptyGroup);
    }
    r := Ok(SortBy(cfgs, FirstGenerator));
  }

  /** Linearising fails exactly when some generator has no entries at all. */
  lemma LinearizeErrors(index: Index)
    ensures Linearize(index).Err? <==> exists i :: 0 <= i < |index| && index[i].1 == []
    ensures Linearize(index).Err? ==> Linearize(index).error == EmptyGroup
  {
    var groups := Groups(index);
    GroupsMembers(index);
    if [] in groups {
      var i :| 0 <= i < |index| && !LoneEmptyDefault(index[i].1) && [] == SortBy(Values(index[i].1), NameKey);
      assert |Values(index[i].1)| == 0;
    }
    forall i | 0 <= i < |index| && index[i].1 == [] ensures [] in groups {
      assert !LoneEmptyDefault(index[i].1);
      assert SortBy(Values(index[i].1), NameKey) == [];
    }
  }

  /**
    * The emitted groups are sorted by generator, the entries of each group by configuration name
    * (None counting as ''), and each group is a permutation of an emitted bucket's entries.
    */
  lemma LinearizeSorted(index: Index)
    requires Linearize(index).Ok?
    ensures var gs := Linearize(index).value;
      && SortedBy(gs, FirstGenerator)
      && forall grp :: grp in gs ==> grp != [] && SortedBy(grp, NameKey)
                                     && exists i :: 0 <= i < |index| && !LoneEmptyDefault(index[i].1)
                                                    && multiset(grp) == multiset(Values(index[i].1))
  {
    var groups := Groups(index);
    GroupsMembers(index);
    var gs := Linearize(index).value;
    forall grp | grp in gs
      ensures grp != [] && SortedBy(grp, NameKey)
      ensures exists i :: 0 <= i < |index| && !LoneEmptyDefault(index[i].1) && multiset(grp) == multiset(Values(index[i].1))
    {
      assert grp in multiset(gs);
      assert grp in groups;
    }
  }

  /** Every bucket that is not a lone empty default is emitted as one group. */
  lemma LinearizeComplete(index: Index, i: nat)
    requires Linearize(index).Ok? && i < |index| && !LoneEmptyDefault(index[i].1)
    ensures SortBy(Values(index[i].1), NameKey) in Linearize(index).value
  {
    var g := SortBy(Values(index[i].1), NameKey);
    GroupsMembers(index);
    assert g in multiset(Groups(index));
  }

  // ---------------------------------------------------------------- the regenerated block

  /** What the block is built from: an entry, or the '' that interpose puts between groups. */
  datatype Item = Entry(config: BuildConfig) | Separator

  /** str(x).rstrip() + '\n' */
  function ItemLine(x: Item): string {
    RStrip(match x case Entry(c) => Str(c) case Separator => "") + "\n"
  }

  function ItemLines(grp: seq<Item>): (r: seq<string>)
    ensures |r| == |grp| && forall i :: 0 <= i < |grp| ==> r[i] == ItemLine(grp[i])
  {
    if grp == [] then [] else ItemLines(grp[..|grp| - 1]) + [ItemLine(grp[|grp| - 1])]
  }

  /** The lines of each group of items, one group after the other. */
  function FlatLines(gs: seq<seq<Item>>): seq<string> {
    if gs == [] then [] else FlatLines(gs[..|gs| - 1]) + ItemLines(gs[|gs| - 1])
  }

  function AsItems(grp: seq<BuildConfig>): (r: seq<Item>)
    ensures |r| == |grp| && forall i :: 0 <= i < |grp| ==> r[i] == Entry(grp[i])
  {
    if grp == [] then [] else AsItems(grp[..|grp| - 1]) + [Entry(grp[|grp| - 1])]
  }

  function ItemGroups(groups: seq<seq<BuildConfig>>): (r: seq<seq<Item>>)
    ensures |r| == |groups| && forall i :: 0 <= i < |groups| ==> r[i] == AsItems(groups[i])
  {
    if groups == [] then [] else ItemGroups(groups[..|groups| - 1]) + [AsItems(groups[|groups| - 1])]
  }

  /** new_cfg_lines of _regenerate. */
  function BlockLines(groups: seq<seq<BuildConfig>>): seq<string> {
    FlatLines(Interposed(ItemGroups(groups), [Separator]))
  }

  /** The lines of one group: str(x) of each entry. */
  function ConfigLines(grp: seq<BuildConfig>): (r: seq<string>)
    ensures |r| == |grp|
  {
    if grp == [] then [] else ConfigLines(grp[..|grp| - 1]) + [Str(grp[|grp| - 1])]
  }

  /** Line i of a group is str() of its entry i. */
  lemma {:induction false} ConfigLineAt(grp: seq<BuildConfig>, i: nat)
    requires i < |grp|
    ensures ConfigLines(grp)[i] == Str(grp[i])
  {
    if i < |grp| - 1 {
      ConfigLineAt(grp[..|grp| - 1], i);
    }
  }

  /** The groups' lines with exactly one "\n" line between each two groups. */
  function Separated(groups: seq<seq<BuildConfig>>): seq<string> {
    if groups == [] then []
    else if |groups| == 1 then ConfigLines(groups[0])
    else Separated(groups[..|groups| - 1]) + ["\n"] + ConfigLines(groups[|groups| - 1])
  }

  /** Re-stripping a rendered entry changes nothing: each entry gives exactly its str(). */
  lemma EntryLine(c: BuildConfig)
    ensures ItemLine(Entry(c)) == Str(c)
  {
    var t := RStrip(Render(c));
    assert Str(c) == t + "\n";
    assert RStrip(Str(c)) == t by {
      assert Str(c)[..|Str(c)| - 1] == t;
    }
  }

  lemma EntryLines(grp: seq<BuildConfig>)
    ensures ItemLines(AsItems(grp)) == ConfigLines(grp)
  {
    forall i | 0 <= i < |grp| ensures ItemLines(AsItems(grp))[i] == ConfigLines(grp)[i] {
      ConfigLineAt(grp, i);
      EntryLine(grp[i]);
    }
  }

  /**
    * The regenerated block is the groups' entry lines in order, separated by exactly one "\n"
    * line, with no separator first or last.
    */
  lemma {:induction false} BlockLinesSeparated(groups: seq<seq<BuildConfig>>)
    ensures BlockLines(groups) == Separated(groups)
  {
    if |groups| == 1 {
      EntryLines(groups[0]);
      FlatLinesSnoc([], AsItems(groups[0]));
      assert Interposed(ItemGroups(groups), [Separator]) == [] + [AsItems(groups[0])];
    } else if |groups| > 1 {
      var pre := groups[..|groups| - 1];
      var last := groups[|groups| - 1];
      BlockLinesSeparated(pre);
      var interPre := Interposed(ItemGroups(pre), [Separator]);
      InterposedSnoc(groups);
      FlatLinesSnoc(interPre, [Separator]);
      FlatLinesSnoc(interPre + [[Separator]], AsItems(last));
      SeparatorLine();
      EntryLines(last);
      assert BlockLines(groups) == BlockLines(pre) + ["\n"] + ConfigLines(last);
    }
  }

  lemma SeparatorLine()
    ensures ItemLines([Separator]) == ["\n"]
  {
    assert ItemLine(Separator) == "\n";
  }

  lemma FlatLinesSnoc(gs: seq<seq<Item>>, g: seq<Item>)
    ensures FlatLines(gs + [g]) == FlatLines(gs) + ItemLines(g)
  {
    assert (gs + [g])[..|gs|] == gs;
  }

  lemma FlatLinesPrefix(gs: seq<seq<Item>>, i: nat)
    requires i < |gs|
    ensures FlatLines(gs[..i + 1]) == FlatLines(gs[..i]) + ItemLines(gs[i])
  {
    assert gs[..i + 1] == gs[..i] + [gs[i]];
    FlatLinesSnoc(gs[..i], gs[i]);
  }

  lemma InterposedSnoc(groups: seq<seq<BuildConfig>>)
    requires |groups| > 1
    ensures Interposed(ItemGroups(groups), [Separator])
            == Interposed(ItemGroups(groups[..|groups| - 1]), [Separator]) + [[Separator]] + [AsItems(groups[|groups| - 1])]
  {
    var ig := ItemGroups(groups);
    assert ItemGroups(groups[..|groups| - 1]) == ig[..|ig| - 1];
  }

  // ---------------------------------------------------------------- state transitions

  /** The fields of a Makefile object. */
  datatype Fields = Fields(lines: seq<string>, afterComment: nat, cfgStart: nat, cfgEnd: nat,
                           index: Index, current: seq<BuildConfig>, invalid: seq<BuildConfig>)

  /** Where _regenerate puts the block: at the landmark when there is no run, else over the run. */
  function SpliceStart(f: Fields): nat {
    if f.cfgStart == f.cfgEnd then f.afterComment else f.cfgStart
  }

  function SpliceEnd(f: Fields): nat {
    if f.cfgStart == f.cfgEnd then f.afterComment else f.cfgEnd
  }

  /** Where the block lands once the slice bound is clamped to the length of the lines. */
  function SpliceAt(f: Fields): (a: nat)
    ensures a <= |f.lines|
  {
    if SpliceStart(f) <= |f.lines| then SpliceStart(f) else |f.lines|
  }

  /** prefix + new_cfg_lines + suffix, with Python's clamped slicing. */
  function Spliced(f: Fields, block: seq<string>): (r: seq<string>)
    ensures |r| == SpliceAt(f) + |block| + |Drop(f.lines, SpliceEnd(f))|
    ensures r[..SpliceAt(f)] == f.lines[..SpliceAt(f)]
    ensures r[SpliceAt(f)..SpliceAt(f) + |block|] == block
    ensures r[SpliceAt(f) + |block|..] == Drop(f.lines, SpliceEnd(f))
  {
    var pre := Take(f.lines, SpliceStart(f));
    var r := pre + block + Drop(f.lines, SpliceEnd(f));
    assert r[..|pre|] == pre;
    assert r[|pre|..|pre| + |block|] == block;
    assert r[|pre| + |block|..] == Drop(f.lines, SpliceEnd(f));
    r
  }

  /** _parse_makefile on the current lines: the fields it assigns, or the error it raises. */
  function Reparse(f: Fields, generators: seq<string>): (r: (Fields, Option<ConfigError>))
    ensures r.0.lines == f.lines
  {
    match Parse(f.lines, generators)
    case Ok(p) => (Fields(f.lines, p.afterComment, p.cfgStart, p.cfgEnd, p.index, p.valid, p.invalid), None)
    case Err(e) => (f, Some(e))
  }

  /** _regenerate: linearise, splice the block in, parse again. */
  function Regenerated(f: Fields, generators: seq<string>): (r: (Fields, Option<ConfigError>))
    ensures Linearize(f.index).Err? ==> r.0 == f
    ensures r.1.None? ==> Linearize(f.index).Ok? && Parse(r.0.lines, generators).Ok?
  {
    match Linearize(f.index)
    case Err(e) => (f, Some(e))
    case Ok(groups) => Reparse(f.(lines := Spliced(f, BlockLines(groups))), generators)
  }

  /**
    * _regenerate leaves the lines before the splice point and after the replaced range as they
    * were, with the block of sorted, separated groups in between, whether or not the parse that
    * follows succeeds.
    */
  lemma RegeneratedFrame(f: Fields, generators: seq<string>)
    requires Linearize(f.index).Ok?
    ensures var lines := Regenerated(f, generators).0.lines;
            var block := Separated(Linearize(f.index).value);
      && |lines| == SpliceAt(f) + |block| + |Drop(f.lines, SpliceEnd(f))|
      && lines[..SpliceAt(f)] == f.lines[..SpliceAt(f)]
      && lines[SpliceAt(f)..SpliceAt(f) + |block|] == block
      && lines[SpliceAt(f) + |block|..] == Drop(f.lines, SpliceEnd(f))
  {
    var groups := Linearize(f.index).value;
    var block := BlockLines(groups);
    BlockLinesSeparated(groups);
    RegeneratedLines(f, generators);
    var spliced := Spliced(f, block);
    assert spliced[..SpliceAt(f)] == f.lines[..SpliceAt(f)];
    assert spliced[SpliceAt(f)..SpliceAt(f) + |block|] == block;
    assert spliced[SpliceAt(f) + |block|..] == Drop(f.lines, SpliceEnd(f));
  }

  lemma RegeneratedLines(f: Fields, generators: seq<string>)
    requires Linearize(f.index).Ok?
    ensures Regenerated(f, generators).0.lines == Spliced(f, BlockLines(Linearize(f.index).value))
  {
    var spliced := Spliced(f, BlockLines(Linearize(f.index).value));
    assert Regenerated(f, generators) == Reparse(f.(lines := spliced), generators);
  }

  lemma RegeneratedOk(f: Fields, generators: seq<string>, groups: seq<seq<BuildConfig>>)
    requires Linearize(f.index) == Ok(groups)
    ensures Regenerated(f, generators) == Reparse(f.(lines := Spliced(f, BlockLines(groups))), generators)
  {
  }

  /** A successful regenerate leaves the fields exactly as parsing the new lines gives them. */
  lemma RegeneratedParsed(f: Fields, generators: seq<string>)
    requires Regenerated(f, generators).1.None?
    ensures var g := Regenerated(f, generators).0;
      Parse(g.lines, generators)
      == Ok(Layout(g.afterComment, g.cfgStart, g.cfgEnd, g.index, g.current, g.invalid))
  {
  }

  /** add_generator before any regenerate: the new generator gets a ''-keyed default. */
  function AddGeneratorEdit(f: Fields, name: string): (r: (Fields, Option<ConfigError>))
    ensures r.0.(index := f.index) == f
    ensures r.1.None? <==> name !in Keys(f.index) && name != ""
  {
    if name in Keys(f.index) then (f, Some(GeneratorExists(name)))
    else
      var empty: Bucket := [];
      var f1 := f.(index := Put(f.index, name, empty));
      match NewBuildConfig(name, None, None, None)
      case Err(e) => (f1, Some(e))
      case Ok(c) => (f1.(index := Put(f1.index, name, Put(empty, Some(""), c))), None)
  }

  /**
    * add_generator raises if the generator exists; otherwise it changes only the index, filing
    * (name, None, '') under the key ''. With an empty name the empty bucket stays behind.
    */
  lemma AddGeneratorEffect(f: Fields, name: string)
    ensures var (g, err) := AddGeneratorEdit(f, name);
      && g.(index := f.index) == f
      && (name in Keys(f.index) ==> err == Some(GeneratorExists(name)) && g == f)
      && (name !in Keys(f.index) && name == "" ==> err == Some(NamelessGenerator) && Get(g.index, name) == Some([]))
      && (name !in Keys(f.index) && name != "" ==>
            && err.None?
            && Get(g.index, name) == Some([(Some(""), BuildConfig(name, None, "", None))]))
      && forall other :: other != name ==> Get(g.index, other) == Get(f.index, other)
  {
  }

  /** add_configuration before its regenerate. */
  function AddConfigurationEdit(f: Fields, gen: string, name: string, params: string): (r: Result<Fields, ConfigError>)
    ensures gen !in Keys(f.index) ==> r.Err?
    ensures r.Ok? ==> r.value.(current := f.current, index := f.index) == f && |r.value.current| == |f.current| + 1
  {
    if gen !in Keys(f.index) then Err(NoSuchGenerator(gen))
    else
      var key := Some(if name == "(default)" then "" else name);
      var b := Get(f.index, gen).value;
      if Get(b, key).Some? then Err(ConfigurationExists(gen, key.value))
      else
        match NewBuildConfig(gen, key, Some(params), None)
        case Err(e) => Err(e)
        case Ok(c) => Ok(f.(current := f.current + [c], index := Put(f.index, gen, Put(b, key, c))))
  }

  /**
    * add_configuration raises on an unknown generator or an existing name, and always for the
    * names '(default)' and ''; otherwise it files (gen, name, params.strip()) under name and
    * appends it to the valid list, leaving every other pair and the lines as they were.
    */
  lemma AddConfigurationEffect(f: Fields, gen: string, name: string, params: string)
    ensures var r := AddConfigurationEdit(f, gen, name, params);
      && (gen !in Keys(f.index) ==> r == Err(NoSuchGenerator(gen)))
      && (gen in Keys(f.index) && (name == "(default)" || name == "") ==> r.Err?)
      && (gen in Keys(f.index) && name != "(default)" && Lookup(f.index, gen, Some(name)).Some? ==> r == Err(ConfigurationExists(gen, name)))
      && (r.Ok? <==> gen in Keys(f.index) && gen != "" && name != "(default)" && name != ""
                     && Lookup(f.index, gen, Some(name)).None?)
      && (r.Ok? ==>
            var c := BuildConfig(gen, Some(name), Strip(params), None);
            && r.value == f.(current := f.current + [c], index := r.value.index)
            && Lookup(r.value.index, gen, Some(name)) == Some(c)
            && forall g, k :: (g, k) != (gen, Some(name)) ==> Lookup(r.value.index, g, k) == Lookup(f.index, g, k))
  {
    if gen in Keys(f.index) {
      var b := Get(f.index, gen).value;
      forall g, k | (g, k) != (gen, Some(name))
        ensures Lookup(Put(f.index, gen, Put(b, Some(name), BuildConfig(gen, Some(name), Strip(params), None))), g, k)
                == Lookup(f.index, g, k)
      {
        LookupPut(f.index, gen, b, Some(name), BuildConfig(gen, Some(name), Strip(params), None), g, k);
      }
    }
  }

  /** delete_generator before its regenerate. */
  function DeleteGeneratorEdit(f: Fields, name: string): (r: Result<Fields, ConfigError>)
    ensures r.Err? <==> name !in Keys(f.index)
    ensures r.Ok? ==> r.value.(index := f.index) == f && name !in Keys(r.value.index)
  {
    if name !in Keys(f.index) then Err(NoSuchGenerator(name))
    else Ok(f.(index := Del(f.index, name)))
  }

  /** delete_generator raises on an unknown generator, and otherwise drops exactly that generator. */
  lemma DeleteGeneratorEffect(f: Fields, name: string)
    ensures var r := DeleteGeneratorEdit(f, name);
      && (r.Err? <==> name !in Keys(f.index))
      && (r.Err? ==> r.error == NoSuchGenerator(name))
      && (r.Ok? ==>
            && r.value.(index := f.index) == f
            && name !in Keys(r.value.index)
            && forall g :: g != name ==> Get(r.value.index, g) == Get(f.index, g))
  {
  }

  /** delete_configuration before its regenerate. */
  function DeleteConfigurationEdit(f: Fields, gen: string, name: string): (r: Result<Fields, ConfigError>)
    ensures r.Ok? ==> r.value.(index := f.index) == f
    ensures r.Ok? ==> gen in Keys(f.index) && |Get(f.index, gen).value| >= 2
  {
    if gen !in Keys(f.index) then Err(NoSuchGenerator(gen))
    else
      var key := if name == "(default)" then None else Some(name);
      var b := Get(f.index, gen).value;
      if Get(b, key).None? then Err(NoSuchConfiguration(gen, key))
      else if |b| == 1 then Err(LastConfiguration(gen))
      else Ok(f.(index := Put(f.index, gen, Del(b, key))))
  }

  /**
    * delete_configuration raises when the generator or the configuration is absent ('(default)'
    * naming the None key) or when it is the generator's only entry; otherwise it removes exactly
    * that key and leaves the bucket with at least one entry.
    */
  lemma DeleteConfigurationEffect(f: Fields, gen: string, name: string)
    requires KeysDistinct(Get(f.index, gen).GetOr([]))
    ensures var r := DeleteConfigurationEdit(f, gen, name);
            var key := if name == "(default)" then None else Some(name);
      && (gen !in Keys(f.index) ==> r == Err(NoSuchGenerator(gen)))
      && (gen in Keys(f.index) && Lookup(f.index, gen, key).None? ==> r == Err(NoSuchConfiguration(gen, key)))
      && (gen in Keys(f.index) && |Get(f.index, gen).value| == 1 ==> r.Err?)
      && (r.Ok? ==>
            && r.value.(index := f.index) == f
            && Lookup(r.value.index, gen, key).None?
            && |Get(r.value.index, gen).value| == |Get(f.index, gen).value| - 1 >= 1
            && forall g, k :: (g, k) != (gen, key) ==> Lookup(r.value.index, g, k) == Lookup(f.index, g, k))
  {
    var key := if name == "(default)" then None else Some(name);
    if gen in Keys(f.index) && Lookup(f.index, gen, key).Some? {
      DelSize(Get(f.index, gen).value, key);
    }
  }

  /** A mutator: its checks and edits, then _regenerate unless one of them raised. */
  function AfterEdit(f: Fields, edit: Result<Fields, ConfigError>, generators: seq<string>): (Fields, Option<ConfigError>) {
    match edit
    case Err(e) => (f, Some(e))
    case Ok(g) => Regenerated(g, generators)
  }

  /** Once the checks of add_configuration pass, the edit is decided by the new BuildConfig. */
  lemma AddConfigurationEditOf(f: Fields, gen: string, name: string, params: string, b: Bucket,
                               config: Result<BuildConfig, ConfigError>)
    requires Get(f.index, gen) == Some(b)
    requires Get(b, Some(if name == "(default)" then "" else name)).None?
    requires config == NewBuildConfig(gen, Some(if name == "(default)" then "" else name), Some(params), None)
    ensures config.Err? ==> AddConfigurationEdit(f, gen, name, params) == Err(config.error)
    ensures config.Ok? ==> AddConfigurationEdit(f, gen, name, params)
                           == Ok(f.(current := f.current + [config.value],
                                    index := Put(f.index, gen, Put(b, Some(if name == "(default)" then "" else name), config.value))))
  {
  }

  lemma AddConfigurationRegenerates(f: Fields, gen: string, name: string, params: string, b: Bucket,
                                    c: BuildConfig, edited: Fields, generators: seq<string>)
    requires Get(f.index, gen) == Some(b)
    requires Get(b, Some(if name == "(default)" then "" else name)).None?
    requires NewBuildConfig(gen, Some(if name == "(default)" then "" else name), Some(params), None) == Ok(c)
    requires edited == f.(current := f.current + [c], index := Put(f.index, gen, Put(b, Some(if name == "(default)" then "" else name), c)))
    ensures AfterEdit(f, AddConfigurationEdit(f, gen, name, params), generators) == Regenerated(edited, generators)
  {
    AddConfigurationEditOf(f, gen, name, params, b, Ok(c));
  }

  // ---------------------------------------------------------------- the index invariant

  /** Generators once each, names once each per generator, and every entry under its own generator. */
  ghost predicate WellFormed(index: Index) {
    && KeysDistinct(index)
    && (forall g :: g in Keys(index) ==> KeysDistinct(Get(index, g).value))
    && (forall g, k :: Lookup(index, g, k).Some? ==> Lookup(index, g, k).value.generator == g)
  }

  lemma ConsistentWellFormed(y: Tally)
    requires Consistent(y)
    ensures WellFormed(y.index)
  {
    forall g, k | Lookup(y.index, g, k).Some? ensures Lookup(y.index, g, k).value.generator == g {
      assert KeyOf(Lookup(y.index, g, k).value) == (g, k);
    }
  }

  /** Replacing one generator's bucket by a well-formed bucket of its own entries keeps the index well formed. */
  lemma PutBucketWellFormed(index: Index, g: string, b: Bucket)
    requires WellFormed(index) && KeysDistinct(b)
    requires forall k :: Get(b, k).Some? ==> Get(b, k).value.generator == g
    ensures WellFormed(Put(index, g, b))
  {
    var t := Put(index, g, b);
    PutKeepsDistinct(index, g, b);
    PutKeys(index, g, b);
    forall g' | g' in Keys(t) ensures KeysDistinct(Get(t, g').value) {
      if g' != g {
        assert Get(t, g') == Get(index, g');
      }
    }
    forall g', k | Lookup(t, g', k).Some? ensures Lookup(t, g', k).value.generator == g' {
      if g' != g {
        assert Lookup(t, g', k) == Lookup(index, g', k);
      }
    }
  }

  /** Filing one entry under its own generator keeps the index well formed. */
  lemma PutEntryWellFormed(index: Index, g: string, b: Bucket, k: Option<string>, c: BuildConfig)
    requires WellFormed(index) && Get(index, g) == Some(b) && c.generator == g
    ensures WellFormed(Put(index, g, Put(b, k, c)))
  {
    PutKeepsDistinct(b, k, c);
    forall k' | Get(Put(b, k, c), k').Some? ensures Get(Put(b, k, c), k').value.generator == g {
      if k' != k {
        assert Get(Put(b, k, c), k') == Lookup(index, g, k');
      }
    }
    PutBucketWellFormed(index, g, Put(b, k, c));
  }

  /** Parsing (or failing to) and regenerating keep the index well formed. */
  lemma RegeneratedWellFormed(f: Fields, generators: seq<string>)
    requires WellFormed(f.index)
    ensures WellFormed(Regenerated(f, generators).0.index)
  {
    if Linearize(f.index).Ok? {
      var f' := f.(lines := Spliced(f, BlockLines(Linearize(f.index).value)));
      assert Regenerated(f, generators) == Reparse(f', generators);
      if Parse(f'.lines, generators).Ok? {
        ParseIndex(f'.lines, generators);
        var p := Parse(f'.lines, generators).value;
        ConsistentWellFormed(Tally(p.valid, p.invalid, p.index));
      }
    }
  }

  lemma AddGeneratorWellFormed(f: Fields, name: string)
    requires WellFormed(f.index)
    ensures WellFormed(AddGeneratorEdit(f, name).0.index)
  {
    if name !in Keys(f.index) {
      var empty: Bucket := [];
      PutBucketWellFormed(f.index, name, empty);
      var t := Put(f.index, name, empty);
      var c := NewBuildConfig(name, None, None, None);
      if c.Ok? {
        PutEntryWellFormed(t, name, empty, Some(""), c.value);
        assert AddGeneratorEdit(f, name).0.index == Put(t, name, Put(empty, Some(""), c.value));
      } else {
        assert AddGeneratorEdit(f, name).0.index == t;
      }
    }
  }

  lemma AddConfigurationWellFormed(f: Fields, gen: string, name: string, params: string)
    requires WellFormed(f.index)
    ensures var r := AddConfigurationEdit(f, gen, name, params); r.Ok? ==> WellFormed(r.value.index)
  {
    var r := AddConfigurationEdit(f, gen, name, params);
    if r.Ok? {
      var key := Some(if name == "(default)" then "" else name);
      var c := NewBuildConfig(gen, key, Some(params), None).value;
      PutEntryWellFormed(f.index, gen, Get(f.index, gen).value, key, c);
    }
  }

  lemma DeleteGeneratorWellFormed(f: Fields, name: string)
    requires WellFormed(f.index)
    ensures var r := DeleteGeneratorEdit(f, name); r.Ok? ==> WellFormed(r.value.index)
  {
    var t := Del(f.index, name);
    DelKeepsDistinct(f.index, name);
    forall g | g in Keys(t) ensures KeysDistinct(Get(t, g).value) {
      assert Get(t, g) == Get(f.index, g);
    }
    forall g, k | Lookup(t, g, k).Some? ensures Lookup(t, g, k).value.generator == g {
      assert Lookup(t, g, k) == Lookup(f.index, g, k);
    }
  }

  lemma DeleteConfigurationWellFormed(f: Fields, gen: string, name: string)
    requires WellFormed(f.index)
    ensures var r := DeleteConfigurationEdit(f, gen, name); r.Ok? ==> WellFormed(r.value.index)
  {
    var r := DeleteConfigurationEdit(f, gen, name);
    if r.Ok? {
      var key := if name == "(default)" then None else Some(name);
      var b := Get(f.index, gen).value;
      DelKeepsDistinct(b, key);
      forall k | Get(Del(b, key), k).Some? ensures Get(Del(b, key), k).value.generator == gen {
        assert Get(Del(b, key), k) == Lookup(f.index, gen, k);
      }
      PutBucketWellFormed(f.index, gen, Del(b, key));
    }
  }

  // ---------------------------------------------------------------- constructing

  /** The fields __init__ sets before its first _regenerate. */
  function Unparsed(lines: seq<string>): Fields {
    Fields(lines, |lines|, |lines|, |lines|, [], [], [])
  }

  /**
    * The first _regenerate of __init__ has an empty index: it splices nothing in at the end of the
    * file, so constructing a Makefile is exactly parsing its lines.
    */
  lemma OpenIsParse(lines: seq<string>, generators: seq<string>)
    ensures Regenerated(Unparsed(lines), generators) == Reparse(Unparsed(lines), generators)
  {
    var f := Unparsed(lines);
    assert Groups([]) == [];
    assert Linearize(f.index) == Ok([]);
    assert BlockLines([]) == [];
    assert Spliced(f, []) == lines[..|lines|] + [] + lines[|lines|..];
    assert lines[..|lines|] + [] + lines[|lines|..] == lines;
  }

  /** Once a line raises, the rest of the scan raises the same error. */
  lemma {:induction false} ScanErrSticks(lines: seq<string>, generators: seq<string>, i: nat, j: nat)
    requires i <= j <= |lines| && ScanPrefix(lines, generators, i).Err?
    ensures ScanPrefix(lines, generators, j) == ScanPrefix(lines, generators, i)
    decreases j
  {
    if j > i {
      ScanErrSticks(lines, generators, i, j - 1);
    }
  }

  /** Once a default raises, the rest of the default loop raises the same error. */
  lemma {:induction false} DefaultsErrSticks(y: Tally, gs: seq<string>, i: nat)
    requires i <= |gs| && AddDefaults(y, gs[..i]).Err?
    ensures AddDefaults(y, gs) == AddDefaults(y, gs[..i])
    decreases |gs| - i
  {
    if i < |gs| {
      assert gs[..i + 1][..i] == gs[..i];
      DefaultsErrSticks(y, gs, i + 1);
    } else {
      assert gs[..i] == gs;
    }
  }

  lemma ParsedWellFormed(lines: seq<string>, generators: seq<string>)
    requires Parse(lines, generators).Ok?
    ensures WellFormed(Parse(lines, generators).value.index)
  {
    ParseIndex(lines, generators);
    var p := Parse(lines, generators).value;
    ConsistentWellFormed(Tally(p.valid, p.invalid, p.index));
  }

  lemma ParseScanError(lines: seq<string>, generators: seq<string>)
    requires ScanPrefix(lines, generators, |lines|).Err?
    ensures Parse(lines, generators) == Err(ScanPrefix(lines, generators, |lines|).error)
  {
  }

  lemma ParseDefaultsError(lines: seq<string>, generators: seq<string>, s: Scan)
    requires ScanPrefix(lines, generators, |lines|) == Ok(s) && AddDefaults(s.tally, Keys(s.tally.index)).Err?
    ensures Parse(lines, generators) == Err(AddDefaults(s.tally, Keys(s.tally.index)).error)
  {
  }

  lemma ParseOf(lines: seq<string>, generators: seq<string>, s: Scan, y: Tally)
    requires ScanPrefix(lines, generators, |lines|) == Ok(s) && AddDefaults(s.tally, Keys(s.tally.index)) == Ok(y)
    ensures Parse(lines, generators) == Ok(Layout(s.afterComment, s.cfgStart, s.cfgEnd, y.index, y.valid, y.invalid))
  {
  }

  /** The inner loop of the new_cfg_lines comprehension: one line per item of a group. */
  method RenderItems(grp: seq<Item>) returns (out: seq<string>)
    ensures out == ItemLines(grp)
  {
    out := [];
    for j := 0 to |grp|
      invariant out == ItemLines(grp[..j])
    {
      assert grp[..j + 1][..j] == grp[..j];
      out := out + [ItemLine(grp[j])];
    }
    assert grp[..|grp|] == grp;
  }

  /** new_cfg_lines of _regenerate: the groups interposed with [''], each item as one stripped line. */
  method RenderBlock(cfgs: seq<seq<BuildConfig>>) returns (newCfgLines: seq<string>)
    ensures newCfgLines == BlockLines(cfgs)
  {
    var grps := Interpose(ItemGroups(cfgs), [Separator]);
    newCfgLines := [];
    for i := 0 to |grps|
      invariant newCfgLines == FlatLines(grps[..i])
    {
      var items := RenderItems(grps[i]);
      FlatLinesPrefix(grps, i);
      newCfgLines := newCfgLines + items;
    }
    assert grps[..|grps|] == grps;
  }

  // ---------------------------------------------------------------- the loops of _parse_makefile

  /** The table of known generators, each with no configurations yet. */
  method NewTable(generators: seq<string>) returns (t: Index)
    ensures t == InitialIndex(generators)
  {
    t := [];
    for g := 0 to |generators|
      invariant t == InitialIndex(generators[..g])
    {
      assert generators[..g + 1][..g] == generators[..g];
      t := Put(t, generators[g], []);
    }
    assert generators[..|generators|] == generators;
  }

  /** One matched line while the run is open, as the branch on the generator table does it. */
  method FileConfig(y: Tally, c: BuildConfig) returns (z: Tally)
    ensures z == Record(y, c)
  {
    var configurations, invalidConfigurations, generator2configs := y.valid, y.invalid, y.index;
    match Get(generator2configs, c.generator) {
      case None =>
        invalidConfigurations := invalidConfigurations + [c];
      case Some(b) =>
        match Get(b, c.configName) {
          case Some(prev) =>
            configurations := RemoveFirst(configurations, prev);
            invalidConfigurations := invalidConfigurations + [prev];
          case None =>
        }
        generator2configs := Put(generator2configs, c.generator, Put(b, c.configName, c));
        configurations := configurations + [c];
    }
    z := Tally(configurations, invalidConfigurations, generator2configs);
  }

  /** The body of the line loop of _parse_makefile, on the loop's variables. */
  method ScanLine(n: nat, s: Scan, idx: nat, line: string) returns (r: Result<Scan, ConfigError>)
    ensures r == ScanStep(n, s, idx, line)
  {
    var ac, start, end, lastCfg, saw, tally := s.afterComment, s.cfgStart, s.cfgEnd, s.lastCfg, s.sawComment, s.tally;
    if IsBlank(line) {
      if saw && ac == n {
        ac := idx;
      }
      return Ok(s.(afterComment := ac));
    }
    if StartsWith(line, Landmark) {
      saw := true;
    }
    if saw && ac == n && !StartsWith(Strip(line), "#") {
      ac := idx;
    }
    var config := FromMakefile(line);
    if config.Rejected? {
      return Err(config.error);
    }
    if start == n && config.Parsed? {
      start := idx;
    }
    if end == n && config.Parsed? {
      tally := FileConfig(tally, config.config);
      lastCfg := idx;
    }
    if start < n && end == n && !config.Parsed? {
      end := lastCfg + 1;
    }
    r := Ok(Scan(ac, start, end, lastCfg, saw, tally));
  }

  /** The line loop of _parse_makefile; a line naming an empty configuration raises. */
  method ScanLines(lines: seq<string>, generators: seq<string>) returns (r: Result<Scan, ConfigError>)
    ensures r == ScanPrefix(lines, generators, |lines|)
  {
    var n := |lines|;
    var table := NewTable(generators);
    var s := Scan(n, n, n, n, false, Tally([], [], table));
    for i := 0 to n
      invariant ScanPrefix(lines, generators, i) == Ok(s)
    {
      var next := ScanLine(n, s, i, lines[i]);
      if next.Err? {
        ScanErrSticks(lines, generators, i + 1, n);
        return next;
      }
      s := next.value;
    }
    r := Ok(s);
  }

  /** The default loop of _parse_makefile: a generator with no entries gets (g, None, ''). */
  method FillDefaults(y: Tally, gens: seq<string>) returns (r: Result<Tally, ConfigError>)
    ensures r == AddDefaults(y, gens)
  {
    var configurations, invalidConfigurations, generator2configs := y.valid, y.invalid, y.index;
    for j := 0 to |gens|
      invariant AddDefaults(y, gens[..j]) == Ok(Tally(configurations, invalidConfigurations, generator2configs))
    {
      assert gens[..j + 1][..j] == gens[..j];
      var gen := gens[j];
      match Get(generator2configs, gen) {
        case Some(b) =>
          if b == [] {
            var d := NewBuildConfig(gen, None, None, None);
            if d.Err? {
              DefaultsErrSticks(y, gens, j + 1);
              return Err(d.error);
            }
            generator2configs := Put(generator2configs, gen, Put(b, None, d.value));
            configurations := configurations + [d.value];
          }
        case None =>
      }
    }
    assert gens[..|gens|] == gens;
    r := Ok(Tally(configurations, invalidConfigurations, generator2configs));
  }

  // ---------------------------------------------------------------- the Makefile object

  /**
    * A Makefile: its lines, where the configuration run and the generator landmark are, and the
    * index of configurations by generator and name. The generator names the project directory
    * holds are fixed when the object is made.
    */
  class Makefile {
    const generators: seq<string>
    var lines: seq<string>
    var afterComment: nat
    var cfgStart: nat
    var cfgEnd: nat
    var index: Index
    var current: seq<BuildConfig>
    var invalid: seq<BuildConfig>

    function State(): Fields
      reads this
    {
      Fields(lines, afterComment, cfgStart, cfgEnd, index, current, invalid)
    }

    ghost predicate Valid()
      reads this
    {
      WellFormed(index)
    }

    /** The fields __init__ assigns before it regenerates. */
    constructor Init(lines: seq<string>, generators: seq<string>)
      ensures State() == Unparsed(lines) && this.generators == generators && Valid()
    {
      this.generators := generators;
      this.lines := lines;
      afterComment := |lines|;
      cfgStart := |lines|;
      cfgEnd := |lines|;
      index := [];
      current := [];
      invalid := [];
    }

    /** Makefile(project_root): read the lines and regenerate; a parse error means no object. */
    static method Open(lines: seq<string>, generators: seq<string>) returns (r: Result<Makefile, ConfigError>)
      ensures r.Ok? <==> Parse(lines, generators).Ok?
      ensures r.Err? ==> r.error == Parse(lines, generators).error
      ensures r.Ok? ==> fresh(r.value) && r.value.Valid() && r.value.generators == generators
                        && r.value.State() == Reparse(Unparsed(lines), generators).0
    {
      var m := new Makefile.Init(lines, generators);
      var err := m.Regenerate();
      OpenIsParse(lines, generators);
      if err.Some? {
        return Err(err.value);
      }
      r := Ok(m);
    }

    /** has_generator */
    predicate HasGenerator(name: string)
      reads this
    {
      name in Keys(index)
    }

    /** get_generators: the valid and the invalid configurations. */
    function GetGenerators(): (seq<BuildConfig>, seq<BuildConfig>)
      reads this
    {
      (current, invalid)
    }

    /** _parse_makefile: scan the lines, add the missing defaults, assign the fields at the end. */
    method ParseMakefile() returns (err: Option<ConfigError>)
      requires Valid()
      modifies this
      ensures (State(), err) == Reparse(old(State()), generators) && Valid()
    {
      var scan := ScanLines(lines, generators);
      if scan.Err? {
        ParseScanError(lines, generators);
        return Some(scan.error);
      }
      var s := scan.value;
      var filled := FillDefaults(s.tally, Keys(s.tally.index));
      if filled.Err? {
        ParseDefaultsError(lines, generators, s);
        return Some(filled.error);
      }
      var y := filled.value;
      ParseOf(lines, generators, s, y);
      ParsedWellFormed(lines, generators);
      index := y.index;
      afterComment := s.afterComment;
      cfgStart := s.cfgStart;
      cfgEnd := s.cfgEnd;
      current := y.valid;
      invalid := y.invalid;
      err := None;
    }

    /** _regenerate: the new block replaces the run (or lands after the landmark), then reparse. */
    method Regenerate() returns (err: Option<ConfigError>)
      requires Valid()
      modifies this
      ensures (State(), err) == Regenerated(old(State()), generators) && Valid()
    {
      ghost var f := State();
      var cfgs := LinearizeIndex(index);
      if cfgs.Err? {
        return Some(cfgs.error);
      }
      RegeneratedOk(f, generators, cfgs.value);
      var newCfgLines := RenderBlock(cfgs.value);
      var prefix, suffix;
      if cfgStart == cfgEnd {
        prefix := Take(lines, afterComment);
        suffix := Drop(lines, afterComment);
      } else {
        prefix := Take(lines, cfgStart);
        suffix := Drop(lines, cfgEnd);
      }
      assert prefix + newCfgLines + suffix == Spliced(f, BlockLines(cfgs.value));
      lines := prefix + newCfgLines + suffix;
      err := ParseMakefile();
    }

    /** add_generator: refuses a known name; files a ''-keyed default; does not regenerate. */
    method AddGenerator(name: string) returns (err: Option<ConfigError>)
      requires Valid()
      modifies this
      ensures (State(), err) == AddGeneratorEdit(old(State()), name) && Valid()
    {
      ghost var f := State();
      AddGeneratorWellFormed(f, name);
      if HasGenerator(name) {
        return Some(GeneratorExists(name));
      }
      var empty: Bucket := [];
      index := Put(index, name, empty);
      var c := NewBuildConfig(name, None, None, None);
      if c.Err? {
        assert AddGeneratorEdit(f, name) == (State(), Some(c.error));
        return Some(c.error);
      }
      var b := Get(index, name).value;
      assert b == empty;
      index := Put(index, name, Put(b, Some(""), c.value));
      assert AddGeneratorEdit(f, name) == (State(), None);
      err := None;
    }

    /** add_configuration: checks, files and appends the new entry, then regenerates. */
    method AddConfiguration(gen: string, name: string, params: string) returns (err: Option<ConfigError>)
      requires Valid()
      modifies this
      ensures (State(), err) == AfterEdit(old(State()), AddConfigurationEdit(old(State()), gen, name, params), generators)
      ensures Valid()
    {
      ghost var f := State();
      if gen !in Keys(index) {
        return Some(NoSuchGenerator(gen));
      }
      var key := Some(if name == "(default)" then "" else name);
      var b := Get(index, gen).value;
      if Get(b, key).Some? {
        return Some(ConfigurationExists(gen, key.value));
      }
      var config := NewBuildConfig(gen, key, Some(params), None);
      if config.Err? {
        AddConfigurationEditOf(f, gen, name, params, b, config);
        return Some(config.error);
      }
      var edited := Fields(lines, afterComment, cfgStart, cfgEnd, Put(index, gen, Put(b, key, config.value)), current + [config.value], invalid);
      current := edited.current;
      index := edited.index;
      assert State() == edited;
      PutEntryWellFormed(f.index, gen, b, key, config.value);
      err := Regenerate();
      AddConfigurationRegenerates(f, gen, name, params, b, config.value, edited, generators);
    }

    /** delete_generator: refuses an unknown name; drops the generator; regenerates. */
    method DeleteGenerator(name: string) returns (err: Option<ConfigError>)
      requires Valid()
      modifies this
      ensures (State(), err) == AfterEdit(old(State()), DeleteGeneratorEdit(old(State()), name), generators)
      ensures Valid()
    {
      DeleteGeneratorWellFormed(State(), name);
      if name !in Keys(index) {
        return Some(NoSuchGenerator(name));
      }
      index := Del(index, name);
      err := Regenerate();
    }

    /** delete_configuration: refuses an absent or a generator's last entry; drops it; regenerates. */
    method DeleteConfiguration(gen: string, name: string) returns (err: Option<ConfigError>)
      requires Valid()
      modifies this
      ensures (State(), err) == AfterEdit(old(State()), DeleteConfigurationEdit(old(State()), gen, name), generators)
      ensures Valid()
    {
      DeleteConfigurationWellFormed(State(), gen, name);
      if gen !in Keys(index) {
        return Some(NoSuchGenerator(gen));
      }
      var key := if name == "(default)" then None else Some(name);
      var b := Get(index, gen).value;
      if Get(b, key).None? {
        return Some(NoSuchConfiguration(gen, key));
      }
      if |b| == 1 {
        return Some(LastConfiguration(gen));
      }
      index := Put(index, gen, Del(b, key));
      err := Regenerate();
    }
  }
}
