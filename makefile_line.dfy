/**
  * One configuration line of the current store (src/makefile.py): the BuildConfig value,
  * its constructor checks, the line matcher and the two renderings.
  *
  * The line pattern  ^CFG__(\w+?)(?:__(\w*))?[ \t]*=[ \t]*([^\s].*?)?[ \t]*$  is matched by hand:
  * the word characters after "CFG__" must run up to the spaces and "=", the lazy first group ends at
  * the first "__" after its first character (or takes the whole word), and the rest must be
  * "=", a value and trailing spaces or tabs, where $ may stand before one final newline.
  */
module MakefileLine {
  import opened Wrappers
  import opened Text

  /** The ValueError (and IndexError) conditions of the store, one constructor per message. */
  datatype ConfigError =
    | NamelessGenerator                                   // 'cannot define nameless generator!'
    | EmptyConfigName                                     // 'config_name cannot be empty string!'
    | GeneratorExists(generator: string)                  // 'generator ... already exists!'
    | NoSuchGenerator(generator: string)                  // 'no generator named ...'
    | ConfigurationExists(generator: string, name: string) // 'configuration ... already exists. ...'
    | NoSuchConfiguration(generator: string, key: Option<string>)
    | LastConfiguration(generator: string)                // 'cannot leave generator unconfigured. ...'
    | EmptyGroup                                          // IndexError: grp[0] of an empty group

  /**
    * A configuration entry. configName None is the default configuration; source is the line
    * the entry was read from, None for entries the program builds.
    */
  datatype BuildConfig = BuildConfig(generator: string, configName: Option<string>, params: string, source: Option<string>)

  /** Outcome of matching one line: no match, an entry, or the ValueError the constructor raises. */
  datatype LineParse = NoMatch | Parsed(config: BuildConfig) | Rejected(error: ConfigError)

  const CfgPrefix: string := "CFG__"

  /** BuildConfig(generator, config_name, value, source=...) */
  function NewBuildConfig(generator: string, configName: Option<string>, value: Option<string>, source: Option<string>)
    : (r: Result<BuildConfig, ConfigError>)
    ensures generator == "" ==> r == Err(NamelessGenerator)
    ensures generator != "" && configName == Some("") ==> r == Err(EmptyConfigName)
    ensures r.Ok? <==> generator != "" && configName != Some("")
    ensures r.Ok? ==> r.value.generator == generator && r.value.configName == configName && r.value.source == source
    ensures r.Ok? ==> IsStripped(r.value.params) && r.value.params == Strip(value.GetOr(""))
  {
    if generator == "" then Err(NamelessGenerator)
    else if configName == Some("") then Err(EmptyConfigName)
    else Ok(BuildConfig(generator, configName, Strip(value.GetOr("")), source))
  }

  /** The length of the longest prefix of s made of word characters. */
  function WordLen(s: string): (n: nat)
    ensures n <= |s| && IsWord(s[..n])
    ensures n < |s| ==> !IsWordChar(s[n])
  {
    if s != [] && IsWordChar(s[0]) then
      var m := WordLen(s[1..]);
      assert s[..1 + m] == [s[0]] + s[1..][..m];
      1 + m
    else 0
  }

  predicate DunderAt(w: string, j: nat) {
    j + 2 <= |w| && w[j] == '_' && w[j + 1] == '_'
  }

  /** Where the lazy (\w+?) stops inside the word w: the first j >= k followed by "__", else the end of w. */
  function GeneratorEnd(w: string, k: nat): (e: nat)
    requires 1 <= k <= |w|
    ensures k <= e <= |w|
    ensures e < |w| ==> DunderAt(w, e)
    ensures forall j :: k <= j < e ==> !DunderAt(w, j)
    decreases |w| - k
  {
    if DunderAt(w, k) || k == |w| then k else GeneratorEnd(w, k + 1)
  }

  /**
    * The part of the pattern after "=":  [ \t]*([^\s].*?)?[ \t]*$ . None when it does not match,
    * otherwise the value of the third group (None when the group did not take part). $ matches at
    * the end or just before a final newline, and no other part of the pattern matches a newline, so
    * a final newline is dropped and the rest must match up to its end.
    */
  function MatchValue(r: string): (m: Option<Option<string>>)
    ensures m.Some? && m.value.Some? ==> m.value.value != [] && !IsSpace(m.value.value[0]) && '\n' !in m.value.value
  {
    if r != [] && r[|r| - 1] == '\n' then MatchLine(r[..|r| - 1]) else MatchLine(r)
  }

  /** [ \t]*([^\s].*?)?[ \t]*  matched against the whole of x. */
  function MatchLine(x: string): (m: Option<Option<string>>)
    ensures m.Some? && m.value.Some? ==> m.value.value != [] && !IsSpace(m.value.value[0]) && '\n' !in m.value.value
  {
    var a := SkipSpTab(x, 0);
    if a < |x| && !IsSpace(x[a]) then
      var e := |RStripSpTab(x)|;
      assert !IsSpTab(x[a]);
      var g := x[a..e];
      // '.' never matches a newline
      if '\n' in g then None else Some(Some(g))
    else if a == |x| then Some(None)
    else None
  }

  /** What follows the word characters:  [ \t]*=  and then the value part. */
  function MatchTail(t: string): Option<Option<string>> {
    var i := SkipSpTab(t, 0);
    if i < |t| && t[i] == '=' then MatchValue(t[i + 1..]) else None
  }

  /** BuildConfig.from_makefile(line) */
  function FromMakefile(line: string): (r: LineParse)
    ensures !StartsWith(line, CfgPrefix) ==> r == NoMatch
    ensures r.Rejected? ==> r.error == EmptyConfigName
    ensures r.Parsed? ==>
      && r.config.source == Some(line)
      && r.config.generator != "" && IsWord(r.config.generator)
      && NameRoundTrippable(r.config.configName)
      && IsStripped(r.config.params)
  {
    if !StartsWith(line, CfgPrefix) then NoMatch
    else
      var s := line[|CfgPrefix|..];
      var n := WordLen(s);
      if n == 0 then NoMatch
      else
        match MatchTail(s[n..])
        case None => NoMatch
        case Some(value) => ConfigOf(s[..n], value, line)
  }

  /** The entry for a matched line: the word after "CFG__" split into its groups, then the constructor. */
  function ConfigOf(w: string, value: Option<string>, line: string): (r: LineParse)
    requires w != [] && IsWord(w)
    ensures r.Rejected? ==> r.error == EmptyConfigName
    ensures r.Parsed? ==>
      && r.config.source == Some(line)
      && r.config.generator != "" && IsWord(r.config.generator)
      && NameRoundTrippable(r.config.configName)
      && IsStripped(r.config.params)
  {
    var (gen, name) := SplitWord(w);
    WordParts(gen, name);
    match NewBuildConfig(gen, name, value, Some(line))
    case Err(err) => Rejected(err)
    case Ok(c) => Parsed(c)
  }

  /** The word characters of a configuration variable: the generator, and "__" and a name when there is one. */
  function Joined(gen: string, name: Option<string>): string {
    if name.Some? then gen + "__" + name.value else gen
  }

  /** The first two groups of the pattern: the word up to its first "__" (past its first character) and the rest. */
  function SplitWord(w: string): (p: (string, Option<string>))
    requires w != []
    ensures p.0 != [] && Joined(p.0, p.1) == w
  {
    var e := GeneratorEnd(w, 1);
    if e < |w| then
      assert w == w[..e] + "__" + w[e + 2..];
      (w[..e], Some(w[e + 2..]))
    else (w, None)
  }

  lemma WordParts(gen: string, name: Option<string>)
    requires IsWord(Joined(gen, name))
    ensures IsWord(gen) && (name.Some? ==> IsWord(name.value))
  {
    var w := Joined(gen, name);
    assert forall i :: 0 <= i < |gen| ==> gen[i] == w[i];
    if name.Some? {
      assert forall i :: 0 <= i < |name.value| ==> name.value[i] == w[|gen| + 2 + i];
    }
  }

  /** "__name" when the configuration has a non-empty name, otherwise nothing. */
  function NameSuffix(name: Option<string>): string {
    if name.Some? && name.value != "" then "__" + name.value else ""
  }

  /** BuildConfig._render(): the source line verbatim, or the canonical "CFG__gen[__name] = params". */
  function Render(c: BuildConfig): (r: string)
    ensures c.source.Some? && c.source.value != "" ==> r == c.source.value
    ensures c.source.None? || c.source.value == "" ==>
      && StartsWith(r, CfgPrefix + c.generator)
      && |r| >= |c.params| + 3 && r[|r| - |c.params| - 3..] == " = " + c.params
  {
    if c.source.Some? && c.source.value != "" then c.source.value
    else CfgPrefix + c.generator + NameSuffix(c.configName) + " = " + c.params
  }

  /** str(BuildConfig): the rendering without its trailing whitespace, then exactly one newline. */
  function Str(c: BuildConfig): (r: string)
    ensures |r| >= 1 && r[|r| - 1] == '\n'
    ensures |r| >= 2 ==> !IsSpace(r[|r| - 2])
    ensures StartsWith(Render(c), r[..|r| - 1]) && IsBlank(Render(c)[|r| - 1..])
  {
    var t := RStrip(Render(c));
    RStripShape(Render(c));
    assert (t + "\n")[..|t|] == t;
    t + "\n"
  }

  /** A generator name the pattern gives back intact: word characters, no "__", not ending in "_". */
  predicate RoundTrippable(gen: string) {
    gen != "" && IsWord(gen) && gen[|gen| - 1] != '_' && forall j :: 0 <= j < |gen| ==> !DunderAt(gen, j)
  }

  /** A configuration name the pattern gives back intact: None or a non-empty word. */
  predicate NameRoundTrippable(name: Option<string>) {
    name.Some? ==> name.value != "" && IsWord(name.value)
  }

  /** A value the pattern reads back: no newline, and the first character that is not a space or tab is not whitespace. */
  predicate ReadableValue(value: string) {
    && (forall i :: 0 <= i < |value| ==> value[i] != '\n')
    && var k := SkipSpTab(value, 0); k < |value| ==> !IsSpace(value[k])
  }

  /** In the word of a generator the pattern gives back intact, the lazy first group stops exactly at its end. */
  lemma {:induction false} GeneratorEndOf(gen: string, name: Option<string>, k: nat)
    requires RoundTrippable(gen) && 1 <= k <= |gen|
    ensures GeneratorEnd(Joined(gen, name), k) == |gen|
    decreases |gen| - k
  {
    var w := Joined(gen, name);
    if k < |gen| {
      assert w[k] == gen[k];
      assert !DunderAt(w, k) by {
        if k + 2 <= |gen| {
          assert w[k + 1] == gen[k + 1];
          assert !DunderAt(gen, k);
        }
      }
      GeneratorEndOf(gen, name, k + 1);
    } else if name.Some? {
      assert w[k] == '_' && w[k + 1] == '_';
    }
  }

  /** Splitting the word is the inverse of joining, for generators the pattern gives back intact. */
  lemma SplitJoined(gen: string, name: Option<string>)
    requires RoundTrippable(gen)
    ensures SplitWord(Joined(gen, name)) == (gen, name)
  {
    GeneratorEndOf(gen, name, 1);
    var w := Joined(gen, name);
    if name.Some? {
      assert w[..|gen|] == gen && w[|gen| + 2..] == name.value;
    }
  }

  lemma WordLenOf(w: string, t: string)
    requires IsWord(w) && (t == [] || !IsWordChar(t[0]))
    ensures WordLen(w + t) == |w|
  {
    if w != [] {
      assert (w + t)[1..] == w[1..] + t;
      WordLenOf(w[1..], t);
    } else {
      assert w + t == t;
    }
  }

  lemma SkipSpTabOf(lead: string, t: string)
    requires IsSpTabs(lead) && (t == [] || !IsSpTab(t[0]))
    ensures SkipSpTab(lead + t, 0) == |lead|
  {
    var r := lead + t;
    var a := SkipSpTab(r, 0);
    assert forall k :: 0 <= k < |lead| ==> r[k] == lead[k];
    assert t != [] ==> r[|lead|] == t[0];
  }

  /** After "CFG__" the line is decided by its word characters and what follows them. */
  lemma PrefixedLine(s: string)
    ensures FromMakefile(CfgPrefix + s)
            == var n := WordLen(s);
               if n == 0 then NoMatch
               else match MatchTail(s[n..]) case None => NoMatch case Some(v) => ConfigOf(s[..n], v, CfgPrefix + s)
  {
    assert (CfgPrefix + s)[..|CfgPrefix|] == CfgPrefix;
    assert (CfgPrefix + s)[|CfgPrefix|..] == s;
  }

  /** The tail after the word: spaces or tabs, "=" and the value part. */
  lemma TailOf(lsp: string, rest: string)
    requires IsSpTabs(lsp)
    ensures MatchTail(lsp + "=" + rest) == MatchValue(rest)
  {
    var t := lsp + "=" + rest;
    assert t == lsp + ("=" + rest);
    SkipSpTabOf(lsp, "=" + rest);
    assert t[|lsp|] == '=';
    assert t[|lsp| + 1..] == rest;
  }

  /** A line "CFG__" word, spaces or tabs, "=" and a rest is decided by the rest's value part. */
  lemma LineOf(w: string, lsp: string, rest: string)
    requires w != [] && IsWord(w) && IsSpTabs(lsp)
    ensures var line := CfgPrefix + w + lsp + "=" + rest;
            FromMakefile(line)
            == match MatchValue(rest) case None => NoMatch case Some(v) => ConfigOf(w, v, line)
  {
    var t := lsp + "=" + rest;
    var s := w + t;
    assert CfgPrefix + w + lsp + "=" + rest == CfgPrefix + s;
    assert t[0] == ' ' || t[0] == '\t' || t[0] == '=';
    WordLenOf(w, t);
    assert s[..|w|] == w && s[|w|..] == t;
    TailOf(lsp, rest);
    PrefixedLine(s);
  }

  /** The value part of a line: leading spaces or tabs, then a value that starts with a non-space. */
  lemma MatchValueOf(lead: string, v: string)
    requires IsSpTabs(lead) && '\n' !in v && (v == [] || !IsSpace(v[0]))
    ensures MatchValue(lead + v) == Some(if v == [] then None else Some(RStripSpTab(v)))
  {
    var r := lead + v;
    SkipSpTabOf(lead, v);
    assert '\n' !in r;
    if v != [] {
      assert r[|lead|] == v[0];
      RStripSpTabKeepsPrefix(lead, v);
      assert r[|lead|..|RStripSpTab(r)|] == RStripSpTab(v);
    } else {
      assert r == lead;
    }
  }

  lemma RStripSpTabKeepsPrefix(x: string, v: string)
    requires v != [] && !IsSpTab(v[0])
    ensures RStripSpTab(x + v) == x + RStripSpTab(v)
  {
    if IsSpTab(v[|v| - 1]) {
      assert (x + v)[..|x + v| - 1] == x + v[..|v| - 1];
      RStripSpTabKeepsPrefix(x, v[..|v| - 1]);
    }
  }

  /** Stripping the matched value gives the stripped value part. */
  lemma ValueStrip(lead: string, v: string)
    requires IsSpTabs(lead) && v != []
    ensures Strip(RStripSpTab(v)) == Strip(lead + v)
  {
    var t := RStripSpTab(v);
    var z := v[|t|..];
    assert v == t + z;
    assert forall i :: 0 <= i < |z| ==> z[i] == v[|t| + i];
    assert lead + v == lead + t + z;
    StripPadded(lead, t, z);
  }

  /** A value the pattern reads back, split at its first character that is not a space or tab. */
  lemma SplitValue(value: string) returns (lead: string, v: string)
    requires ReadableValue(value)
    ensures value == lead + v && IsSpTabs(lead)
    ensures '\n' !in v && (v == [] || !IsSpace(v[0]))
  {
    var k := SkipSpTab(value, 0);
    lead, v := value[..k], value[k..];
    assert value == lead + v;
    assert forall j :: 0 <= j < |v| ==> v[j] == value[k + j];
  }

  /** The parameters read from "=" rsp value. */
  lemma ValueOf(rsp: string, value: string)
    requires IsSpTabs(rsp) && ReadableValue(value)
    ensures MatchValue(rsp + value).Some?
    ensures Strip(MatchValue(rsp + value).value.GetOr("")) == Strip(value)
  {
    var lead, v := SplitValue(value);
    assert rsp + value == (rsp + lead) + v;
    MatchValueOf(rsp + lead, v);
    assert IsBlank(rsp + lead) && IsBlank(lead);
    if v == [] {
      assert Strip(value) == [];
    } else {
      ValueStrip(rsp + lead, v);
      ValueStrip(lead, v);
    }
  }

  /** $ may stand before one final newline: a value part without newlines matches the same with "\n" after it. */
  lemma MatchValueEol(r: string)
    requires '\n' !in r
    ensures MatchValue(r + "\n") == MatchValue(r)
  {
    assert (r + "\n")[..|r|] == r;
  }

  /**
    * The shapes tests/test_buildConfig.py exercises: any spaces or tabs around "=", a generator
    * without "__" that does not end in "_", no name or a non-empty word name, and a value whose only
    * whitespace is spaces and tabs (more generally: a value the pattern reads back), with or without
    * the final newline readlines keeps. The entry has that generator and name and the stripped value.
    */
  lemma ParseSpacedLine(gen: string, name: Option<string>, lsp: string, rsp: string, value: string, eol: string)
    requires RoundTrippable(gen) && NameRoundTrippable(name)
    requires IsSpTabs(lsp) && IsSpTabs(rsp)
    requires ReadableValue(value) && (eol == "" || eol == "\n")
    ensures var line := CfgPrefix + gen + NameSuffix(name) + lsp + "=" + rsp + value + eol;
            FromMakefile(line) == Parsed(BuildConfig(gen, name, Strip(value), Some(line)))
  {
    JoinedWord(gen, name);
    SpacedLineWord(gen, name, lsp, rsp, value, eol);
    ValueEolOf(rsp, value, eol);
    SplitJoined(gen, name);
    WordLineParsed(Joined(gen, name), gen, name, lsp, rsp + value + eol, Strip(value));
  }

  /** The same line, cut after the word characters and after the "=". */
  lemma SpacedLineWord(gen: string, name: Option<string>, lsp: string, rsp: string, value: string, eol: string)
    requires Joined(gen, name) == gen + NameSuffix(name)
    ensures CfgPrefix + gen + NameSuffix(name) + lsp + "=" + rsp + value + eol
            == CfgPrefix + Joined(gen, name) + lsp + "=" + (rsp + value + eol)
  {
  }

  /** A line "CFG__" w lsp "=" rest whose word splits into gen and name and whose rest reads as params. */
  lemma WordLineParsed(w: string, gen: string, name: Option<string>, lsp: string, rest: string, params: string)
    requires w != [] && IsWord(w) && IsSpTabs(lsp) && SplitWord(w) == (gen, name) && NameRoundTrippable(name)
    requires MatchValue(rest).Some? && Strip(MatchValue(rest).value.GetOr("")) == params
    ensures var line := CfgPrefix + w + lsp + "=" + rest;
            FromMakefile(line) == Parsed(BuildConfig(gen, name, params, Some(line)))
  {
    var line := CfgPrefix + w + lsp + "=" + rest;
    LineOf(w, lsp, rest);
    var v := MatchValue(rest).value;
    assert FromMakefile(line) == ConfigOf(w, v, line);
  }

  /** The value part "=" rsp value, with or without the final newline, reads as the stripped value. */
  lemma ValueEolOf(rsp: string, value: string, eol: string)
    requires IsSpTabs(rsp) && ReadableValue(value) && (eol == "" || eol == "\n")
    ensures MatchValue(rsp + value + eol).Some?
    ensures Strip(MatchValue(rsp + value + eol).value.GetOr("")) == Strip(value)
  {
    ValueOf(rsp, value);
    if eol == "\n" {
      assert forall i :: 0 <= i < |rsp + value| ==> (rsp + value)[i] != '\n';
      MatchValueEol(rsp + value);
    } else {
      assert rsp + value + eol == rsp + value;
    }
  }

  lemma JoinedWord(gen: string, name: Option<string>)
    requires IsWord(gen) && NameRoundTrippable(name)
    ensures Joined(gen, name) == gen + NameSuffix(name) && IsWord(Joined(gen, name))
  {
    if name.Some? {
      var w := Joined(gen, name);
      assert forall j :: |gen| + 2 <= j < |w| ==> w[j] == name.value[j - |gen| - 2];
    }
  }

  /**
    * An explicitly empty "__" segment is refused: the line matches but the constructor raises the
    * ValueError for an empty configuration name.
    */
  lemma ParseEmptyName(gen: string, lsp: string, rsp: string, value: string)
    requires RoundTrippable(gen)
    requires IsSpTabs(lsp) && IsSpTabs(rsp)
    requires ReadableValue(value)
    ensures FromMakefile(CfgPrefix + gen + "__" + lsp + "=" + rsp + value) == Rejected(EmptyConfigName)
  {
    var line := CfgPrefix + gen + "__" + lsp + "=" + rsp + value;
    var w := Joined(gen, Some(""));
    assert w == gen + "__";
    assert line == CfgPrefix + w + lsp + "=" + (rsp + value);
    LineOf(w, lsp, rsp + value);
    ValueOf(rsp, value);
    SplitJoined(gen, Some(""));
  }

  /**
    * Round trip: reading back the canonical rendering of an entry the program built, and the line
    * str() writes for it (what _regenerate puts in the Makefile), gives the same generator, name and
    * parameters; the entry read back remembers its line as its source.
    */
  lemma ParseCanonical(c: BuildConfig)
    requires c.source == None
    requires RoundTrippable(c.generator) && NameRoundTrippable(c.configName)
    requires IsStripped(c.params) && '\n' !in c.params
    ensures FromMakefile(Render(c)) == Parsed(c.(source := Some(Render(c))))
    ensures FromMakefile(Str(c)) == Parsed(c.(source := Some(Str(c))))
  {
    var ws := if c.params == "" then "" else " ";
    assert ReadableValue(c.params) by {
      assert c.params != [] ==> SkipSpTab(c.params, 0) == 0;
    }
    StripIdentity(c.params);
    RenderShape(c);
    ParseSpacedLine(c.generator, c.configName, " ", " ", c.params, "");
    StrShape(c);
    ParseSpacedLine(c.generator, c.configName, " ", ws, c.params, "\n");
  }

  /** _render of an entry without a source line, cut into the pieces of a configuration line. */
  lemma RenderShape(c: BuildConfig)
    requires c.source == None
    ensures Render(c) == CfgPrefix + c.generator + NameSuffix(c.configName) + " " + "=" + " " + c.params + ""
  {
  }

  /** str() of such an entry: the trailing space of empty params is dropped and one newline added. */
  lemma StrShape(c: BuildConfig)
    requires c.source == None && IsStripped(c.params)
    ensures var ws := if c.params == "" then "" else " ";
            Str(c) == CfgPrefix + c.generator + NameSuffix(c.configName) + " " + "=" + ws + c.params + "\n"
  {
    var head := CfgPrefix + c.generator + NameSuffix(c.configName) + " " + "=";
    if c.params == [] {
      assert Render(c) == head + " ";
      RStripBlankSuffix(head, " ");
      assert RStrip(Render(c)) == head;
    } else {
      assert Render(c) == head + " " + c.params;
      assert RStrip(Render(c)) == Render(c);
    }
  }


  /**
    * A value part the pattern accepts holds no newline except one at its very end, and the value it
    * gives, stripped, is the whole value part stripped.
    */
  lemma MatchValueStrip(r: string)
    requires MatchValue(r).Some?
    ensures forall i :: 0 <= i < |r| - 1 ==> r[i] != '\n'
    ensures Strip(MatchValue(r).value.GetOr("")) == Strip(r)
  {
    if r != [] && r[|r| - 1] == '\n' {
      var x := r[..|r| - 1];
      MatchLineStrip(x);
      assert r == x + "\n";
      StripPadded([], x, "\n");
      assert [] + x + "\n" == r;
    } else {
      MatchLineStrip(r);
    }
  }

  /** Text the value pattern matches to its end holds no newline, and its value stripped is the text stripped. */
  lemma MatchLineStrip(x: string)
    requires MatchLine(x).Some?
    ensures '\n' !in x
    ensures Strip(MatchLine(x).value.GetOr("")) == Strip(x)
  {
    var a := SkipSpTab(x, 0);
    if a < |x| && !IsSpace(x[a]) {
      var e := |RStripSpTab(x)|;
      var g := x[a..e];
      assert '\n' !in g;
      LineParts(x, a, e);
      StripPadded(x[..a], g, x[e..]);
    } else {
      assert IsSpTabs(x);
      assert IsBlank(x);
    }
  }

  /** x cut at a and e, where both outer parts are spaces and tabs. */
  lemma LineParts(x: string, a: nat, e: nat)
    requires a <= e <= |x|
    requires forall k :: 0 <= k < a ==> IsSpTab(x[k])
    requires forall k :: e <= k < |x| ==> IsSpTab(x[k])
    ensures x == x[..a] + x[a..e] + x[e..]
    ensures IsBlank(x[..a]) && IsBlank(x[e..])
    ensures '\n' !in x[a..e] ==> '\n' !in x
  {
    assert x == x[..a] + x[a..e] + x[e..];
  }

  /**
    * Converse of the readings above: a line the pattern matches is "CFG__", a word, spaces or tabs,
    * "=" and a rest that holds no newline except possibly a final one and whose value part the
    * pattern accepts. The line raises exactly when the word's "__" is followed by nothing, and
    * otherwise the entry has the word's two groups and the rest stripped as params.
    */
  lemma MatchedLine(line: string) returns (w: string, lsp: string, rest: string)
    requires !FromMakefile(line).NoMatch?
    ensures line == CfgPrefix + w + lsp + "=" + rest
    ensures w != [] && IsWord(w) && IsSpTabs(lsp) && MatchValue(rest).Some?
    ensures forall i :: 0 <= i < |rest| - 1 ==> rest[i] != '\n'
    ensures FromMakefile(line).Rejected? <==> SplitWord(w).1 == Some("")
    ensures FromMakefile(line).Parsed? ==>
              FromMakefile(line).config == BuildConfig(SplitWord(w).0, SplitWord(w).1, Strip(rest), Some(line))
  {
    w, lsp, rest := CutLine(line);
    MatchValueStrip(rest);
    var (gen, name) := SplitWord(w);
    WordParts(gen, name);
  }

  /** A matched line cut after its word characters and after its "=". */
  lemma CutLine(line: string) returns (w: string, lsp: string, rest: string)
    requires !FromMakefile(line).NoMatch?
    ensures line == CfgPrefix + w + lsp + "=" + rest
    ensures w != [] && IsWord(w) && IsSpTabs(lsp) && MatchValue(rest).Some?
    ensures FromMakefile(line) == ConfigOf(w, MatchValue(rest).value, line)
  {
    var s := line[|CfgPrefix|..];
    var n := WordLen(s);
    var tail := s[n..];
    var i := SkipSpTab(tail, 0);
    assert line == CfgPrefix + s by {
      SplitAt(line, |CfgPrefix|);
    }
    assert n > 0 && MatchTail(tail).Some? by {
      PrefixedLine(s);
    }
    w, lsp, rest := s[..n], tail[..i], tail[i + 1..];
    assert s == w + tail by {
      SplitAt(s, n);
    }
    assert tail == lsp + "=" + rest by {
      SplitAround(tail, i);
    }
    Glue(line, CfgPrefix, s, w, tail, lsp, rest);
    LineOf(w, lsp, rest);
  }


  lemma SplitAt(x: string, k: nat)
    requires k <= |x|
    ensures x == x[..k] + x[k..]
  {
  }

  lemma SplitAround(x: string, k: nat)
    requires k < |x|
    ensures x == x[..k] + [x[k]] + x[k + 1..]
  {
  }

  lemma Glue(line: string, p: string, s: string, w: string, tail: string, lsp: string, rest: string)
    requires line == p + s && s == w + tail && tail == lsp + "=" + rest
    ensures line == p + w + lsp + "=" + rest
  {
  }

}
