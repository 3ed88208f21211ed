# halide-generator configuration store, modelled in Dafny

halide-generator keeps the build settings of Halide generators in a project `Makefile`, one
variable per configuration:

    CFG__<generator>[__<configuration>] = <generator parameters>

This project models the Python code that reads these lines out of the Makefile's line array and
keeps an index from generator to configuration to entry. The code classifies entries as valid or
invalid, mutates the index, and splices a regenerated block back into the lines without
disturbing the rest of the file. The repository holds two versions of this store: the current one
in `src/makefile.py` and an older one in `src/project.py`. A small text-table formatter
(`src/formatting.py`) is modelled as well.

Modules (one file each):

- `Wrappers` holds `Option` and `Result`, which model a `None` result or a raised `ValueError`.
- `Text` holds string helpers that mirror Python's `str` methods: `strip`, `rstrip`, `join`,
  `str(n)` and clamped slicing.
- `Dicts` models an insertion-ordered Python `dict` as a sequence of pairs.
- `Sorting` models a stable sort on string keys.
- `MakefileLine` is the `BuildConfig` of `src/makefile.py`. Its line pattern is replaced by a
  matcher written by hand that gives the same groups.
- `MakefileScan` is what `Makefile._parse_makefile` computes, as functions of the lines and the
  known generator names.
- `MakefileStore` covers `interpose`, `_linearize_index`, `_regenerate` and the four mutators, as
  state transitions. It also holds the `Makefile` class, whose methods perform them in place on its
  fields and whose loops are proved equal to those functions.
- `ProjectLine` is the `BuildConfig` of `src/project.py`. Its line pattern is modelled as the
  backtracking search that Python's `re` module performs.
- `ProjectStore` is the `ProjectMakefile` of `src/project.py`, with the same split into functions,
  loop methods and a class.
- `ProjectParse` proves what `ProjectMakefile._parse_makefile` computes: later lines win, which
  entries end on the invalid list, how the two lists' lengths relate to the run, and where the
  landmark insertion point falls.
- `Formatting` is the `Table` class of `src/formatting.py`. Its loops (`_format_rule` over a
  character array, `__str__` over the rows) are methods proved against specification functions.

Inputs the Python code gets from the environment become parameters:

- The Makefile's lines are what `readlines()` returns.
- The known generators are what the `glob` of `*.gen.cpp` yields: bare generator names for
  `src/makefile.py`, and file names for `src/project.py`.

`has_generator` and `get_generators` are modelled as `HasGenerator` (membership in the index's
keys) and `GetGenerators` (the two lists) on both classes. `ProjectMakefile.lines()` is modelled
as `Lines()`. These read fields and promise nothing further, so they carry no contract of their
own.

Behaviour worth knowing:

- A run closed by a non-blank, non-matching line ends at `last_cfg + 1`, so blank lines after its
  last match are left out. A run that lasts to the end of the file keeps them (`cfg_end` stays the
  line count) (`MakefileScan.ParseRun`).
- `src/project.py` rebuilds `_index` after the defaults are added, as a `defaultdict` filled from
  the valid list. Its `_regenerate` does not sort and writes no blank separator lines. Its
  `_parse_makefile` never raises. `_regenerate` calls it only for its effect on the bounds and
  the index, so `_gens` and `_invalid` keep the values of the first parse, plus whatever
  `add_configuration` appended.
- `add_configuration` in `src/project.py` looks the generator up in the `defaultdict`. An unknown
  generator therefore gets a new bucket instead of an error (`ProjectStore.AddConfigurationEffect`).

## Model

| member | source | states |
|---|---|---|
| MakefileLine.NewBuildConfig | src/makefile.py:22-30 | raises the nameless-generator error exactly when the generator is empty, and the empty-name error exactly when the name is `''`; otherwise keeps generator, name and source, and params is `value` stripped (`''` for None) |
| MakefileLine.GeneratorEnd | src/makefile.py:20 | the lazy first group `(\w+?)` stops at the first `__` at or after its minimum length, or takes the whole word when there is none |
| MakefileLine.MatchValue | src/makefile.py:20 | a matched value group starts with a non-whitespace character and holds no newline |
| MakefileLine.FromMakefile | src/makefile.py:33-38 | a line not starting with `CFG__` gives None; the only error is the empty-name ValueError; a parsed entry keeps the line as its source, has a non-empty word generator, a None or non-empty word name, and stripped params |
| MakefileLine.SplitWord | src/makefile.py:20 | groups 1 and 2 split the word after `CFG__` so that they join back to it, with a non-empty generator |
| MakefileLine.SplitJoined | src/makefile.py:20 | for a word generator without `__` that does not end in `_`, splitting the joined word gives back the generator and the name |
| MakefileLine.ValueOf | src/makefile.py:20 | spaces or tabs after `=` followed by a readable value match, and the stripped group equals the stripped value |
| MakefileLine.MatchValueEol | src/makefile.py:20 | `$` also matches before one final newline: a value part without newlines matches the same with `'\n'` after it |
| MakefileLine.MatchedLine | src/makefile.py:20-38 | a line the pattern matches is `CFG__`, a word, spaces or tabs, `=` and a one-line rest; it raises exactly when the word ends in an empty `__` segment, and otherwise the entry has the word's two groups and the stripped rest |
| MakefileLine.Str | src/makefile.py:43-50 | `str()` ends in exactly one newline, the character before it is not whitespace, and the rest is the rendering with only trailing whitespace removed |
| MakefileLine.Render | src/makefile.py:46-50 | a non-empty source is rendered verbatim; otherwise the line starts with `CFG__` and the generator and ends with `' = '` and the params (`ParseCanonical` reads it back) |
| MakefileLine.ParseSpacedLine | src/makefile.py:20-38 | a line with any spaces or tabs around `=`, a round-trippable generator, no name or a word name, and a readable value, with or without the final newline, parses to that generator, name and stripped value |
| MakefileLine.ParseEmptyName | src/makefile.py:20-26 | a line with an explicit empty `__` segment matches but raises the empty-name ValueError |
| MakefileLine.ParseCanonical | src/makefile.py:43-50 | reading back the canonical rendering of a built entry, and the line `str()` writes for it, gives the same generator, name and params, with the line read as source |
| MakefileScan.RemoveFirst | src/makefile.py:180 | `list.remove` drops one occurrence: nothing new appears, every other element stays, and the length drops by one exactly when the element was present |
| MakefileScan.InitialIndex | src/makefile.py:149-151 | the initial table has exactly the known generators as keys, once each, with empty buckets |
| MakefileScan.Record | src/makefile.py:172-184 | recording one matched entry only appends to the invalid list, by at most one entry, and the entry lands on the valid list or is itself appended to the invalid list |
| MakefileScan.Classify | src/makefile.py:157-187 | recording the run's entries one after another adds at most one invalid entry per entry and never shrinks the invalid list |
| MakefileScan.RecordConsistent | src/makefile.py:172-184 | recording one matched entry keeps the valid list equal to the index's entries, once each and filed under their own pair, and adds no generator |
| MakefileScan.RecordIndex | src/makefile.py:182 | filing an entry changes the index at its own (generator, name) pair only |
| MakefileScan.ClassifyLookup | src/makefile.py:173-183 | after the run, the entry filed under a pair of a known generator is the last matched entry with that pair, or what was there before |
| MakefileScan.InvalidGrows | src/makefile.py:173-183 | entries on the invalid list stay there |
| MakefileScan.UnknownIsInvalid | src/makefile.py:173-175 | a matched entry for an unknown generator ends on the invalid list |
| MakefileScan.OverriddenIsInvalid | src/makefile.py:177-181 | an entry whose pair a later matched line repeats ends on the invalid list |
| MakefileScan.ClassifyCount | src/makefile.py:173-183 | every matched entry lands on exactly one of the two lists |
| MakefileScan.StepErrors | src/makefile.py:168 | a scan step raises exactly on a line whose entry is rejected, and the error is the empty-name ValueError |
| MakefileScan.ScanStep | src/makefile.py:157-187 | once the run is closed, a step leaves its end and the tally alone |
| MakefileScan.ScanErrors | src/makefile.py:157-187 | the scan succeeds exactly when no line is rejected |
| MakefileScan.DefaultsEffect | src/makefile.py:190-194 | the defaults fill exactly the empty buckets of the known generators with (g, None, ''), append them to the valid list, and change nothing else |
| MakefileScan.DefaultsError | src/makefile.py:189-194 | the default loop raises only the nameless-generator error, and (on a consistent tally) exactly when `''` is a known generator with an empty bucket |
| MakefileScan.AddDefaults | src/makefile.py:190-194 | when the default loop succeeds it leaves the invalid list alone and only appends to the valid list |
| MakefileScan.Parse | src/makefile.py:138-201 | after a parse `cfg_start <= cfg_end <= len(lines)` and `after_comment <= len(lines)` |
| MakefileScan.ParseRun | src/makefile.py:169-187 | the run starts at the first matching line, holds only matching and blank lines, and a closed run ends just after a match and is closed by the first non-blank, non-matching line; blank lines never close it |
| MakefileScan.ParseLandmark | src/makefile.py:156-166 | when set, the insertion point is a blank or non-comment line, and every line between it and the first `# Configure generators` line is a non-blank comment; when unset, no blank or non-comment line follows any `# Configure generators` line |
| MakefileScan.ParseErrors | src/makefile.py:138-201 | the parse raises exactly when some line has an explicit empty name or `''` is a known generator without entries |
| MakefileScan.ParseIndex | src/makefile.py:190-196 | after a parse the index has exactly the known generators, each with at least one entry, consistent with the valid list |
| MakefileScan.ParseDefaults | src/makefile.py:190-194 | a known generator with no matched line in the run gets exactly one entry, (g, None, '') |
| MakefileScan.ParseLastWins | src/makefile.py:177-183 | for a known generator, the entry filed under a pair is the one from the last matching line of the run with that pair |
| MakefileScan.ParseInvalid | src/makefile.py:173-181 | every run entry for an unknown generator, and every entry a later run line overrides, is on the invalid list |
| MakefileStore.Interposed | src/makefile.py:10-16 | the elements appear in order at the even positions, the separator at every odd position, and the length is `2n - 1` (0 for no elements) |
| MakefileStore.Interpose | src/makefile.py:10-16 | the generator loop with its `past_start` flag yields exactly `Interposed` |
| MakefileStore.InterposedEnds | src/makefile.py:10-16 | the separator is never first or last |
| MakefileStore.Groups | src/makefile.py:205-209 | at most one group per bucket; `GroupsComplete` and `LinearizeSorted` state which buckets become groups and how each is sorted |
| MakefileStore.GroupsComplete | src/makefile.py:205-209 | every bucket that is not a lone `''` default with empty params contributes its entries, sorted by name, as a group |
| MakefileStore.Linearize | src/makefile.py:203-211 | a successful linearisation is a permutation of the groups, and every group in it is non-empty, so `grp[0]` is defined |
| MakefileStore.LinearizeIndex | src/makefile.py:203-211 | the loop and sort of `_linearize_index` compute `Linearize` |
| MakefileStore.LinearizeErrors | src/makefile.py:209-210 | linearising fails (IndexError on `grp[0]`) exactly when some generator has no entries |
| MakefileStore.LinearizeSorted | src/makefile.py:209-210 | the groups are sorted by generator, the entries of each group by `config_name or ''`, and each group is a permutation of an emitted bucket |
| MakefileStore.LinearizeComplete | src/makefile.py:205-209 | every bucket that is not a lone empty default is emitted |
| MakefileStore.EntryLine | src/makefile.py:124 | `str(x).rstrip() + '\n'` of an entry is `str(x)` |
| MakefileStore.BlockLinesSeparated | src/makefile.py:124-126 | the new block is the groups' entry lines in order, with exactly one `'\n'` line between consecutive groups and none first or last |
| MakefileStore.RenderItems | src/makefile.py:124-126 | the inner comprehension loop gives one stripped line per item |
| MakefileStore.RenderBlock | src/makefile.py:123-126 | the comprehension over the interposed groups computes `BlockLines` |
| MakefileStore.SpliceAt | src/makefile.py:128-133 | the splice point lies within the lines |
| MakefileStore.Spliced | src/makefile.py:128-135 | the lines before the splice point and after the replaced range are kept, and the block lies between them |
| MakefileStore.Reparse | src/makefile.py:136-201 | `_parse_makefile` leaves the lines alone and assigns the parsed fields, or raises and assigns nothing |
| MakefileStore.Regenerated | src/makefile.py:122-136 | when linearising raises, nothing changes; when the regenerate succeeds, the linearisation and the parse of the new lines both succeeded |
| MakefileStore.RegeneratedFrame | src/makefile.py:122-135 | `_regenerate` keeps the lines before the splice point and after the replaced range, with the sorted, separated block between them, whether or not the parse that follows succeeds |
| MakefileStore.RegeneratedLines | src/makefile.py:122-135 | the regenerated lines are the block of the linearised index spliced in |
| MakefileStore.RegeneratedOk | src/makefile.py:122-136 | a regenerate whose linearisation succeeds is a parse of the spliced lines |
| MakefileStore.RegeneratedParsed | src/makefile.py:122-136 | after a successful regenerate every field is what parsing the new lines gives |
| MakefileStore.AddGeneratorEdit | src/makefile.py:80-84 | `add_generator` changes only the index, and succeeds exactly for a new, non-empty name |
| MakefileStore.AddGeneratorEffect | src/makefile.py:80-84 | `add_generator` raises exactly when the generator exists; otherwise it changes only the index, filing (name, None, '') under `''`; an empty name leaves an empty bucket |
| MakefileStore.AddConfigurationEdit | src/makefile.py:86-96 | `add_configuration` raises for an unknown generator; otherwise, when it succeeds, it changes only the index and the valid list, which grows by one entry |
| MakefileStore.AddConfigurationEffect | src/makefile.py:86-97 | `add_configuration` raises on an unknown generator or an existing name, and always for `'(default)'` and `''`; otherwise it files (gen, name, stripped params), appends it to the valid list, and changes no other pair and no line |
| MakefileStore.AddConfigurationEditOf | src/makefile.py:89-96 | once the checks pass, the outcome is decided by the BuildConfig constructor |
| MakefileStore.AddConfigurationRegenerates | src/makefile.py:94-97 | a successful add_configuration is the edit followed by `_regenerate` |
| MakefileStore.DeleteGeneratorEdit | src/makefile.py:102-105 | `delete_generator` raises exactly for an unknown generator; otherwise it changes only the index, which no longer has the generator |
| MakefileStore.DeleteGeneratorEffect | src/makefile.py:102-106 | `delete_generator` raises exactly when the generator is absent; otherwise it drops exactly that generator |
| MakefileStore.DeleteConfigurationEdit | src/makefile.py:108-119 | `delete_configuration` changes only the index, and only succeeds for a known generator with at least two entries |
| MakefileStore.DeleteConfigurationEffect | src/makefile.py:108-120 | `delete_configuration` raises when the generator or configuration is absent (`'(default)'` naming the None key) or when it is the only entry; otherwise it removes exactly that key and leaves a non-empty bucket |
| MakefileStore.RegeneratedWellFormed | src/makefile.py:122-136 | regenerating keeps the index well formed: generators once each, names once each, every entry under its own generator |
| MakefileStore.AddGeneratorWellFormed | src/makefile.py:80-84 | add_generator keeps the index well formed |
| MakefileStore.AddConfigurationWellFormed | src/makefile.py:86-97 | add_configuration keeps the index well formed |
| MakefileStore.DeleteGeneratorWellFormed | src/makefile.py:102-106 | delete_generator keeps the index well formed |
| MakefileStore.DeleteConfigurationWellFormed | src/makefile.py:108-120 | delete_configuration keeps the index well formed |
| MakefileStore.ParsedWellFormed | src/makefile.py:138-201 | a parsed index is well formed |
| MakefileStore.OpenIsParse | src/makefile.py:54-68 | the first `_regenerate` of `__init__` splices nothing in, so opening a Makefile is parsing its lines |
| MakefileStore.ScanErrSticks | src/makefile.py:157-187 | once a line raises, the scan's outcome is that error |
| MakefileStore.DefaultsErrSticks | src/makefile.py:190-194 | once a default raises, the default loop's outcome is that error |
| MakefileStore.NewTable | src/makefile.py:149-151 | the table loop builds `InitialIndex` |
| MakefileStore.FileConfig | src/makefile.py:172-184 | the branch on the generator table computes `Record` |
| MakefileStore.ScanLine | src/makefile.py:157-187 | the body of the line loop computes `ScanStep` |
| MakefileStore.ScanLines | src/makefile.py:157-187 | the line loop computes the scan over all lines, or the error a line raises |
| MakefileStore.FillDefaults | src/makefile.py:190-194 | the default loop computes `AddDefaults` |
| MakefileStore.Makefile.Init | src/makefile.py:54-67 | the fields `__init__` sets before it regenerates: all bounds at the end of the lines, empty index and lists |
| MakefileStore.Makefile.Open | src/makefile.py:54-68 | a Makefile can be made exactly when its lines parse, raises the parse's error otherwise, and then holds the parsed fields with a well-formed index |
| MakefileStore.Makefile.ParseMakefile | src/makefile.py:138-201 | the fields become `Reparse` of the old state, and the index stays well formed |
| MakefileStore.Makefile.Regenerate | src/makefile.py:122-136 | the fields become `Regenerated` of the old state, and the index stays well formed |
| MakefileStore.Makefile.AddGenerator | src/makefile.py:80-84 | the fields become `AddGeneratorEdit` of the old state |
| MakefileStore.Makefile.AddConfiguration | src/makefile.py:86-97 | the fields become the checked edit followed by the regenerate, or stay unchanged with the error |
| MakefileStore.Makefile.DeleteGenerator | src/makefile.py:102-106 | the fields become the checked deletion followed by the regenerate, or stay unchanged with the error |
| MakefileStore.Makefile.DeleteConfiguration | src/makefile.py:108-120 | the fields become the checked deletion followed by the regenerate, or stay unchanged with the error |
| Sorting.SortBy | src/makefile.py:209-210 | the sorted list is a permutation of the input, ordered by the key |
| Dicts.Put | src/makefile.py:96 | `d[k] = v` makes `k` map to `v` and keeps every other key's value |
| Dicts.PutKeys | src/makefile.py:96 | assigning an existing key keeps the key order; a new key goes last |
| Dicts.Del | src/makefile.py:105-119 | `del d[k]` removes exactly the key `k` |
| ProjectLine.NewBuildConfig | src/project.py:24-29 | a missing or empty generator, name or value becomes `''`, and a given one is kept; source and line number are kept |
| ProjectLine.EqScan | src/project.py:34 | the lazy `.*?=\s*(.*?)\s*$` gives a stripped third group with no newline |
| ProjectLine.TryNames | src/project.py:34 | the optional `__(\w+)?` name is non-empty and a word when it takes part |
| ProjectLine.TryAt | src/project.py:34 | the alternatives `\s` or `__(\w+)?` after a first group give a non-empty word name or none, and stripped params |
| ProjectLine.Search | src/project.py:34 | the lazy first group is a non-empty word |
| ProjectLine.FromMakefile | src/project.py:32-37 | a line not starting with `CFG__` gives None; a match has a non-empty word generator, an empty or word name, and stripped params without a newline |
| ProjectLine.Str | src/project.py:42-49 | `str()` ends in exactly one newline after the rendering with its trailing whitespace removed |
| ProjectLine.Render | src/project.py:45-49 | a non-empty source is rendered verbatim; otherwise the line starts with `CFG__` and the generator and ends with `' = '` and the params (`ParseCanonical` reads it back) |
| ProjectLine.NoEarlyMatch | src/project.py:34 | inside a generator word without `__` that does not end in `_`, no shorter first group matches |
| ProjectLine.FromMakefileMatches | src/project.py:32-37 | `from_makefile` gives an entry exactly when the line starts with `CFG__` and the pattern can match the text after it at some split |
| ProjectLine.FromMakefileGroups | src/project.py:32-37 | a matched entry's generator is the word before the separator, its name the word after `__` (`''` when there is none), and its params the stripped rest after the `=` where the match stops |
| ProjectLine.ParseLine | src/project.py:32-37 | a line `CFG__`, a round-trippable generator, a whitespace or `__` name separator, text without `=` or newline, `=` and a padded value reads as that generator, name and stripped value |
| ProjectLine.ParseCanonical | src/project.py:32-49 | reading back the line `str()` writes for an entry the program built gives its generator, name and params, with that line as source and the given line number |
| ProjectStore.RStripChars | src/project.py:81 | `str.rstrip(chars)` drops the longest suffix made of characters in the set and keeps the prefix |
| ProjectStore.GlobNameAsWritten | src/project.py:81 | as written, the name is a prefix of the file name that does not end in any of the characters of `.gen.cpp` |
| ProjectStore.GlobNameAsWrittenLosesLetters | src/project.py:81 | as written, `pipe.gen.cpp` gives the generator name `pi`, not `pipe` |
| ProjectStore.GlobNameAsWrittenOf | src/project.py:81 | as written, a stem survives exactly when it is empty or its last letter is outside `.gencp` |
| ProjectStore.GeneratorName | src/project.py:80-82 | the corrected name drops the eight-character suffix: it has the file's length minus eight and is the file's prefix |
| ProjectStore.GeneratorNameOf | src/project.py:80-82 | the corrected name of `stem + ".gen.cpp"` is `stem` for every stem |
| ProjectStore.GeneratorNames | src/project.py:80-82 | one name per file, in listing order |
| ProjectStore.RemoveFirst | src/project.py:110 | `list.remove` drops one occurrence and nothing else |
| ProjectStore.Record | src/project.py:102-114 | recording one matched entry only appends to the invalid list, by at most one entry, and the entry lands on the valid list or is itself appended to the invalid list |
| ProjectStore.RecordEffect | src/project.py:102-114 | an unknown generator's entry goes to the invalid list and nothing else moves; a known one is filed under its pair and appended to the valid list, and the entry it replaces goes to the invalid list; other pairs are unchanged |
| ProjectStore.InitialIndex | src/project.py:80-82 | the initial table has exactly the known generators as keys, with empty buckets |
| ProjectStore.Parse | src/project.py:68-133 | `cfg_start <= cfg_end <= len(lines)` and `after_comment <= len(lines)` |
| ProjectStore.ScanStep | src/project.py:87-117 | a blank line leaves the run and the tally alone; a set run start never moves; once the run is closed, its end and the tally stay |
| ProjectStore.StepShape | src/project.py:87-117 | one step: a non-matching line keeps the tally and closes an open run after its last match when it is not blank; a matching line is not blank and is recorded exactly while the run is open |
| ProjectStore.StepRun | src/project.py:87-117 | one iteration of the line loop keeps the run invariant |
| ProjectStore.ScanRun | src/project.py:87-117 | the run invariant holds after every prefix of the lines |
| ProjectStore.ParseRun | src/project.py:98-117 | the run starts at the first configuration line and is empty when there is none; it holds only configuration and blank lines; a closed run ends just after a configuration line, and the first non-blank line after it that is not a configuration closed it |
| ProjectStore.FinalRun | src/project.py:98-117 | once every line is scanned, the run invariant gives the run facts of `ParseRun` |
| ProjectStore.DefaultsCovered | src/project.py:120-123 | after the defaults, every known generator has a non-empty bucket with a matching entry on the valid list |
| ProjectStore.AddDefaults | src/project.py:120-123 | the default loop leaves the invalid list alone and only appends to the valid list |
| ProjectStore.Reindex | src/project.py:125-127 | every valid entry's generator is a key of the rebuilt index |
| ProjectStore.ReindexLookup | src/project.py:125-127 | the rebuilt index files under each pair the last valid entry with that pair, and nothing under other pairs |
| ProjectStore.ParseCovers | src/project.py:79-127 | after a parse every generator of the directory is a key of the index, so `has_generator` holds for it |
| ProjectStore.Strs | src/project.py:173 | `map(str, ...)` gives one `str()` per entry, in order |
| ProjectStore.Block | src/project.py:168-173 | every line of the block ends in a newline |
| ProjectStore.BlockSnoc | src/project.py:168-173 | the block of an index with one more bucket is the old block followed by that bucket's lines, unless it is a lone default |
| ProjectStore.BlockHas | src/project.py:168-173 | every entry of a bucket that is not a lone empty default is written into the block |
| ProjectStore.BlockOnly | src/project.py:168-173 | every line of the block is `str()` of an entry of such a bucket |
| ProjectStore.SpliceStart | src/project.py:156-163 | the splice range starts at the run when `cfg_start < len`, else at the landmark when `after_comment < len`, else at the end, and lies within the lines |
| ProjectStore.Spliced | src/project.py:165-175 | `prefix + cfgs + suffix` keeps the lines outside the splice range and puts the block between them |
| ProjectStore.ReparsedSound | src/project.py:129-131 | after any parse, the bounds lie within the lines and every directory generator is indexed |
| ProjectStore.RegeneratedFrame | src/project.py:155-176 | `_regenerate` keeps the lines outside the splice range, puts the block between, re-reads bounds and index from the new lines, and leaves `_gens` and `_invalid` unchanged |
| ProjectStore.Regenerated | src/project.py:155-176 | `_regenerate` keeps `_gens` and `_invalid`, and leaves the bounds within the lines and every directory generator indexed |
| ProjectStore.AddGeneratorEdit | src/project.py:138-141 | `add_generator` raises exactly when the name is indexed, and changes nothing but the index |
| ProjectStore.AddConfigurationEdit | src/project.py:147-152 | `add_configuration` raises exactly when the pair is indexed; otherwise it changes only the index and `_gens`, which grows by one entry |
| ProjectStore.AddGeneratorEffect | src/project.py:138-141 | `add_generator` raises exactly when the generator is indexed; otherwise it gains a lone `''` default, and no other generator or line changes |
| ProjectStore.AddConfigurationEffect | src/project.py:147-152 | `add_configuration` raises exactly when the pair is indexed; otherwise the new entry is filed under its pair (a missing generator gains a bucket), appended to `_gens`, and no other pair or line changes |
| ProjectStore.AddConfigurationEditOf | src/project.py:147-152 | the success case of `add_configuration`, spelled out |
| ProjectStore.AddConfigurationRegenerates | src/project.py:147-153 | a successful `add_configuration` is the edit followed by `_regenerate` |
| ProjectStore.AddedBucketShown | src/project.py:171-173 | a bucket that gained a new entry is written out unless it is a lone `''` default with empty params |
| ProjectStore.BlockLineWritten | src/project.py:165-175 | each block line is a line of the regenerated Makefile |
| ProjectStore.AddConfigurationWrites | src/project.py:147-176 | an added configuration's `str()` line is in the regenerated Makefile, unless it is a lone default with empty params in a new bucket |
| ProjectStore.EntryWritten | src/project.py:168-176 | an entry of a bucket that is not a lone default is written by the regenerate |
| ProjectStore.NewTable | src/project.py:80-82 | the glob loop builds `InitialIndex` of the generator names |
| ProjectStore.FileConfig | src/project.py:102-114 | the branch on the generator table computes `Record` |
| ProjectStore.ScanLine | src/project.py:88-117 | the body of the line loop computes `ScanStep` |
| ProjectStore.ScanLines | src/project.py:87-117 | the line loop computes the scan over all lines |
| ProjectStore.FillDefaults | src/project.py:120-123 | the default loop computes `AddDefaults` |
| ProjectStore.RebuildIndex | src/project.py:125-127 | the `defaultdict` loop computes `Reindex` |
| ProjectStore.RenderBlock | src/project.py:168-173 | the `cfgs` loop computes `Block` |
| ProjectStore.ProjectMakefile.constructor | src/project.py:53-60 | the object holds the lines and every field the first parse gives, and every directory generator is indexed |
| ProjectStore.ProjectMakefile.ParseMakefile | src/project.py:68-133 | bounds and index follow the lines, `_gens` and `_invalid` stay, and the two returned lists are the parse's |
| ProjectStore.ProjectMakefile.Regenerate | src/project.py:155-176 | the fields become `Regenerated` of the old state, and every directory generator stays indexed |
| ProjectStore.ProjectMakefile.AddGenerator | src/project.py:138-141 | the fields become `AddGeneratorEdit` of the old state |
| ProjectStore.ProjectMakefile.AddConfiguration | src/project.py:147-153 | the fields become the checked edit followed by the regenerate, or stay unchanged with the error |
| ProjectParse.MatchedConfigs | src/project.py:87-98 | the entries of the matching lines among the first n, in order, are at most n |
| ProjectParse.MatchedSkip | src/project.py:87-98 | lines that do not match add no entries |
| ProjectParse.Classify | src/project.py:102-114 | recording entries one after another adds at most one invalid entry per entry and never shrinks the invalid list |
| ProjectParse.ClassifyKeys | src/project.py:102-114 | recording never adds or drops a generator of the table |
| ProjectParse.ClassifyLookup | src/project.py:102-114 | later lines win: for a generator of the table, the entry filed under a pair is the last recorded entry with that pair; other pairs keep what they had |
| ProjectParse.InvalidGrows | src/project.py:102-114 | entries on the invalid list stay there |
| ProjectParse.UnknownIsInvalid | src/project.py:103-105 | a recorded entry for a generator outside the table ends on the invalid list |
| ProjectParse.RecordDemotes | src/project.py:107-111 | recording an entry over one filed under the same pair moves that one to the invalid list |
| ProjectParse.OverriddenIsInvalid | src/project.py:107-113 | an entry whose pair a later recorded entry of a known generator repeats ends on the invalid list |
| ProjectParse.LastOf | src/project.py:125-127 | the last entry of a list filed under a pair, when there is one, is on the list and has that pair |
| ProjectParse.LastOfSnoc | src/project.py:126-127 | appending an entry with the pair makes it the last one; appending another leaves the last one as it was |
| ProjectParse.LastOfCons | src/project.py:110 | an entry in front only counts when no later entry has the pair |
| ProjectParse.RemoveOther | src/project.py:110 | removing an entry filed under another pair leaves the last entry under the pair as it was |
| ProjectParse.StartAgrees | src/project.py:77-82 | the starting table, with only empty buckets, agrees with the empty valid list |
| ProjectParse.RecordAgrees | src/project.py:102-114 | recording keeps every pair's table entry equal to the last valid entry with that pair |
| ProjectParse.ClassifyAgrees | src/project.py:102-114 | recording a sequence of entries keeps the table in agreement with the valid list |
| ProjectParse.ClassifyCount | src/project.py:102-114 | on an agreeing tally, every recorded entry lands on exactly one of the two lists |
| ProjectParse.DefaultAgrees | src/project.py:120-123 | adding one default keeps the table in agreement with the valid list |
| ProjectParse.DefaultsAgree | src/project.py:120-123 | the default loop keeps the table in agreement with the valid list |
| ProjectParse.DefaultsBucket | src/project.py:120-123 | after the defaults, each listed generator that had an empty bucket holds just its default under `''`; every other bucket and the invalid list are unchanged |
| ProjectParse.DefaultsLookup | src/project.py:120-123 | after the defaults, a lookup finds the default exactly where the bucket was empty |
| ProjectParse.TallyStep | src/project.py:87-117 | one line keeps the tally equal to the recorded entries of the lines classified so far |
| ProjectParse.TallyRecords | src/project.py:102-114 | a matching line while the run is open is recorded on top of the entries before it |
| ProjectParse.TallySkips | src/project.py:87-117 | a line that does not match adds no entry |
| ProjectParse.TallyCloses | src/project.py:116-117 | blank lines after the last match add nothing, so closing the run keeps the entries up to that match |
| ProjectParse.OpenTail | src/project.py:87-117 | while the run is open, only blank lines follow its last match |
| ProjectParse.ScanStepTally | src/project.py:87-117 | one step of the scan keeps the tally equal to the recorded entries of the classified lines |
| ProjectParse.ScanTally | src/project.py:87-117 | after the first i lines, the tally is the entries of the matching lines up to the run's end (or up to i while it is open), recorded in order |
| ProjectParse.LandmarkIsComment | src/project.py:93-95 | a `# Configure generators` line is itself a comment line |
| ProjectParse.StepComment | src/project.py:88-96 | one step: the landmark flag turns on at a `# Configure generators` line; the insertion point becomes this line exactly when the flag was already on, the point unset and the line blank or not a comment; otherwise it stays |
| ProjectParse.ScanComment | src/project.py:87-96 | the landmark state after every prefix of the lines: nothing is set before the first `# Configure generators` line; after it, the insertion point stays unset while only non-blank comments follow, then is the first blank or non-comment line |
| ProjectParse.PrefixComment | src/project.py:87-96 | the landmark state holds after the scan of any prefix of the lines |
| ProjectParse.CommentStep | src/project.py:88-96 | one line keeps the landmark state, given only how the step moves the flag and the insertion point |
| ProjectParse.ParseParts | src/project.py:68-133 | a parse is the scan over all lines, whose tally records the run's entries in order, then the defaults, then the index rebuilt from the valid list; table and valid list agree throughout |
| ProjectParse.IndexAgrees | src/project.py:125-127 | the rebuilt index finds what the table of an agreeing tally finds |
| ProjectParse.NoKeysEmpty | src/project.py:121 | a bucket in which no name is found is empty |
| ProjectParse.TallyNoEntries | src/project.py:102-114 | a directory generator that no recorded entry names keeps its empty bucket |
| ProjectParse.TallyHasEntry | src/project.py:102-114 | a directory generator that some recorded entry names ends with a non-empty bucket |
| ProjectParse.TallyLastWins | src/project.py:102-114 | before the defaults, a directory generator's lookup is the last recorded entry with the pair, and its bucket is empty exactly when no entry names it |
| ProjectParse.ScanLandmark | src/project.py:87-96 | after all lines, the insertion point is the first blank or non-comment line after the first `# Configure generators` line, or unset when there is none |
| ProjectParse.ParseLandmark | src/project.py:88-96 | when set, the insertion point is a blank or non-comment line, and every line between it and the first `# Configure generators` line is a non-blank comment; when unset, no blank or non-comment line follows any `# Configure generators` line |
| ProjectParse.ParseLastWins | src/project.py:98-127 | for a directory generator, the index files under (gen, name) the entry of the last matching line of the run with that pair; with none, only the default (gen, '', '') of a generator no run line names; other generators have nothing |
| ProjectParse.ParseInvalid | src/project.py:102-114 | every run entry for a generator outside the directory, and every run entry a later line of the run overrides, is on the invalid list |
| ProjectParse.ParseCount | src/project.py:102-123 | the invalid list is no longer than the run's entries, which are no more than the valid and invalid lists together |
| Formatting.Pad | src/formatting.py:85-88 | `'{:<{}}'.format(x, n)` keeps `x` whole and pads it with spaces to at least `n` characters, never truncating |
| Formatting.Cells | src/formatting.py:85-88 | each cell is padded to its column's size, and `zip` stops at the shorter list |
| Formatting.Blanks | src/formatting.py:91 | `[''] * n` |
| Formatting.FormatRow | src/formatting.py:83-88 | no cells give the empty row, and a single cell is its padded cell with no gutter |
| Formatting.Rule | src/formatting.py:90-98 | the rule is as wide as the all-empty row (the columns plus the gutters) and holds only `+` and `-` |
| Formatting.Translate | src/formatting.py:92-97 | the rule has `+` exactly under each `|` of a row and `-` everywhere else |
| Formatting.FormatRowSnoc | src/formatting.py:84-88 | a row with one more cell is the shorter row, the gutter, then the new padded cell |
| Formatting.RowLength | src/formatting.py:83-88 | a row whose cells fit their columns is exactly as wide as its columns plus the gutters between them |
| Formatting.RowPrefixWidth | src/formatting.py:83-88 | the first k columns of a fitting row end one gutter before column k starts |
| Formatting.RowCell | src/formatting.py:83-88 | in a fitting row, cell i, padded, sits at column i's offset |
| Formatting.FullRowWidth | src/formatting.py:83-92 | a full fitting row is exactly as wide as the rule |
| Formatting.MarkStep | src/formatting.py:95-97 | marking the `|` of one more gutter with `+` extends the finished part of the rule by that column and gutter |
| Formatting.MarkEnd | src/formatting.py:92-98 | the dashes after the last gutter complete the rule |
| Formatting.GutterFits | src/formatting.py:94-96 | every `rule[i] = '+'` of the loop is inside the rule |
| Formatting.GutterMarked | src/formatting.py:94-97 | one loop step takes a rule finished up to column k to one finished up to column k + 1 |
| Formatting.MarkGutter | src/formatting.py:94-97 | the array step of the loop: the rule is finished up to column k + 1 and dashes follow |
| Formatting.RuleDone | src/formatting.py:94-98 | once the loop has passed every gutter, the array holds exactly the rule |
| Formatting.RowLinesSnoc | src/formatting.py:113-116 | the lines of one more row are the earlier lines followed by that row's line |
| Formatting.AppendRows | src/formatting.py:113-116 | the row loop of `__str__` appends one line per row, numbered when numbers are shown |
| Formatting.Output | src/formatting.py:100-118 | the output before the final `rstrip` is empty exactly when there are no headers and no rows, and otherwise ends in a newline |
| Formatting.NumberedFits | src/formatting.py:103-115 | a fitting row with a first cell no wider than the number of rows still fits once numbered |
| Formatting.ColMaxBound | src/formatting.py:73-74 | no cell seen is wider than its column's maximum |
| Formatting.ColMaxAttained | src/formatting.py:73-74 | once anything is seen, each column's maximum is the length of some seen cell |
| Formatting.MaxSizes | src/formatting.py:73-74 | `_update_sizes` raises each size to the length of the cell in that column |
| Formatting.Table.constructor | src/formatting.py:55-61 | a new table has the given width and padding, zero sizes, no rows and no headers |
| Formatting.Table.EnsureWidth | src/formatting.py:76-81 | a table without a width takes the length of `args` with zero sizes; a table with a width keeps it and raises exactly when the length differs |
| Formatting.Table.Absorb | src/formatting.py:73-74 | the sizes become the column maxima over the longer history |
| Formatting.Table.AddRow | src/formatting.py:63-71 | a row of the table's width (or any row when there is no width yet) raises the sizes and is appended; no cells append a row of empty cells; any other width raises and changes nothing; the sizes stay the column maxima |
| Formatting.Table.SetHeaders | src/formatting.py:120-124 | headers of the table's width raise the sizes and replace the headers; a wrong width raises and changes nothing |
| Formatting.Table.RowFits | src/formatting.py:73-88 | every full row and the headers fit the column sizes |
| Formatting.Table.RowsAsWideAsRule | src/formatting.py:83-98 | every full row and the headers are exactly as wide as the rule |
| Formatting.Table.NumberedRowFits | src/formatting.py:102-116 | each line `__str__` writes for a full row fits its sizes: no row number is wider than `len(rows)` |
| Formatting.Table.NumberedHeadersFit | src/formatting.py:102-110 | the header line, with an empty cell over the row numbers, fits the same sizes |
| Formatting.Table.FormatRule | src/formatting.py:90-98 | the loop over a dash array that writes `+` at each gutter gives exactly the rule |
| Formatting.Table.ToString | src/formatting.py:100-118 | the output is the header line and rule (only when there are headers), then one numbered or plain line per row, with trailing whitespace stripped |

## Left out

- File input and output: `readlines` in the constructors and `save`. The lines are a parameter, and writing them back is not modelled.
- The `glob` of `*.gen.cpp`: the listing is a parameter, passed in listing order.
- `warn`, the debug `print`s in `delete_configuration` and `src/logging.py`. They only write to stderr.
- The `Project` class and `get_makefile` of `src/project.py`, the command-line layer, the prompts and the skeleton copying. These are outside the store.
- `expand_template` of `src/formatting.py`: it compiles and evaluates Python expressions.
- `update_configuration`: it is an empty stub.
- Unicode: `\w`, `\s` and `str.strip` use ASCII sets here. Word characters are ASCII letters, digits and `_`. Whitespace is the ASCII whitespace Python recognises, including `\x1c`-`\x1f`.
- Object identity: entries are values. `list.remove` drops the first equal entry, where Python drops the first entry that is equal by identity. Entries have no `__eq__`, and the removed entry is always the one on the list.
- Aliasing: the lists returned by `get_generators`, and the `_gens` list that `add_configuration` appends to, are values here, not shared Python lists.
- Formatting.Table: cells are strings. Python accepts any value and formats it with `str`; the row numbers, the only non-strings `__str__` produces, are modelled as `str(i)`.
- Formatting.Table: `colpadding` is a natural number. A negative padding would make the gutters empty strings in Python.
- Formatting.FormatRow: requires no more cells than sizes. With more, Python's `format` raises IndexError, but `__str__` and `_format_rule` never call it that way.
- Formatting.Table.ToString: `output` is assigned the header line and rule in one step rather than through two `+=` steps on an empty string. The resulting string is the same.
- Sorting.SortBy: the contract states sortedness and permutation but not stability. `SortBy` is stable by construction (an element goes before the first element whose key is not smaller), and stability only decides the order of entries with equal keys.
- ProjectStore.Parse: the generator names come from the corrected `GeneratorName` (the file name minus its eight-character `.gen.cpp` suffix), not from line 81's `rstrip('.gen.cpp')`. For a file such as `pipe.gen.cpp` the model indexes `pipe`, where the code as written indexes `pi` and so treats `CFG__pipe__x` lines as invalid. The as-written name is `GlobNameAsWritten`; see "## Findings".
- MakefileStore and ProjectStore: the known generators are fixed when the object is made. The directory is not listed again on each parse.

## Findings

| source | as written | input that shows it | evidently intended | confidence | as-written member | corrected member |
|---|---|---|---|---|---|---|
| src/project.py:81 | `os.path.basename(gen).rstrip('.gen.cpp')` strips every trailing character that belongs to the set `{., g, e, n, c, p}` | the file `pipe.gen.cpp` gives the generator name `pi` | drop the suffix `.gen.cpp` once, as `src/makefile.py:150` does with `[:-len('.gen.cpp')]` | high (not executed) | ProjectStore.GlobNameAsWrittenLosesLetters | ProjectStore.GeneratorNameOf |
