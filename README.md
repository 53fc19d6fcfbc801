# GES xml-converter, modelled in Dafny

GES xml-converter turns a set of XML documents into one table. Each document becomes one row
of the table, and each leaf of a document becomes one column. Its main use is Italian
electronic invoices. This project models the converter's core and proves properties of it.

- **Traversal** (`traversal.dfy`). Each document's element tree is linearised into one
  *path-string* per leaf: `tag SEP tag SEP … SEP tag SEP text`. An element without text
  contributes the word `None`.
- **Pruning** (`pruning.dfy`). Leaves that sit on the same *branch* (everything before the
  last separator) are merged into one entry, at the place of the first of them. Their values
  are joined with the concatenation symbol.
- **The `XML_converter` class** (`converter.dfy`):
  - the constructor checks the input streams;
  - `load` stores every document's pruned strings under its file name up to the first dot,
    optionally keeping only strings that start with a prefix;
  - `get_branch_limits` gives the shallowest and deepest separator count;
  - `inflate_tree` pads shorter paths with filler segments up to the deepest;
  - `get_pandas_dataset` projects the dataset into rows.
- **Projection** (`projection.dfy`). A row has a multi-level header: `h` plain levels taken
  after `offset` skipped segments, and one *overflow* level that joins the remaining inner
  segments with `" - "`. The datum of each column is the leaf text.
- **The legacy module-level engine** (`legacy.dfy`): `traverse_node`,
  `prune_equivalent_nodes`, and the loading, filtering and header-building parts of
  `xml_to_pandas_dataframe`.
- **The invoice header relabelling** (`invoices.dfy`):
  - `modify_header` maps each column signature to a short label through a lookup table; the
    158-entry `DEFAULT_LOOKUP_TABLE` is used when the table given is empty, and an unmapped
    key gets an `unk_N` label;
  - `get_default_lookup_table` writes a table as `key: label` lines;
  - `convert_to_lookup_table` reads such lines back.

Supporting modules:
- `text.dfy` models Python's `str.split`, `count`, `in`, `startswith`, `endswith`, `join`,
  `strip` and `str(n)` on strings.
- `dicts.dfy` models Python's insertion-ordered `dict` as a list of pairs. Assigning to an
  existing key keeps its position.
- `results.dfy` holds `Option` and `Result`.

Exceptions the code raises become `Failure` values:
- `ValueError`.
- `SeparatorError`.
- The `TypeError` that `None - offset` raises when the dataset holds no string at all.
- The `IndexError` that indexing an empty header raises when `offset` exceeds the
  shallowest depth.
- The `ValueError` that the `DataFrame` constructor raises when `offset` equals both the
  shallowest and the deepest depth: the overflow level is then deleted, no header level is
  left, and a document's data no longer fit the header.

The stateful parts keep the source's form:
- Streams and the converter are classes whose methods update their fields.
- The loops of `prune_equivalent_nodes`, `get_branch_limits`, `inflate_tree`,
  `get_pandas_dataset`, `modify_header`, `get_default_lookup_table` and
  `convert_to_lookup_table` are methods with loop invariants.
- Each such method is proved equal to a specification function. The properties are then
  proved about those functions.

Where the repository's own text and the code disagree, the model follows the code:
- The docstrings of `load` (xml_parser/xml_parser.py:144) and of `xml_to_pandas_dataframe`
  (xml_parser.py:97) describe `starting_with` as a condition on the first tag layer. The code
  applies `str.startswith` to the whole path-string (`Converter.PrefixFilterKeepsLongerTags`).
- The test at tests/test_xml_parser.py:20-23 expects a stream holding the separator to raise
  `ValueError`. The constructor raises `SeparatorError`, which subclasses only `Exception`
  (xml_parser/xml_parser.py:7), and the model returns `SeparatorError`.

## Model

| member | source | states |
|---|---|---|
| Traversal.Traverse | xml_parser/xml_parser.py:76-90 | The traversal yields exactly one string per leaf. |
| Traversal.TraverseJoinsPaths | xml_parser/xml_parser.py:76-90 | The traversal emits exactly one string per leaf, in document order. Each string is the leaf's path (its tags from the top, then its text or `None`) joined with the separator. |
| Traversal.TraverseSplitsIntoPaths | xml_parser/xml_parser.py:76-90 | Suppose no tag or text holds the separator and no tag can run into it. Then splitting each emitted string on the separator gives back exactly its path, and its separator count is the path length minus one. |
| Traversal.TraverseHasSeparator | xml_parser/xml_parser.py:85-88 | Every emitted string contains the separator. |
| Traversal.LeafCountPositive | xml_parser/xml_parser.py:78-88 | A non-empty list of elements yields at least one leaf, and so at least one string. |
| Pruning.PruneEquivalentNodes | xml_parser/xml_parser.py:107-133 | The loop with its `skip` list returns exactly `Pruned`: one entry per first occurrence of a branch, in input order. |
| Pruning.MergeGroup | xml_parser/xml_parser.py:115-131 | One pass of the outer loop appends the entry of string `a` and adds to `skip` exactly the later indices that share its branch. |
| Pruning.CollectGroup | xml_parser/xml_parser.py:115-126 | The buffer is empty when no later string shares the branch. Otherwise it holds the first string's value, then every later sharer's value in order. The skipped indices grow by exactly the later sharers. |
| Pruning.SplitAt | xml_parser/xml_parser.py:116-120 | The branch and the value computed for string `i` are its text before and after the last separator split. |
| Pruning.Pruned | xml_parser/xml_parser.py:107-133 | There is one entry per first occurrence of a branch, so the output is never longer than the input. |
| Pruning.PrunedAtFirstOccurrences | xml_parser/xml_parser.py:110-133 | The output has one entry per distinct branch, so it is never longer than the input. Entry `j` is built from the `j`-th first occurrence. |
| Pruning.PrunedBranchesCover | xml_parser/xml_parser.py:110-126 | The first occurrences have pairwise different branches. Every input string shares its branch with a first occurrence at or before it. |
| Pruning.EntryShape | xml_parser/xml_parser.py:128-131 | A branch seen once keeps its string unchanged. A branch seen more than once becomes branch, separator, then all its values in order joined with the concatenation symbol. |
| Pruning.GroupValuesComplete | xml_parser/xml_parser.py:118-125 | Scanning from any earlier start collects the same values for a first occurrence as scanning from the first occurrence itself. |
| Pruning.FirstsDistinct | xml_parser/xml_parser.py:110-113 | The indices the outer loop does not skip carry pairwise different branches. |
| Pruning.PrunedBranchesDistinct | xml_parser/xml_parser.py:107-133 | The output entries' branches are pairwise different. Each is the branch of its first occurrence. Holds for a one-character separator that the concatenation symbol does not contain, and for a non-empty symbol that shares no character with the separator. |
| Converter.DefaultsKeepBranchesDistinct | xml_parser/xml_parser.py:38 | With the constructor's defaults, separator `#@#` and a bar as the symbol, the pruned entries' branches are pairwise different. |
| Pruning.PrunedHoldSeparator | xml_parser/xml_parser.py:128-131 | If every input string contains the separator, so does every output entry. |
| Pruning.ConcatHoldingSeparatorMovesBranch | xml_parser/xml_parser.py:131 | A concatenation symbol that contains the separator moves the merged entry's branch. With a bar as separator and a double bar as symbol, `b`-bar-`x` and `b`-bar-`y` merge into an entry whose branch is `b`-bar-`x`-bar, not `b`. |
| Projection.BuildRow | xml_parser/xml_parser.py:247-261 | The row projects the document. Plain level `i` holds segment `offset+i` of every string. The overflow level holds the remaining inner segments joined with `" - "`, and is dropped when asked. The data are the strings' values. |
| Projection.BuildColumns | xml_parser/xml_parser.py:250-258 | After the loop over a document's strings, header level `i` and the data hold, for every string in order, its level `i` and its last segment. |
| Projection.AppendColumn | xml_parser/xml_parser.py:252-257 | Appending one string adds exactly its level `i` to each header level `i`. |
| Projection.LevelsOfPath | xml_parser/xml_parser.py:252-258 | For a path of clean segments joined with the separator: plain levels are path segments, the overflow level is the remaining inner segments joined with `" - "`, and the datum is the leaf text. |
| Projection.OverflowOfShallowestIsEmpty | xml_parser/xml_parser.py:257 | A string with exactly `offset+h` separators has an empty overflow level. |
| Converter.Stream.Read | xml_parser/xml_parser.py:56 | `read()` returns the unread rest of the stream and moves the position to its end. |
| Converter.Stream.Rewind | xml_parser/xml_parser.py:59 | `seek(0)` sets the position to the start. |
| Converter.CheckStream | xml_parser/xml_parser.py:54-59 | The stream passes exactly when its unread text does not contain the separator. A stream that passes is rewound, and the separator is then non-empty. A stream that fails is left at its end. |
| Converter.NewConverter | xml_parser/xml_parser.py:38-59 | `ValueError` for a non-dict or empty input, or when the concatenation symbol equals the separator. `SeparatorError` exactly when some stream's unread text contains the separator: the first such stream is left read, the earlier ones are rewound and the later ones are untouched. On success every stream is rewound and the new converter has an empty dataset and the given fields. |
| Converter.XmlConverter.Load | xml_parser/xml_parser.py:146-162 | The dataset becomes `LoadAll` of the old dataset over the streams in order, and the converter stays valid. |
| Converter.LoadAll | xml_parser/xml_parser.py:146-162 | After `load` the dataset has exactly the keys it had before plus the entry names of the files. |
| Converter.Select | xml_parser/xml_parser.py:155-158 | `None` or `""` returns the list unchanged. Any other prefix keeps exactly the strings that start with it, each as often as in the input; a list whose strings all start with it is returned unchanged. |
| Converter.SelectAppend | xml_parser/xml_parser.py:158 | Filtering a concatenation is the concatenation of the filtered parts, so the kept strings keep their input order. |
| Converter.EntryNameOf | xml_parser/xml_parser.py:148 | A file name `name.ext` whose `name` has no dot is stored under `name`. |
| Converter.PrefixFilterKeepsLongerTags | xml_parser/xml_parser.py:158 | The prefix `a` keeps a string whose first tag is `ab`, because the filter tests the whole string, not the first tag. |
| Converter.StoreValid | xml_parser/xml_parser.py:160-162 | Storing one document keeps the dataset's keys distinct and every stored string containing the separator. |
| Converter.DocumentHoldsSeparator | xml_parser/xml_parser.py:153-160 | Every string `load` stores for a document contains the separator. |
| Converter.LoadAllWellformed | xml_parser/xml_parser.py:146-162 | After `load` the dataset's keys are distinct. |
| Converter.LoadAllUntouched | xml_parser/xml_parser.py:146-162 | A key that no file's entry name equals keeps its earlier list. |
| Converter.LoadAllLastWins | xml_parser/xml_parser.py:146-162 | After `load`, a file's entry name maps to that file's pruned strings when no later file has the same entry name. |
| Converter.MinOf | xml_parser/xml_parser.py:174-178 | The running minimum is `None` exactly for an empty list. Otherwise it is an element that bounds every element from below. |
| Converter.MaxOf | xml_parser/xml_parser.py:174-179 | The running maximum is `None` exactly for an empty list. Otherwise it is an element that bounds every element from above. |
| Converter.MinMaxSnoc | xml_parser/xml_parser.py:178-179 | Adding one count updates the minimum and the maximum exactly as the loop's `min`/`max` step does. |
| Converter.ScanCounts | xml_parser/xml_parser.py:176-179 | The loop over one document extends the running minimum and maximum by that document's separator counts. |
| Converter.Counts | xml_parser/xml_parser.py:176-177 | The counts of one document are, in order, the separator count of each of its strings. |
| Converter.BranchLimits | xml_parser/xml_parser.py:174-181 | The result is the minimum and the maximum of the separator counts of all stored strings, or `None` when there are none. |
| Converter.XmlConverter.GetBranchLimits | xml_parser/xml_parser.py:165-181 | Same as `BranchLimits`, for the converter's own dataset and separator. |
| Converter.AllCountsHas | xml_parser/xml_parser.py:175-177 | Every stored string's separator count is among the counts the limits range over. |
| Converter.AllCountsWitness | xml_parser/xml_parser.py:175-177 | Every count the limits range over belongs to some stored string. |
| Converter.MinIsLowerBound | xml_parser/xml_parser.py:240-255 | Every stored string has at least `lmin` separators, so every plain header level exists. |
| Converter.XmlConverter.InflateTree | xml_parser/xml_parser.py:197-223 | If the filler contains the separator: `ValueError`, and the dataset is unchanged. Otherwise every list is replaced by its inflation to the deepest count, keys and order kept, and the converter stays valid. |
| Converter.InflateDataset | xml_parser/xml_parser.py:202-221 | The loop builds `InflateAll`: the same keys in the same order, each with its inflated list. |
| Converter.InflateStrings | xml_parser/xml_parser.py:206-219 | The inner loop inflates every string of one list, in order. |
| Converter.InflateList | xml_parser/xml_parser.py:206-219 | The inflated list has the input's length, and its entry `j` is the inflation of string `j`. |
| Converter.InflateKeepsDeepest | xml_parser/xml_parser.py:212-213 | A string that is already at the deepest count is kept unchanged. |
| Converter.InflateStringShape | xml_parser/xml_parser.py:208-219 | With a filler that cannot merge with the separator, the inflated string splits into: the original branch fields, `top - count` fillers, then the original value. Its separator count is `top`. |
| Converter.InflateString | xml_parser/xml_parser.py:208-219 | Inflating keeps the separator in a string that has one. |
| Converter.InflateAllValid | xml_parser/xml_parser.py:221-223 | Inflation keeps the keys distinct and every string containing the separator. |
| Converter.InflateUniformDepth | xml_parser/xml_parser.py:197-223 | After inflation every string has exactly the deepest separator count. |
| Converter.UniformLimits | xml_parser/xml_parser.py:174-181 | If every string has the same depth, the branch limits agree and equal that depth. |
| Converter.InflatedLimitsAgree | xml_parser/xml_parser.py:197-223 | After `inflate_tree`, `get_branch_limits` returns `lmin == lmax`. |
| Converter.BuildRows | xml_parser/xml_parser.py:245-264 | There is one projected row per document, in dataset order. |
| Converter.PandasDataset | xml_parser/xml_parser.py:240-266 | `TypeError` exactly when no string is stored. `IndexError` exactly when `offset` exceeds `lmin`. `ValueError` exactly when `offset == lmin == lmax`, which leaves no header level. Otherwise one row per document with `lmin - offset` plain levels, the overflow level dropped exactly when `lmin == lmax`. |
| Converter.ProjectAll | xml_parser/xml_parser.py:245-264 | For an offset within the shallowest depth, the rows project every document with `lmin - offset` plain levels. |
| Converter.XmlConverter.GetPandasDataset | xml_parser/xml_parser.py:226-268 | Same as `PandasDataset`, including the `ValueError` case, for the converter's own dataset and separator. |
| Legacy.LegacyTraverse | xml_parser.py:25-39 | The legacy traversal yields exactly one string per leaf. |
| Legacy.LegacyTraverseWithBar | xml_parser.py:25-39 | With the default bar separator, the legacy traversal equals the class's traversal. |
| Legacy.LegacyTraverseBelowTop | xml_parser.py:29-34 | Below the top level the children are traversed with the bar separator, whatever separator was passed. |
| Legacy.LegacySeparatorIgnoredBelowTop | xml_parser.py:31 | With separator `#`, the element `a` holding `b = x` gives `a#b`, a bar, then `x`, where the class gives `a#b#x`. |
| Legacy.LegacyPruneEquivalentNodes | xml_parser.py:58-84 | The class's pruning with `" & "`. An empty separator raises `ValueError` as soon as there is a string. |
| Legacy.LegacyPrunedBranchesDistinct | xml_parser.py:58-84 | With the default separator, the output is never longer than the input and its branches are pairwise different. |
| Legacy.LegacySelect | xml_parser.py:125 | `""` returns the list unchanged. `None` raises `TypeError` exactly when there is a string to test. A prefix keeps exactly the strings that start with it, each as often and in the same order as `Converter.Select`. |
| Legacy.LoadLegacyDataset | xml_parser.py:104-129 | The loading loop builds `LegacyDataset` over the listing, in order. |
| Legacy.LegacyKeysFromXmlFiles | xml_parser.py:113-129 | The dataset's keys are distinct. Each is the entry name of a regular file ending in `.xml` or `.XML`. |
| Legacy.LegacyFailureSticks | xml_parser.py:113-129 | Once a file's filter raises, the whole load raises `TypeError`. |
| Legacy.LegacyDataset | xml_parser.py:104-129 | The only error the legacy load raises is `TypeError`. |
| Legacy.NoneFilterRaises | xml_parser.py:125 | With `starting_with` left at `None`, any `.xml` file with an element makes the load raise `TypeError`. |
| Legacy.ScanMinCount | xml_parser.py:133-136 | The loop over one document extends the running minimum by that document's bar counts. |
| Legacy.LeastCount | xml_parser.py:132-136 | `psize` is the minimum bar count over all stored strings, or `None` when there are none. |
| Legacy.XmlToPandasDataframe | xml_parser.py:104-157 | A filter error becomes `TypeError`. Otherwise: `TypeError` exactly when no string is stored, `IndexError` exactly when `offset` exceeds `psize`, and else one row per document with `psize - offset` plain levels and the overflow level always kept. |
| Invoices.Without | src/xml_parser/invoices_modifier.py:189 | Keeps exactly the signature segments that differ from the filler. A signature without filler is returned unchanged. |
| Invoices.WithoutMultiset | src/xml_parser/invoices_modifier.py:189 | Every segment other than the filler is kept as often as it occurs in the signature, and the filler not at all. |
| Invoices.WithoutAppend | src/xml_parser/invoices_modifier.py:189 | Dropping the filler from a concatenation is the concatenation of the dropped parts, so the kept segments keep their order. |
| Invoices.Relabel | src/xml_parser/invoices_modifier.py:187-196 | The new header has one label per column. |
| Invoices.ModifyHeader | src/xml_parser/invoices_modifier.py:181-200 | The new header and `new_labels` are `Relabel` of the columns over the given table, or over the default table when the given one is empty. |
| Invoices.RelabelColumns | src/xml_parser/invoices_modifier.py:187-196 | The loop over the columns builds `Relabel`. |
| Invoices.RelabelMapped | src/xml_parser/invoices_modifier.py:191-192 | A column whose search key is in the table gets the table's label. |
| Invoices.RelabelUnmapped | src/xml_parser/invoices_modifier.py:193-195 | Any other column gets `unk_` followed by one more than the number of keys recorded before it. |
| Invoices.RelabelWellformed | src/xml_parser/invoices_modifier.py:182-196 | `new_labels` never holds a key twice. |
| Invoices.RelabelNewLabels | src/xml_parser/invoices_modifier.py:182-196 | The keys of `new_labels` are exactly the search keys of the columns that the table does not map. |
| Invoices.RelabelLastWins | src/xml_parser/invoices_modifier.py:196 | `new_labels` maps an unmapped key to the label of its last column. |
| Invoices.UnknownLabelsCollide | src/xml_parser/invoices_modifier.py:193-196 | Unmapped columns `A`, `A`, `B` get `unk_1`, `unk_2`, `unk_2`, so `A` and `B` share a label. |
| Invoices.RelabelDistinctNumbered | src/xml_parser/invoices_modifier.py:193-196 | In the corrected relabelling, the `N`-th recorded key carries `unk_N`. |
| Invoices.RelabelDistinctRecorded | src/xml_parser/invoices_modifier.py:196 | In the corrected relabelling, `new_labels` maps every unmapped key to the label its columns carry. |
| Invoices.RelabelDistinctSeparatesKeys | src/xml_parser/invoices_modifier.py:193-196 | In the corrected relabelling, two unmapped columns share a label exactly when they share a search key. |
| Invoices.UnknownLabelInjective | src/xml_parser/invoices_modifier.py:194 | Different numbers give different `unk_N` labels. |
| Invoices.NatToStringInjective | src/xml_parser/invoices_modifier.py:194 | Different numbers have different decimal forms. |
| Invoices.GetDefaultLookupTable | src/xml_parser/invoices_modifier.py:212-216 | The text is every entry of the default table as a `key: label` line, in order. |
| Invoices.WriteEntries | src/xml_parser/invoices_modifier.py:212-214 | The loop writes every entry of a table as a `key: label` line, in order. |
| Invoices.Serialized | src/xml_parser/invoices_modifier.py:212-214 | The written text is empty exactly for an empty table, and otherwise ends with a newline. |
| Invoices.SerializedSnoc | src/xml_parser/invoices_modifier.py:213-214 | Each loop step appends exactly one entry's line. |
| Invoices.Lines | src/xml_parser/invoices_modifier.py:235 | Every line is non-empty and holds a newline only at its end. Every line but the last ends with one. |
| Invoices.LinesRebuild | src/xml_parser/invoices_modifier.py:235 | The lines concatenate back to the text. |
| Invoices.LinesCons | src/xml_parser/invoices_modifier.py:235 | A text that starts with a newline-free line and a newline splits into that line, then the lines of the rest. |
| Text.Strip | src/xml_parser/invoices_modifier.py:236 | The stripped line neither starts nor ends with a newline, and is no longer than the line. |
| Text.StripSlice | src/xml_parser/invoices_modifier.py:236 | The stripped line is a slice of the line, and everything cut off before and after it is the stripped character. |
| Invoices.ParseLine | src/xml_parser/invoices_modifier.py:236-238 | A line is rejected exactly when it does not hold exactly one colon. An accepted, untrimmed line gives a key and a label that rebuild the stripped line around the colon. |
| Invoices.ReadTable | src/xml_parser/invoices_modifier.py:233-241 | A table read in full holds at least the entries it started with and at most one more per line. |
| Invoices.ReadTableRejects | src/xml_parser/invoices_modifier.py:235-239 | Any malformed line makes the whole conversion raise `ValueError`. |
| Invoices.ReadTableWellformed | src/xml_parser/invoices_modifier.py:239 | The table read never holds a key twice. |
| Invoices.ConvertToLookupTable | src/xml_parser/invoices_modifier.py:233-241 | The loop over the lines builds `ReadTable` of the text's lines. |
| Invoices.ParseEntryLine | src/xml_parser/invoices_modifier.py:214 | A written `key: label` line reads back as the key and the label, with the space kept unless trimmed. |
| Invoices.ReadBack | src/xml_parser/invoices_modifier.py:212-241 | Reading back a written table (keys and labels without colon or newline, keys distinct) yields its entries in order, labels as the reader stores them. |
| Invoices.ReadBackShiftsLabels | src/xml_parser/invoices_modifier.py:236-239 | As written, the round trip maps every label `v` to `" " + v`, so a non-empty table never reads back as itself. |
| Invoices.ReadBackTrimmed | src/xml_parser/invoices_modifier.py:236-239 | A reader that drops the space after the colon recovers the written table exactly. |
| Text.JoinSplit | xml_parser/xml_parser.py:116 | Joining a split string with the same separator gives back the string. |
| Text.SplitCount | xml_parser/xml_parser.py:177 | A string splits into one more part than its count of the separator. |
| Text.ContainsCount | xml_parser/xml_parser.py:56 | A string contains the separator exactly when its count is positive. |
| Text.SplitJoin | xml_parser/xml_parser.py:210-218 | Joining separator-free segments and splitting again gives back the segments. |
| Text.NatToString | src/xml_parser/invoices_modifier.py:194 | The decimal form is a non-empty string of digits whose decimal value is the number. It has a single digit exactly below ten, and starts with `0` only for zero. |
| Dicts.PutSpec | xml_parser/xml_parser.py:162 | `d[k] = v` maps `k` to `v` and leaves other keys unchanged. A present key keeps its place; a new key is appended. |
| Dicts.Get | xml_parser/xml_parser.py:162 | A lookup succeeds exactly for present keys, and gives the value stored under the key. |

## Left out

- XML parsing (lxml `objectify`) is left out. Each stream or file carries the element tree the parser builds from its text. Malformed XML and its errors are not modelled.
- UTF-8 decoding and encoding are left out. Streams hold text, and `get_default_lookup_table` returns the text it would encode.
- Building pandas `DataFrame`s and `concat` are left out. A row is its name, its header levels and its data; the NaN alignment of columns across rows is not modelled.
- The legacy directory check (`print` and `exit`), `listdir`, `isfile` and `abspath` are left out. The folder is given as a listing of file entries in listing order.
- `TextIOWrapper`'s universal-newline translation of `\r` and `\r\n` is left out. Lines are split at `\n` only.
- Negative offsets are left out: `offset` is a natural number.
- The type check `type(instream) == dict` is modelled as an optional input; a value of another type is the absent case.
- `bytesIO_utils.py`, `p7m_converter.py`, the GUI and the example scripts are not part of this model.
- Converter.NewConverter: requires the streams of the input to be distinct objects. Aliased streams, where reading one moves another, are not modelled.
- Converter.XmlConverter.Load: takes each stream's carried tree whatever its read position. The real parser reads from the current position, so a second `load` over the same streams would find them at their end.
- Converter.InflateStringShape: proved only for a filler that cannot merge with the separator. The code's guard `separator in filler` also lets through a filler such as `#` with separator `##`, whose padding then splits differently.
- Converter.InflateUniformDepth: proved under the same filler condition as `InflateStringShape`.
- Converter.InflatedLimitsAgree: proved under the same filler condition as `InflateStringShape`.
- Pruning.PrunedBranchesDistinct: proved only when the joined values of a group cannot hold the separator: a one-character separator that the concatenation symbol does not contain, or a non-empty symbol sharing no character with the separator. Otherwise the separator can form across the symbol inside the joined values. With separator `ab` and symbol `b`, the strings `Kabxa` and `Kaby` (branch `K`) merge into `Kabxaby`, whose branch is `Kabx`; a further input string `Kabxaby` then gives a second entry with that branch.
- Invoices.ReadBack: proved only for tables whose keys and labels hold no colon and no newline.
- Nothing is proved about the entries of the 158-entry default table itself. In particular it is not shown to be writable, so the round-trip lemmas are stated for any writable table.

## Findings

| source | as written | input that shows it | evidently intended | confidence | as-written member | corrected member |
|---|---|---|---|---|---|---|
| xml_parser.py:31 | The recursive call of `traverse_node` passes no separator, so joints below the top level always use the bar. | Separator `#` and an element `a` whose child `b` holds `x`: the result is `a#b`, a bar, then `x`. | The separator is used at every level: `a#b#x`, which splits back into the path. | not executed | Legacy.LegacySeparatorIgnoredBelowTop | Traversal.TraverseSplitsIntoPaths |
| xml_parser.py:125 | With `starting_with` left at its default `None`, the filter calls `item.startswith(None)`, which raises `TypeError`. | A folder with one `.xml` file holding one element, called without `starting_with`. | `None` keeps every string, as the class's `load` does. | not executed | Legacy.NoneFilterRaises | Converter.Select |
| src/xml_parser/invoices_modifier.py:193-196 | `unk_N` is numbered `len(new_labels)+1`, but a repeated unmapped key overwrites its entry without growing `new_labels`. | Unmapped columns `A`, `A`, `B` get `unk_1`, `unk_2`, `unk_2`. | Distinct unmapped keys get distinct labels, and a repeated key keeps its label. | not executed | Invoices.UnknownLabelsCollide | Invoices.RelabelDistinctSeparatesKeys |
| src/xml_parser/invoices_modifier.py:236-239 | The writer emits `key: label`, and the reader splits on `:` and keeps the space. The round trip the repository's own cross-check test expects therefore fails. | The table `{"A": "x"}` reads back as `{"A": " x"}`. | Reading a written table gives back the table. | not executed | Invoices.ReadBackShiftsLabels | Invoices.ReadBackTrimmed |
