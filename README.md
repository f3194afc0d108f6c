# Tensor parser core in Dafny

This project models the core of a CSV-to-sparse-tensor converter. Three parts are covered:

- **The per-mode index map** (`tensor_parser/index_map.py`). It counts the transformed key of every raw value it is given, in insertion order. It records the raw values whose transform fails. `build_map` then compiles a dense 1-based numbering of the keys whose count is positive: ascending when the mode sorts, insertion order otherwise. The map answers lookups and writes the inverse listing.
- **The configuration object** (`tensor_parser/tensor_config.py`). It holds the inputs, the output name, the CSV overrides, the ordered list of mode records (field, type, sort), the values field and the merge reduction.
- **`build_tensor`** (`tensor_parser/builder.py`):
  1. It resolves each mode's column in every input file and counts every row's value into that mode's map.
  2. It builds every map.
  3. It re-reads the inputs and emits one line `i1 i2 ... iN value` per data row.
  4. It writes one `mode-{m+1}-{field}.map` listing per mode.

Modules:

- `Wrappers`: `Option`, `Result` and `Outcome`. They stand for the exceptions the Python code raises.
- `Strings`: `str(int)`, `' '.join`, and `lower()` restricted to ASCII.
- `Keys`: the transformed key, `Text | Number`. It comes with a proved strict total order that extends Python's `<` on keys of one kind. Python's `<` itself raises `TypeError` between an `int` and a `str`.
- `Tallies`: the value-level meaning of an index map. `Step` is one `add` and `Retract` is one `sub`. `Tallied` is a run of `add`s. `DenseMap` is what `build_map` compiles. The properties of all four are proved here.
- `IndexMaps`: the `IndexMap` class. Its fields are the ones the Python object updates in place. Its methods are proved against `Tallies`.
- `TensorConfigs`: the `TensorConfig` class. Each setter states the whole new state. The getters are functions.
- `Builder`: `BuildTensor`, the imperative two-pass program over `IndexMap` objects, proved equal to `Build`. `Build` is a specification function of the configuration and the parsed files. Lemmas about `Build` state what the output means.

How the model works, and where it departs from the documentation:

- A mode's `type` is a function `string -> Option<Key>`. `None` stands for "the transform raised" and is caught by the bare `except` in `__access_key`.
- Files are passed in already parsed. `fs(name)` is the header and the data rows the CSV reader yields for `name`.
- The tensor file and the map files are returned as sequences of logical lines, one entry per `print` call.
- Where documentation and code disagree, the model follows the code:
  - `header.index(field)` is an exact, case-sensitive match, although mode lookups in the configuration ignore case.
  - `sub` does not invalidate a built map, although its docstring says it does.
  - With zero modes, every line is `" " + value`.
  - An empty values field name, like `None`, means "no values column".

## Model

| member | source | states |
|---|---|---|
| IndexMaps.IndexMap.constructor | tensor_parser/index_map.py:19-29 | a fresh map has the given name, type and sort flag. It has no keys, no counts, no skipped keys, an empty `_map`, and is not built. The default type is the string that always raises (`DefaultTransform`) |
| IndexMaps.IndexMap.AccessKey | tensor_parser/index_map.py:31-36 | the key every operation uses: the transform's value, `None` when the transform raises. `SharedKey` proves that raw keys with one transform are indistinguishable |
| IndexMaps.SkipMessage | tensor_parser/index_map.py:45-46 | the text `add` writes to stderr for a skipped key: `Mode {name} skipping key: "{key}"`. `Add` returns it exactly the first time a failing key is met |
| IndexMaps.IndexMap.IsMapped | tensor_parser/index_map.py:93-94 | the built flag: `BuildMap` sets it, and `Add` and `Sub` leave it as it was |
| IndexMaps.DefaultTransform | tensor_parser/index_map.py:19 | helper of `IndexMap.constructor`: the default `type_func` is a string, whose call raises, so every key fails |
| IndexMaps.IndexMap.Add | tensor_parser/index_map.py:39-53 | the counter becomes `Step` of the old one. An untransformable key is added to `skipped` and its diagnostic is returned only the first time it is met. A new key is appended to the order with count 1. A known key's count goes up by one. The built numbering is untouched |
| IndexMaps.IndexMap.Sub | tensor_parser/index_map.py:56-64 | the counter becomes `Retract` of the old one: the count of a present key's transform goes down by one, with no entry created or removed and no clamp at 0. The map and its built flag are unchanged |
| IndexMaps.IndexMap.GetCount | tensor_parser/index_map.py:67-73 | 0 for an untransformable key, else the stored count of the transformed key (0 when absent) |
| IndexMaps.IndexMap.BuildMap | tensor_parser/index_map.py:76-91 | the counter is unchanged. The new `_map` is the old one overridden by the dense numbering of the positive-count keys, ordered ascending when `sort` and in insertion order otherwise. The map is then marked built |
| IndexMaps.NumberKeys | tensor_parser/index_map.py:87-89 | the numbering loop gives `uniques[i]` the number `i + 1`, over what `_map` already held |
| IndexMaps.IndexMap.WriteFile | tensor_parser/index_map.py:97-104 | for a dense `_map`, one entry per key, with key `k` as entry `_map[k]` |
| IndexMaps.IndexMap.GetItem | tensor_parser/index_map.py:107-114 | fails exactly when the map is not built. Otherwise it is `Some` exactly when the key transforms to a key in `_map`, and then it is that key's number |
| IndexMaps.IndexMap.Len | tensor_parser/index_map.py:116-117 | for a dense map, every number lies in `1..len`. `BuiltLookup` proves that after a build `len` is the number of keys with positive count |
| IndexMaps.SharedKey | tensor_parser/index_map.py:31-36 | two raw keys with the same transform share count and lookup |
| IndexMaps.BuiltLookup | tensor_parser/index_map.py:107-117 | after `build_map` on an empty `_map`, a lookup yields a number in `1..len` exactly when the key's count is positive. The numbering is dense, and `len` is the number of keys with positive count |
| IndexMaps.DefaultSkipsEverything | tensor_parser/index_map.py:19-36 | with the default type (a string, so calling it raises), every key is skipped and nothing is counted |
| IndexMaps.IndexMap.Valid | tensor_parser/index_map.py:50-53 | the object invariant every method keeps: each counted key is listed exactly once in the insertion order, as the keys of the `OrderedDict` `_keys` are |
| IndexMaps.IndexMap.Contents | tensor_parser/index_map.py:20-29 | helper of `Add`, `Sub` and `BuildMap`: `_keys` and `skipped` as one `Tally`, the value their contracts speak about |
| Tallies.Tallied | tensor_parser/index_map.py:39-53 | helper of `CountingPass`: `add` on every value in order, keeping the counter well formed |
| Tallies.Survivors | tensor_parser/index_map.py:81-82 | the keys with positive count, in insertion order: a key survives iff it is recorded and its count is positive, and distinct keys stay distinct |
| Tallies.DenseMap | tensor_parser/index_map.py:81-89 | helper of `DenseMapDomain`, `DenseMapSorted` and `DenseMapInsertionOrder`: the numbering of the survivors, sorted when `sort` |
| Tallies.Step | tensor_parser/index_map.py:39-53 | one `add`: each key's count grows by one exactly for the key's transform. The key set and the order grow only by a new key. A failed transform only extends `skipped` |
| Tallies.Retract | tensor_parser/index_map.py:56-64 | one `sub`: order, key set and skipped set are unchanged. Only the count of the key's transform drops by one |
| Tallies.CountingPass | tensor_parser/index_map.py:39-53 | after counting `vs` from scratch, a key is present iff some value transforms to it, and its count is the number of such values |
| Tallies.TalliedSkipped | tensor_parser/index_map.py:43-48 | the skipped set is exactly the values whose transform fails |
| Tallies.TalliedPositive | tensor_parser/index_map.py:50-53 | without `sub`, every stored count is at least 1 |
| Tallies.InsertionOrder | tensor_parser/index_map.py:50-53 | the key order is the order of first appearance |
| Tallies.SurvivorsOfPositive | tensor_parser/index_map.py:81-82 | without `sub`, the filter keeps every counted key |
| Tallies.SortKeys | tensor_parser/index_map.py:84-85 | `list.sort()` on distinct keys: ascending and a permutation |
| Tallies.Ordered | tensor_parser/index_map.py:81-85 | the numbered keys are distinct and the same set as the survivors: ascending with `sort`, unchanged without |
| Tallies.Enumerate | tensor_parser/index_map.py:87-89 | the numbering has exactly the listed keys, each numbered in `1..n` |
| Tallies.EnumerateNumbers | tensor_parser/index_map.py:87-89 | on distinct keys, `uniques[i]` is numbered `i + 1` and there are `n` entries |
| Tallies.EnumerateIsDense | tensor_parser/index_map.py:87-89 | on distinct keys, the numbering is a bijection onto `1..n` |
| Tallies.DenseMapDomain | tensor_parser/index_map.py:81-89 | the compiled numbering covers exactly the keys with positive count and is dense |
| Tallies.DenseMapSorted | tensor_parser/index_map.py:84-89 | with `sort`, `a` has a smaller number than `b` iff `a < b` |
| Tallies.DenseMapInsertionOrder | tensor_parser/index_map.py:81-89 | without `sort`, `a` has a smaller number than `b` iff `a` was inserted first |
| Tallies.RetractToZero | tensor_parser/index_map.py:56-64 | a `sub` taking a count from 1 to 0 removes the key from the next numbering |
| Tallies.Distinct | tensor_parser/index_map.py:50-53 | helper of `WellFormed`: no key repeats, as in the keys of an `OrderedDict` |
| Tallies.WellFormed | tensor_parser/index_map.py:50-53 | helper of `IndexMap.Valid`: the order lists every counted key exactly once. `Step` and `Retract` preserve it |
| Tallies.AllPositive | tensor_parser/index_map.py:50-53 | helper of `TalliedPositive`: every stored count is at least 1 |
| Tallies.Count | tensor_parser/index_map.py:67-73 | helper of `GetCount` and `CountingPass`: the stored count of a key, 0 when it is absent |
| Tallies.Occurrences | tensor_parser/index_map.py:39-53 | helper of `CountingPass` and `TalliedCount`: how many values transform to a key |
| Tallies.Unparsable | tensor_parser/index_map.py:43-47 | helper of `TalliedSkipped`: the raw values whose transform fails |
| Tallies.Position | tensor_parser/index_map.py:50-53 | the first position of a key in the order: in range iff the key occurs, holding the key there, with no occurrence before it |
| Tallies.Ascending | tensor_parser/index_map.py:84-85 | helper of `SortKeys`: strictly ascending under `Below` |
| Tallies.AscendingPrepend | tensor_parser/index_map.py:84-85 | a key below the head of an ascending list extends it |
| Tallies.AscendingDistinct | tensor_parser/index_map.py:84-85 | an ascending list repeats no key |
| Tallies.Insert | tensor_parser/index_map.py:84-85 | one insertion step of the sort: the result is ascending, has exactly the old keys and the new one, and is a permutation of them |
| Tallies.EnumerateSnoc | tensor_parser/index_map.py:88-89 | one turn of the numbering loop, `_map[uniques[i]] = i+1`, extends the numbering of the first `i` keys to the first `i + 1` |
| Tallies.IsDense | tensor_parser/index_map.py:87-89 | helper of `EnumerateIsDense` and `DenseMapDomain`: a bijection from the keys onto `1..n` |
| Tallies.TalliedCount | tensor_parser/index_map.py:39-53 | after a run of `add` calls, a key's count is its old count plus the number of values transforming to it |
| Tallies.TalliedAppend | tensor_parser/index_map.py:39-53 | counting `a + b` is counting `a`, then `b` |
| Tallies.TalliedOrderGrows | tensor_parser/index_map.py:50-53 | `add` only ever appends to the insertion order |
| Tallies.PrefixPositions | tensor_parser/index_map.py:50-53 | a key of a prefix of the order sits before a key appended after that prefix |
| Tallies.OrderExtends | tensor_parser/index_map.py:50-53 | counting more values only extends the insertion order |
| Tallies.SplitAt | tensor_parser/index_map.py:39-53 | helper of `InsertionOrder`: a sequence is its prefix followed by its suffix |
| Tallies.InOrderIffOccurs | tensor_parser/index_map.py:50-53 | after counting from scratch, a key is in the insertion order iff some value transforms to it |
| Tallies.NumberingIsDense | tensor_parser/index_map.py:87-89 | numbering the `i`-th key with `i + 1`, and nothing else, is a bijection onto `1..n` |
| Tallies.PositionInTail | tensor_parser/index_map.py:81-82 | helper of `FollowsTail`: a key found after the head of a list without repeats is one place further than in the tail |
| Tallies.Follows | tensor_parser/index_map.py:81-82 | helper of `SurvivorsKeepOrder`: every key of the list is in the order, in the same relative order |
| Tallies.FollowsTail | tensor_parser/index_map.py:81-82 | a list that follows the tail of the order follows the order |
| Tallies.FollowsCons | tensor_parser/index_map.py:81-82 | putting the head of the order in front keeps following the order |
| Tallies.SurvivorsKeepOrder | tensor_parser/index_map.py:81-82 | `filter` keeps the relative insertion order of the surviving keys |
| Tallies.AscendingNumbering | tensor_parser/index_map.py:84-89 | on an ascending list, `a` gets a smaller number than `b` iff `a < b` |
| Tallies.FollowsAt | tensor_parser/index_map.py:81-82 | two positions of a list that follows the order keep their relative order in it |
| Tallies.OrderNumbering | tensor_parser/index_map.py:81-89 | on a list that follows the order, `a` gets a smaller number than `b` iff `a` comes first in the order |
| Keys.Below | tensor_parser/index_map.py:84-85 | helper of `SortKeys`: the order `list.sort()` uses, ints numerically and strings by code point. `BelowTotal` and `BelowTransitive` prove it a strict total order |
| Keys.KeyText | tensor_parser/index_map.py:104 | helper of `ListingInverse`: `str(key)` as `print` writes it |
| Keys.BelowTotal | tensor_parser/index_map.py:84-85 | any two distinct keys are ordered one way or the other, as `sort` needs |
| Keys.BelowTransitive | tensor_parser/index_map.py:84-85 | the key order is transitive |
| Keys.TextBelow | tensor_parser/index_map.py:84-85 | helper of `Below`: Python's `<` on `str`, by code points, a proper prefix first |
| Keys.TextBelowIrreflexive | tensor_parser/index_map.py:84-85 | no string is below itself |
| Keys.TextBelowTransitive | tensor_parser/index_map.py:84-85 | the string order is transitive |
| Keys.TextBelowTotal | tensor_parser/index_map.py:84-85 | two different strings are ordered one way or the other |
| Keys.BelowIrreflexive | tensor_parser/index_map.py:84-85 | no key is below itself |
| Keys.BelowAsymmetric | tensor_parser/index_map.py:84-85 | two keys are never below each other |
| Strings.NatToString | tensor_parser/builder.py:85 | `str(m + 1)` is non-empty decimal digits without a leading zero |
| Strings.IntToString | tensor_parser/builder.py:72 | helper of `Show`: `str(i)`. `IntToStringValue` and `IntToStringInjective` state its meaning |
| Strings.Join | tensor_parser/builder.py:77 | helper of `Line`: `' '.join(inds)` |
| Strings.NatToStringValue | tensor_parser/builder.py:85 | the digits `str(n)` writes denote `n` |
| Strings.NatToStringInjective | tensor_parser/builder.py:85 | distinct numbers are written differently |
| Strings.IntToStringValue | tensor_parser/builder.py:71-72 | `str(i)` of an index starts with `-` exactly when `i < 0`, and its digits denote `abs(i)` |
| Strings.IntToStringInjective | tensor_parser/builder.py:71-72 | distinct indices are written differently |
| Strings.Lower | tensor_parser/tensor_config.py:94 | `lower()` maps every character, keeping the length |
| Strings.IsDigit | tensor_parser/builder.py:85 | helper of `NatToString`: a decimal digit character |
| Strings.DigitsValue | tensor_parser/builder.py:85 | helper of `NatToStringValue`: the number a digit string denotes, read most significant digit first |
| Strings.DigitOf | tensor_parser/builder.py:85 | helper of `DigitsValue`: the value of one digit character |
| Strings.DigitChar | tensor_parser/builder.py:85 | helper of `NatToString`: the character of one digit, not `0` for a non-zero digit |
| Strings.DigitCharValue | tensor_parser/builder.py:85 | the character written for a digit denotes that digit |
| Strings.LowerChar | tensor_parser/tensor_config.py:94 | helper of `Lower`: one character in ASCII lower case |
| TensorConfigs.TensorConfig.constructor | tensor_parser/tensor_config.py:14-33 | inputs and output as given. No delimiter, header or values override. No modes. Merge `sum` |
| TensorConfigs.TensorConfig.SetDelimiter | tensor_parser/tensor_config.py:36-50 | only the delimiter changes, and `get_delimiter` returns it |
| TensorConfigs.TensorConfig.SetHeader | tensor_parser/tensor_config.py:53-66 | only the header flag changes, and `has_header` returns it |
| TensorConfigs.TensorConfig.AddMode | tensor_parser/tensor_config.py:69-74 | appends one mode record. Earlier modes keep their positions. The count grows by one. The new mode is at the old count |
| TensorConfigs.TensorConfig.SetVals | tensor_parser/tensor_config.py:77-88 | only the values field changes, and `get_vals` returns it |
| TensorConfigs.TensorConfig.SetModeSort | tensor_parser/tensor_config.py:91-97 | sets `sort` of the first case-insensitively matching mode and nothing else. With no match: `IndexError` and nothing changes |
| TensorConfigs.TensorConfig.SetModeType | tensor_parser/tensor_config.py:100-127 | sets `type` of the first case-insensitively matching mode and nothing else. With no match: `IndexError` and nothing changes |
| TensorConfigs.TensorConfig.SetMergeFunc | tensor_parser/tensor_config.py:130-134 | only the merge reduction changes, and `get_merge_func` returns it |
| TensorConfigs.TensorConfig.GetMode | tensor_parser/tensor_config.py:136-154 | the loop equals the search `ModeLookup` over the argument as a Python value. For a name it succeeds iff some mode matches case-insensitively, returning the first one, and otherwise raises `IndexError`. For an int it never returns a mode |
| TensorConfigs.PyLower | tensor_parser/tensor_config.py:152 | helper of `ModeLookup`: `csv_field.lower()`, which raises `AttributeError` on an int |
| TensorConfigs.ModeLookup | tensor_parser/tensor_config.py:151-154 | the `get_mode` search that `GetMode` is proved equal to. `ModeLookupByName` and `ModeLookupByInt` state its meaning |
| TensorConfigs.ModeLookupByName | tensor_parser/tensor_config.py:151-154 | looked up by a name, the search returns the first case-insensitively matching mode, or `IndexError` naming the field when none matches |
| TensorConfigs.ModeLookupByInt | tensor_parser/tensor_config.py:151-154 | looked up by an int, the search raises `AttributeError` on `int.lower()` whenever there is a mode. With no modes it raises `IndexError` naming the int |
| TensorConfigs.FirstMatch | tensor_parser/tensor_config.py:151-154 | the first case-insensitive match: it matches, no earlier mode does, and `None` means no mode matches |
| TensorConfigs.TensorConfig.GetModeByIdx | tensor_parser/tensor_config.py:157-172 | `IndexError` for `i >= n`; mode `i` for `0 <= i < n`. A negative index counts from the end down to `-n`, and beyond that it is the list's `IndexError` |
| TensorConfigs.TensorConfig.AddInput | tensor_parser/tensor_config.py:175-181 | appends the file to the input list. With no list it fails and nothing changes |
| TensorConfigs.TensorConfig.GetInputs | tensor_parser/tensor_config.py:184-186 | the input list: as the constructor gave it, extended only by `AddInput` |
| TensorConfigs.TensorConfig.SetOutput | tensor_parser/tensor_config.py:189-200 | only the output name changes, and `get_output` returns it |
| TensorConfigs.TensorConfig.GetDelimiter | tensor_parser/tensor_config.py:47-50 | the stored delimiter, `None` until set. `SetDelimiter` proves that a set is read back |
| TensorConfigs.TensorConfig.HasHeader | tensor_parser/tensor_config.py:64-66 | the stored header flag, `None` until set. `SetHeader` proves that a set is read back |
| TensorConfigs.TensorConfig.GetVals | tensor_parser/tensor_config.py:86-88 | the stored values field, `None` until set. `SetVals` proves that a set is read back |
| TensorConfigs.TensorConfig.GetMergeFunc | tensor_parser/tensor_config.py:133-134 | the stored reduction, `sum` until set. `SetMergeFunc` proves that a set is read back |
| TensorConfigs.TensorConfig.GetOutput | tensor_parser/tensor_config.py:198-200 | the stored output name. `SetOutput` proves that a set is read back |
| TensorConfigs.TensorConfig.NumModes | tensor_parser/tensor_config.py:203-205 | the number of mode records. `AddMode` proves that it grows by one per call and that the new mode sits at the old count |
| TensorConfigs.SetSortThenGet | tensor_parser/tensor_config.py:91-97 | after setting `sort`, the same mode is still the first match and has the new flag, with field and type kept |
| TensorConfigs.SetTypeThenGet | tensor_parser/tensor_config.py:123-127 | after setting `type`, the same mode is still the first match and has the new type, with field and sort kept |
| TensorConfigs.FieldMatches | tensor_parser/tensor_config.py:152 | helper of `FirstMatch`: `field.lower() == csv_field.lower()` |
| TensorConfigs.PyText | tensor_parser/tensor_config.py:154 | helper of `ModeLookup`: `str(csv_field)` as `format` writes it into the `IndexError` message, in decimal for an int |
| TensorConfigs.TensorConfig.State | tensor_parser/tensor_config.py:14-33 | helper of the setters' contracts: all fields as one value |
| TensorConfigs.FirstMatchUnique | tensor_parser/tensor_config.py:151-154 | a matching mode with no match before it is the first match |
| Builder.FirstIndex | tensor_parser/builder.py:27 | `header.index(field)`: the first exactly equal column, and `None` iff the field is not a column |
| Builder.FirstMissing | tensor_parser/builder.py:25-27 | the first mode whose field is not in the header, none iff all are |
| Builder.FirstShortRow | tensor_parser/builder.py:36-38 | the first row too short for a column, none iff every row fits |
| Builder.ScanFile | tensor_parser/builder.py:22-38 | one record per data row, with one value per mode |
| Builder.ScanFileMeaning | tensor_parser/builder.py:22-38 | a file's counting pass succeeds iff every mode's field is a column and every row reaches those columns. Record `i` holds row `i`'s value in each mode's column |
| Builder.ValueFile | tensor_parser/builder.py:63-75 | one value per data row when it succeeds |
| Builder.ValueFileMeaning | tensor_parser/builder.py:63-75 | without a values field, every value is `1`. A values field missing from the header is an error. Otherwise the pass succeeds iff every row reaches the values column, and value `i` is row `i`'s entry there |
| Builder.ValsActive | tensor_parser/builder.py:64-66 | helper of `ValueFile`: `if val_field:`, false for `None` and for the empty name |
| Builder.Ones | tensor_parser/builder.py:69 | helper of `ValueFile`: `val = 1` for every row when there is no values column |
| Builder.ValueColumn | tensor_parser/builder.py:74-75 | one value per row when every row reaches the column |
| Builder.GatherOutcome | tensor_parser/builder.py:18-38 | a pass over the inputs succeeds iff every file does. A failure is the error of a file all of whose predecessors succeeded |
| Builder.ScanShape | tensor_parser/builder.py:36-38 | the counting pass yields one record per data row of all files, with one value per mode |
| Builder.ValueShape | tensor_parser/builder.py:70-75 | the values pass yields one value per data row of all files |
| Builder.Lookup | tensor_parser/builder.py:72 | helper of `IndexBounds`: `indmaps[m][row[cols[m]]]` after the build, `None` for a failed transform or an absent key |
| Builder.Show | tensor_parser/builder.py:72 | helper of `Tokens`: `str(...)` of a lookup, `None` or the number |
| Builder.Line | tensor_parser/builder.py:77 | helper of `Render`: the joined indices, a space, then the value |
| Builder.IndexBounds | tensor_parser/builder.py:70-72 | a mode's numbered keys are exactly its column's transformed values. A row whose transform fails is emitted as `None`. Otherwise the index is that key's number, in `1..U` |
| Builder.ListingInverse | tensor_parser/index_map.py:97-104 | the entries `write_file` produces from a built map are the numbered keys in number order |
| Builder.MapFileName | tensor_parser/builder.py:85 | `'mode-{}-{}.map'.format(m + 1, field)` |
| Builder.MapFileNamesDistinct | tensor_parser/builder.py:85 | two different mode positions give two different file names, whatever the fields |
| Builder.MapFilesDistinct | tensor_parser/builder.py:82-85 | one map file per mode, and no two share a name, so no listing overwrites another |
| Builder.MapFileListing | tensor_parser/builder.py:82-85 | map file `m` is named `mode-{m+1}-{field}.map` and is the inverse of the mode's numbering: key `k` is entry `d[k]` |
| Builder.BuildShape | tensor_parser/builder.py:46-85 | a successful build had inputs and an output name. It writes one tensor entry per data row and one map file per mode |
| Builder.UntypedMapIsEmpty | tensor_parser/builder.py:13 | a map built without its mode's type numbers no key, and every index it gives is `None` |
| Builder.PositionLookupFails | tensor_parser/builder.py:12 | `get_mode(m)` with the position of any configured mode raises `AttributeError` on `int.lower()` instead of returning mode `m` |
| Builder.NewMaps | tensor_parser/builder.py:10-13 | one fresh, empty, distinct map per mode, not yet built, named after the mode's field and carrying that mode's type and sort |
| Builder.CountRow | tensor_parser/builder.py:37-38 | adds the row's value in each mode's column to that mode's map. It fails iff some column is past the row's end. Built numberings are untouched |
| Builder.CountCell | tensor_parser/builder.py:38 | `indmaps[m].add(key)` changes only map `m`, whose counter becomes `Step` of the old one. Every other map and every built numbering and flag is unchanged |
| Builder.CountRecord | tensor_parser/builder.py:37-38 | one row of the counting pass: it fails iff a column is past the row's end, and otherwise every map tracks the records so far plus this row's projection |
| Builder.CountRows | tensor_parser/builder.py:36-38 | the rows loop of one file: the first short row's error, or every map tracks the earlier records plus this file's records |
| Builder.ResolveColumns | tensor_parser/builder.py:23-27 | the columns the header gives the modes, or the first missing field |
| Builder.CountFile | tensor_parser/builder.py:18-38 | one file of the counting pass: each map's counter grows by the file's values in its mode's column, or the file's first error |
| Builder.CountAll | tensor_parser/builder.py:18-38 | the counting pass over every file: maps hold exactly the counts of all records, or the first error in file order |
| Builder.BuildOne | tensor_parser/builder.py:41 | `build_map` on a counted map leaves it built with `DenseMap` of its counts |
| Builder.BuildAll | tensor_parser/builder.py:40-41 | every map ends up built with the dense numbering of its counts |
| Builder.FillColumns | tensor_parser/builder.py:52-56 | a fresh array of one column per mode, each the first header index of the mode's field |
| Builder.FillIndices | tensor_parser/builder.py:71-72 | the row's index strings are the lookups of its mode values |
| Builder.EmitLine | tensor_parser/builder.py:71-77 | one output line equals `Line` of the row's projection and its value |
| Builder.EmitRows | tensor_parser/builder.py:69-77 | the lines of one file, each being the joined indices, a space, and the value, or the first short row for the values column |
| Builder.EmitFile | tensor_parser/builder.py:47-77 | one file of the emission pass matches `ValueFile`: its error, or its rendered lines |
| Builder.EmitAll | tensor_parser/builder.py:46-77 | the emission pass over every file renders every record with its value, or reports the first error |
| Builder.WriteMap | tensor_parser/builder.py:83-85 | the map file of one mode: its name and the listing of its numbered keys in number order |
| Builder.WriteAll | tensor_parser/builder.py:82-85 | the map files of all modes, in mode order |
| Builder.Build | tensor_parser/builder.py:7-85 | the whole run as a function of the configuration and the parsed files. `BuildShape`, `IndexBounds`, `MapFileListing` and `MapFilesDistinct` state what its output means |
| Builder.BuildTensor | tensor_parser/builder.py:7-85 | the whole program equals `Build`. It raises for no input list, then for the counting pass's first error, then for no output name, then for the values pass's first error. Otherwise it produces the tensor lines and the map files |
| Builder.Columns | tensor_parser/builder.py:23-27 | helper of `ScanFile` and `ResolveColumns`: each mode's `header.index(field)`, or the error for the first missing field |
| Builder.Fits | tensor_parser/builder.py:38 | helper of `Records`: `row[c]` exists for every column `c` |
| Builder.Project | tensor_parser/builder.py:37-38 | helper of `Records`: `row[cols[m]]` for every mode `m` |
| Builder.Records | tensor_parser/builder.py:36-38 | helper of `ScanFile`: each row's mode values, in row order |
| Builder.Rectangular | tensor_parser/builder.py:36-38 | helper of `ScanShape`: every record holds one value per mode |
| Builder.Column | tensor_parser/builder.py:38 | helper of `TallyOf`: mode `m`'s values record by record, the keys `indmaps[m]` is given |
| Builder.Picked | tensor_parser/builder.py:74-75 | helper of `ValueColumn`: `row[val_col]` of every row |
| Builder.PickedSnoc | tensor_parser/builder.py:74-75 | one more row adds its cell to `Picked` |
| Builder.FitsColumn | tensor_parser/builder.py:74-75 | every row fits the values column iff every row is longer than its index |
| Builder.FitsOne | tensor_parser/builder.py:75 | a row fits `[c]` iff it has a cell `c` |
| Builder.Then | tensor_parser/builder.py:18 | helper of `Gather`: the next file's result after the earlier ones, the first failure ending the loop |
| Builder.Gather | tensor_parser/builder.py:18 | helper of `GatherOutcome`: one pass over the input list, in order |
| Builder.ScanStep | tensor_parser/builder.py:18-38 | helper of `Build`: the counting pass's body for one named file |
| Builder.ValueStep | tensor_parser/builder.py:47-75 | helper of `Build`: the values pass's body for one named file |
| Builder.TotalRows | tensor_parser/builder.py:36 | helper of `BuildShape`: the number of data rows over all files |
| Builder.TallyOf | tensor_parser/builder.py:38 | helper of `CountAll`: the counter `indmaps[m]` holds after the counting pass |
| Builder.DenseOrder | tensor_parser/builder.py:41 | helper of `MapFileListing`: mode `m`'s keys in the order `build_map` numbers them |
| Builder.Numbering | tensor_parser/builder.py:40-41 | helper of `IndexBounds` and `BuildLines`: every mode's numbering after `build_map` |
| Builder.Tokens | tensor_parser/builder.py:71-72 | helper of `Line`: the `inds` list, mode by mode |
| Builder.Render | tensor_parser/builder.py:70-77 | helper of `BuildLines` and `EmitAll`: one output entry per record, in record order |
| Builder.DigitsThenDash | tensor_parser/builder.py:85 | helper of `MapFileNamesDistinct`: a digit string followed by `-` is read back unambiguously |
| Builder.Listing | tensor_parser/index_map.py:103-104 | helper of `ListingInverse`: key `u[i]` as entry `i` |
| Builder.MapFiles | tensor_parser/builder.py:82-85 | helper of `MapFilesDistinct` and `MapFileListing`: one map file per mode, in mode order |
| Builder.GatherSnoc | tensor_parser/builder.py:18 | one more file extends a pass by `Then` |
| Builder.GatherPersists | tensor_parser/builder.py:18 | once a pass fails on a prefix of the files, the whole pass fails with that error |
| Builder.GatherPrefix | tensor_parser/builder.py:18 | a pass that succeeds on all files succeeds on each prefix, file by file |
| Builder.OccursSomewhere | tensor_parser/index_map.py:50-53 | a positive number of values transforms to `k` iff some value does |
| Builder.ColumnKeys | tensor_parser/builder.py:38 | the keys a mode's column yields are the keys its records yield at that mode |
| Builder.NumberedKeys | tensor_parser/index_map.py:81-89 | after counting a column from scratch, the numbered keys are exactly its transformed values, and the numbering is dense |
| Builder.HitKeys | tensor_parser/index_map.py:81-89 | helper of `NumberedKeys`: a map holding exactly the keys some value transforms to has those keys as its domain |
| Builder.NumberedKey | tensor_parser/index_map.py:81-89 | a key is numbered iff some value of the column transforms to it |
| Builder.InverseOf | tensor_parser/index_map.py:103-104 | entries that place each key's text at its number are the listing of the keys |
| Builder.GatherAt | tensor_parser/builder.py:18 | in a successful pass, entry `i` of file `f` comes right after the entries of the files before `f` |
| Builder.BuildLines | tensor_parser/builder.py:46-77 | a successful build's tensor entries are the rendering of the counting pass's records and the values pass's values with the built numbering, one entry per data row |
| Builder.BuildLineAt | tensor_parser/builder.py:47-77 | entry `TotalRows(files before f) + i` of a successful build is the line of row `i` of file `f`: that row's mode values and value, under the built numbering |
| Builder.BuildLineOf | tensor_parser/builder.py:70-77 | entry `k` of a successful build renders record `k` and value `k` |
| Builder.PassesAt | tensor_parser/builder.py:47-75 | entry `TotalRows(files before f) + i` of both passes comes from row `i` of file `f` |
| Builder.ScanAt | tensor_parser/builder.py:18-38 | record `TotalRows(files before f) + i` of the counting pass is row `i` of file `f`'s |
| Builder.ValueAt | tensor_parser/builder.py:47-75 | value `TotalRows(files before f) + i` of the values pass is row `i` of file `f`'s |
| Builder.RenderAt | tensor_parser/builder.py:70-77 | helper of `BuildLineOf`: entry `k` of a rendering is the line of record `k` |
| Builder.ListingNumbers | tensor_parser/index_map.py:103-104 | the listing of distinct keys has one entry per numbered key, with key `k` at entry `e[k]` |
| Builder.ListingOf | tensor_parser/index_map.py:103-104 | under an enumeration `e` of the keys, entry `e[k]` of the listing is the text of `k` |
| Builder.Separate | tensor_parser/builder.py:10-13 | helper of `NewMaps`: the maps are pairwise different objects |
| Builder.Tracks | tensor_parser/builder.py:36-38 | helper of `CountRows` and `CountAll`: a map is its mode's, not built, and has counted a given column |
| Builder.Built | tensor_parser/builder.py:40-41 | helper of `BuildAll`: a map is its mode's, built with the dense numbering of its counts |
| Builder.TallyOfSnoc | tensor_parser/builder.py:37-38 | counting one more record steps each mode's counter by that record's value |
| Builder.TracksSnoc | tensor_parser/builder.py:37-38 | a map stepped by the new record's value tracks the extended column |
| Builder.RecordsSnoc | tensor_parser/builder.py:36-38 | one more row adds its projection to `Records` |
| Builder.FirstShortAt | tensor_parser/builder.py:75 | a row too short for a column, after rows long enough for it, is the first short row |
| Builder.RenderAppend | tensor_parser/builder.py:70-77 | rendering two runs of records is rendering each, concatenated |
| Builder.EmitStep | tensor_parser/builder.py:47-77 | one more file extends both passes and the rendered output by that file's records, values and lines |
| Builder.BuiltNumbering | tensor_parser/builder.py:40-41 | the built maps hold their modes' numberings and transforms |

## Left out

- CSV parsing is not modelled: there is no `csv_parser`, no delimiter or header sniffing and no gzip. Each file is the parsed header and rows `fs(name)` returns. The delimiter and header overrides are only stored.
- Fields containing a newline are not told apart. The CSV reader accepts a quoted field with an embedded newline (tensor_parser/csv_parser.py:110-118), and `print` then writes that tensor line or map-file key over several physical lines. The model's output sequences hold one logical line per `print` call: one entry per data row in the tensor file and one per key in a map file. This applies to `Builder.BuildShape`, `Builder.BuildLines`, `Builder.BuildLineAt`, `Builder.MapFileListing`, `Builder.ListingInverse` and `IndexMaps.IndexMap.WriteFile`.
- Opening and writing files is not modelled. The tensor and the map files are returned as lines. Output already written before a second-pass error is not modelled.
- The diagnostic prints are not modelled: `print(header[...])`, `print(cols)` and the stderr skip message. `Add` returns the skip message instead.
- The merge functions are only stored. `MERGE_AVG`'s float division is not modelled, and `build_tensor` never merges duplicate coordinates.
- Tallies.SortKeys: keys of mixed kinds (an `int` and a `str` from one transform) are sorted with all numbers first. Python's `list.sort()` raises `TypeError` on them.
- Keys.Below: it orders an `int` before every `str`. Python's `<` raises `TypeError` between them, so the order extends Python's rather than matching it.
- Strings.Lower: ASCII-only case mapping, which keeps the length. Python's `str.lower()` applies the Unicode mappings, and these can change the length: `'İ'.lower()` is two code points.
- Mode records in Python are dicts returned by reference, so the caller could alias them and mutate them afterwards. The model returns values.
- TensorConfigs.TensorConfig.AddInput: Python stores the caller's `csv_names` list itself (tensor_config.py:25), so `add_input` appends to the caller's list too, and `get_inputs` hands that same list back. The model keeps the inputs as a value and does not capture this aliasing.
- The `isinstance` assertions on keys and on `to_sort` are enforced by the Dafny types.
- `scripts/build_tensor.py` and the other command-line front ends are not part of this model.
- TensorConfigs.TensorConfig.AddMode: the default `transform=index_map.TYPE_STR` names an attribute that `index_map.py` does not define, so the model takes the transform as an argument and has no default. Python evaluates that default when the class body runs. Importing `tensor_config.py` therefore raises `AttributeError` before any call is made, and so does importing `builder.py`, which imports it at line 3. The model describes the module as its authors evidently intended it to load.
- IndexMaps.IndexMap.WriteFile: the listing is stated only for a dense `_map`, which is what one `build_map` on an empty map produces. Python's `sorted` tie order for a non-dense map is not modelled.
- Builder.BuildTensor: the map-creation loop is modelled with the calls its authors evidently intended. It uses `get_mode_by_idx(m)` instead of `get_mode(m)`. It constructs the map with the mode's field as its name and passes the mode's type. The column lookups of both passes (builder.py:26 and builder.py:55) and the map-file name loop (builder.py:85) call `get_mode(m)` the same way. The model reads those fields with the same positional lookup, `modes[m].field`. See Findings.

## Findings

| source | as written | input that shows it | evidently intended | confidence | as-written member | corrected member |
|---|---|---|---|---|---|---|
| tensor_parser/builder.py:12 | `config.get_mode(m)` passes the mode's position, here and again at builder.py:26, builder.py:55 and builder.py:85, and `get_mode` compares `csv_field.lower()`, which an `int` does not have | any configuration with one mode, e.g. field `"user"`: the search raises `AttributeError` at `m = 0` | look the mode up by position, as `get_mode_by_idx(m)` does, at all four calls | not executed | Builder.PositionLookupFails | TensorConfigs.TensorConfig.GetModeByIdx |
| tensor_parser/builder.py:13 | `index_map(sort=mode_sort)` passes neither the required name nor the mode's type. Even with a name, the map keeps the default type, whose call always raises, so every key is skipped | one mode with transform `x -> Text(x)` and one row `["a"]`: the map numbers no key and the line is `None 1` instead of `1 1` | each map built with its mode's field and type | not executed | Builder.UntypedMapIsEmpty | Builder.NewMaps |
