# Filtered datasets of the veusz document model

This project models veusz's filtered datasets (`veusz/document/dataset_filtered.py`)
in Dafny and proves properties of the model. The component has three parts:

- **`DatasetFilterGenerator`**: evaluates a boolean filter expression once per
  document change. It then filters every named source dataset, numeric or text,
  and caches the results in `outdatasets`.
- **`DatasetFiltered`**: the dataset the user sees. It is a read-only facade that
  refreshes from its shared generator whenever the document's change counter
  has moved. The generator writes one `FilterDatasets(...)` statement to the
  save file, and only the first of its datasets in name order triggers it.
- **`OperationDatasetsFilter`**: the undoable operation. `do` binds one filtered
  dataset per source under `prefix + name + suffix` and records what each output
  name held before. `undo` puts those entries back.

Modules:

- `Wrappers`: `Option`, `Result` and dictionary lookup (`dict.get`).
- `Datasets`: dataset values. A numeric dataset has a data column and a list
  of optional further columns (the error bars `serr`, `perr` and `nerr` in veusz),
  which the filter treats alike. A text dataset has a list of strings. 2-D datasets
  and other kinds exist only so that they can be refused. NaN is the `Missing` cell.
- `Selection`: boolean-mask selection (`a[mask]`) and blanking
  (`a[~mask] = blank`) on sequences.
- `Filtering`: one refresh of a generator as pure functions: the filter array,
  the per-source results and the log entries.
- `NameOrder`: Python's string ordering and `sorted()` over dictionary keys.
- `SaveFormat`: the saved statement as a list of arguments, its text, and
  replaying it with the call's defaults.
- `FilteredDatasets`: the classes `Document`, `FilterGenerator`,
  `DatasetFiltered` and `OperationDatasetsFilter`, which update their fields
  in place.
- `Scenarios` and `ReadScenarios`: worked examples, the second on the classes.
  The filter `x>2` is applied over `x = [1..5]` to `y = [10, 20, 30, 40, 50]`.

Behaviour of the code worth noting, which the model follows:

- A filter expression that evaluates to nothing clears the outputs and logs
  nothing (lines 89-91). It is not reported.
- The saved name list holds the source names (`namein`) in the order of the
  documents' *output* names (lines 131-134). It is not sorted by source name.
- `undo` restores the document exactly only when the input names are distinct.
  With a repeated name, `do` records the entry it bound itself a moment earlier
  (lines 238-241).
- `do` returns `gen.outdatasets`, which is always empty at that point (line 243).
- `undo` before any `do` fails: the constructor never creates `olddatasets`
  (lines 208-226), so reading it at line 248 raises an AttributeError.
- `filterText` cannot run as written (see Findings).

## Model

| member | source | states |
|---|---|---|
| Wrappers.Get | veusz/document/dataset_filtered.py:108 | `dict.get`: present exactly when the key is in the map, and then the mapped value |
| Datasets.EmptyDataset | veusz/document/dataset_filtered.py:174 | `Dataset(data=[])` is a well-formed 1-D numeric dataset of length 0 |
| Selection.TrueIndices | veusz/document/dataset_filtered.py:65 | the positions `a[mask]` keeps: one per true entry, each a true position, strictly increasing |
| Selection.TrueIndicesComplete | veusz/document/dataset_filtered.py:65 | every true position of the mask is kept |
| Selection.Select | veusz/document/dataset_filtered.py:65 | `a[mask]` has one element per true entry, the k-th being the element at the k-th true position |
| Selection.SelectSnoc | veusz/document/dataset_filtered.py:131-134 | selecting over one more entry appends it exactly when its mask bit is set, as appending inside the loop does |
| Selection.Blank | veusz/document/dataset_filtered.py:63 | blanking keeps the mask's length and puts the blank exactly at false positions |
| Selection.SelectAfterBlank | veusz/document/dataset_filtered.py:62-65 | selecting after blanking gives the same values as selecting alone, so both policies agree on the kept values |
| Filtering.FilterArray | veusz/document/dataset_filtered.py:102-104 | one boolean per value, true iff the value is non-zero (NaN counts as true), negated iff `invert` |
| Filtering.EvaluateFilter | veusz/document/dataset_filtered.py:89-104 | a mask exists iff the expression gave a 1-D numeric dataset, and it is that dataset's filter array; no value, a value that is not 1-D and a 1-D value that is not numeric are each told apart |
| Filtering.ColumnFiltered | veusz/document/dataset_filtered.py:61-65 | with blanks: the cut length, the value where the mask is true and NaN elsewhere; without: exactly the values at true positions, in order |
| Filtering.OptColumnFiltered | veusz/document/dataset_filtered.py:57-66 | a missing column stays missing and a present one is filtered |
| Filtering.NumericFiltered | veusz/document/dataset_filtered.py:52-67 | a well-formed numeric copy with every column filtered alike; length equals the cut length with blanks and the number of true entries without |
| Filtering.FilterText | veusz/document/dataset_filtered.py:69-76 | with blanks: the cut length, with "" at false positions; without: exactly the entries at true positions, in order |
| Filtering.FilterTextAsWritten | veusz/document/dataset_filtered.py:69-76 | the text filter as written always fails with a NameError |
| Filtering.TextFilterFinding | veusz/document/dataset_filtered.py:71-75 | on `["a", "b"]` with `[true, false]` the code as written fails where the intended result is `["a"]` |
| Filtering.FilterSource | veusz/document/dataset_filtered.py:108-122 | a result exactly for a present 1-D numeric or text source; it keeps the datatype; with the filter cut to `min(len(ds.data), len(filterarr))`, a numeric result has its data column and every error column filtered by `ColumnFiltered`, and a text result is the source's entries filtered by `FilterText` |
| Filtering.SourceDiagnostic | veusz/document/dataset_filtered.py:109-122 | a diagnostic exactly for a source that cannot be filtered: "not 1-D" when missing or multi-dimensional, otherwise "could not filter", naming the source |
| Filtering.OutputsContents | veusz/document/dataset_filtered.py:106-124 | per-name isolation in the loop's result `Outputs`: a name is bound iff it is a source name whose own source can be filtered, and then to that source's filtered copy |
| Filtering.SourceLogContents | veusz/document/dataset_filtered.py:106-122 | the loop logs only sources that cannot be filtered, each under its own name, and logs every one of them |
| Filtering.SourceLog | veusz/document/dataset_filtered.py:106-122 | at most one log entry per name visited |
| Filtering.RefreshLog | veusz/document/dataset_filtered.py:89-121 | a recomputing refresh logs nothing for an absent filter value, exactly one entry naming the expression for a filter that is not 1-D or not numeric, and the per-source log for a usable filter |
| Filtering.RecomputedContents | veusz/document/dataset_filtered.py:81-124 | after a recomputing refresh (`Recomputed`) the cache holds only source names, none at all when the filter is unusable, each bound to its filtered copy |
| NameOrder.BelowTotal | veusz/document/dataset_filtered.py:132 | Python's string order is total and asymmetric |
| NameOrder.BelowTransitive | veusz/document/dataset_filtered.py:132 | Python's string order is transitive |
| NameOrder.SortedUnique | veusz/document/dataset_filtered.py:132 | two sorted key lists over the same names are equal, so `sorted()` has exactly one answer |
| NameOrder.SortedNames | veusz/document/dataset_filtered.py:132 | `sorted(doc.data)` gives the document's names in increasing order, each once |
| SaveFormat.OptionalArgs | veusz/document/dataset_filtered.py:140-147 | at most four keyword arguments, each a known keyword with a non-default value |
| SaveFormat.SaveArgs | veusz/document/dataset_filtered.py:136-147 | the expression, then the name list, then only non-default keyword arguments |
| SaveFormat.SavedKeywordOrder | veusz/document/dataset_filtered.py:140-147 | the keywords come strictly in the order prefix, suffix, invert, replaceblanks |
| SaveFormat.ReplaySaved | veusz/document/dataset_filtered.py:136-149 | replaying the saved arguments against the defaults of `FilterDatasets` gives back expression, names, prefix, suffix, invert and replaceblanks |
| SaveFormat.Statement | veusz/document/dataset_filtered.py:149 | the line written is `FilterDatasets(` ... `)` followed by a newline |
| FilteredDatasets.Document.Sources | veusz/document/dataset_filtered.py:108 | the names a generator can filter: the document's ordinary datasets, unchanged |
| FilteredDatasets.Document.SetData | veusz/document/dataset_filtered.py:241 | binds one name and bumps the change counter once |
| FilteredDatasets.Document.DeleteData | veusz/document/dataset_filtered.py:250 | removes one name and bumps the change counter once |
| FilteredDatasets.Document.Log | veusz/document/dataset_filtered.py:93-121 | appends one diagnostic to the log |
| FilteredDatasets.SourceOf | veusz/document/dataset_filtered.py:108-109 | only an ordinary dataset counts as a source |
| FilteredDatasets.BoundNamesIn | veusz/document/dataset_filtered.py:131-134 | the list is the source names of the visited entries selected by "bound to this generator", in visiting order |
| FilteredDatasets.NamesAt | veusz/document/dataset_filtered.py:134 | the source name of each visited entry, position by position |
| FilteredDatasets.BoundMask | veusz/document/dataset_filtered.py:133 | whether each visited entry is bound to the generator, position by position |
| FilteredDatasets.BoundNamesSnoc | veusz/document/dataset_filtered.py:132-134 | one more visited name appends its source name exactly when its entry is bound |
| FilteredDatasets.BoundNamesSound | veusz/document/dataset_filtered.py:131-134 | every listed name is the source name of a visited entry bound to the generator |
| FilteredDatasets.BoundNamesComplete | veusz/document/dataset_filtered.py:131-134 | the source name of every visited entry bound to the generator is listed |
| FilteredDatasets.FirstBound | veusz/document/dataset_filtered.py:185-194 | the dataset that uses the generator at the first such position in the visited names, with none before it; it exists iff one does, and it is one of the document's datasets |
| FilteredDatasets.FirstBoundLeast | veusz/document/dataset_filtered.py:185-194 | over sorted names, that dataset has the least name among the generator's datasets |
| FilteredDatasets.FilterGenerator.constructor | veusz/document/dataset_filtered.py:30-50 | stores the parameters, with the sentinel change count -1 and an empty cache |
| FilteredDatasets.FilterGenerator.FilterColumn | veusz/document/dataset_filtered.py:57-66 | the loop over one column computes the column filtered under the generator's policy |
| FilteredDatasets.FilterGenerator.FilterNumeric | veusz/document/dataset_filtered.py:52-67 | the loop over the columns computes the numeric dataset filtered column by column |
| FilteredDatasets.FilterGenerator.FilterOne | veusz/document/dataset_filtered.py:108-124 | one source yields either its filtered copy or its diagnostic, never both |
| FilteredDatasets.StampedKept | veusz/document/dataset_filtered.py:42-50 | a never-filled cache (stamp -1) is valid, and a document change, which bumps the counter, keeps a valid cache valid |
| FilteredDatasets.FilterGenerator.CheckUpdate | veusz/document/dataset_filtered.py:78-124 | cache hit: with an unchanged counter nothing changes; cache miss: the counter is recorded, the cache is recomputed from scratch for the document's contents and the refresh's diagnostics are appended to the log; a valid cache ends as the recomputation for the current contents |
| FilteredDatasets.FilterGenerator.FilterSources | veusz/document/dataset_filtered.py:106-124 | the loop over the source names fills the cache with the outputs and appends the per-source log, in source order |
| FilteredDatasets.FilterGenerator.FilterStep | veusz/document/dataset_filtered.py:107-124 | one loop iteration extends cache and log by exactly that source's outcome |
| FilteredDatasets.FilterGenerator.BoundSourceNames | veusz/document/dataset_filtered.py:129-134 | the source names of the generator's datasets, visited in sorted output-name order |
| FilteredDatasets.FilterGenerator.AppendIf | veusz/document/dataset_filtered.py:140-147 | appends a keyword argument only when its flag is set |
| FilteredDatasets.FilterGenerator.SaveToFile | veusz/document/dataset_filtered.py:126-149 | writes the statement for the generator's parameters and its current names |
| FilteredDatasets.OutputOrEmpty | veusz/document/dataset_filtered.py:172-176 | the generator's output for the name, or an empty dataset when there is none |
| FilteredDatasets.DatasetFiltered.constructor | veusz/document/dataset_filtered.py:158-164 | stores generator, source name and document, with the sentinel change count -1 and no cached dataset |
| FilteredDatasets.DatasetFiltered.CheckUpdate | veusz/document/dataset_filtered.py:166-176 | a refresh happens only when the counter moved; then the generator is current, and the cache holds its output or the empty dataset; the generator recomputes only if it was stale itself, and the log grows by the refresh's diagnostics exactly then; valid caches of facade and generator stay valid |
| FilteredDatasets.DatasetFiltered.LinkedInformation | veusz/document/dataset_filtered.py:178-180 | the provenance text names the source dataset and ends with the filter expression |
| FilteredDatasets.DatasetFiltered.Current | veusz/document/dataset_filtered.py:198-201 | reading gives the cached dataset on a hit and the generator's output (or empty) on a miss, with the generator's new state and the log stated as for the refresh; with valid caches it is this source's output of a recomputation for the document's current contents, and both caches stay valid for the next read |
| FilteredDatasets.DatasetFiltered.SaveToFile | veusz/document/dataset_filtered.py:182-196 | writes the generator's statement iff this is the first of its datasets in name order |
| FilteredDatasets.OneStatementPerGenerator | veusz/document/dataset_filtered.py:185-196 | while any dataset of a generator remains, the one that writes the statement exists and is the generator's dataset with the least name, so exactly one statement is written |
| FilteredDatasets.OutputNames | veusz/document/dataset_filtered.py:239 | one output name `prefix + name + suffix` per input name, in order |
| FilteredDatasets.OutputNameInjective | veusz/document/dataset_filtered.py:239 | distinct input names get distinct output names |
| FilteredDatasets.Recorded | veusz/document/dataset_filtered.py:236-240 | the undo record has one entry per output name, holding what the document had there (or absent) |
| FilteredDatasets.Restored | veusz/document/dataset_filtered.py:248-252 | a recorded name gets back its saved entry or is removed; other names are untouched |
| FilteredDatasets.RestoreStep | veusz/document/dataset_filtered.py:248-252 | undoing one recorded name is a single set or delete of that name |
| FilteredDatasets.UndoRestoresDo | veusz/document/dataset_filtered.py:236-252 | applying the record of `do` after `do` gives back exactly the document before `do` |
| FilteredDatasets.OperationDatasetsFilter.constructor | veusz/document/dataset_filtered.py:208-226 | accepts only a non-empty prefix or suffix, and stores the parameters |
| FilteredDatasets.OperationDatasetsFilter.Create | veusz/document/dataset_filtered.py:219-226 | fails with a configuration error iff prefix and suffix are both empty, and otherwise gives an operation with the given parameters |
| FilteredDatasets.OperationDatasetsFilter.BindOne | veusz/document/dataset_filtered.py:239-241 | records the old entry of one output name and binds a fresh, not yet refreshed (counter -1) filtered dataset there |
| FilteredDatasets.OperationDatasetsFilter.BindAll | veusz/document/dataset_filtered.py:238-241 | every output name holds a fresh, not yet refreshed filtered dataset for its source, other names are untouched, and the record has every output name |
| FilteredDatasets.OperationDatasetsFilter.Do | veusz/document/dataset_filtered.py:228-243 | one fresh generator with the operation's parameters; the record now exists; every output name is bound to a not yet refreshed dataset of it, so its cache is valid; everything else is unchanged; the undo record is exact for distinct names; the result is empty |
| FilteredDatasets.OperationDatasetsFilter.Undo | veusz/document/dataset_filtered.py:245-252 | before any `do` it fails and changes nothing; after one, the document becomes the recorded entries over the current one, with one counter bump per recorded name |
| FilteredDatasets.OperationDatasetsFilter.RestoreAll | veusz/document/dataset_filtered.py:248-252 | the loop of `undo` sets or deletes each recorded name, giving `Restored`, with one counter bump each |
| Scenarios.KeepsTruePositions | veusz/document/dataset_filtered.py:102-124 | `x>2` keeps `y = [10..50]` as `[30, 40, 50]` |
| Scenarios.InvertKeepsFalsePositions | veusz/document/dataset_filtered.py:102-124 | inverted, it keeps `[10, 20]` |
| Scenarios.ReplaceBlanksKeepsLength | veusz/document/dataset_filtered.py:102-124 | with blanks, it gives `[NaN, NaN, 30, 40, 50]` |
| Scenarios.LongerFilterIsCut | veusz/document/dataset_filtered.py:113-114 | a five-element filter over a three-element source is cut to three |
| Scenarios.TextSourceSelected | veusz/document/dataset_filtered.py:118-119 | a text source keeps the entries at true positions |
| Scenarios.TextSourceBlanked | veusz/document/dataset_filtered.py:118-119 | with blanks, a text source keeps its length with "" at false positions |
| Scenarios.MissingSourceIsolated | veusz/document/dataset_filtered.py:107-124 | a missing source is logged and skipped while the source beside it is still filtered |
| ReadScenarios.GoneAndY | veusz/document/dataset_filtered.py:106-124 | refreshing over an absent source and y binds only y's filtered copy and logs the absent name once |
| ReadScenarios.DoOnY | veusz/document/dataset_filtered.py:228-243 | `do` with suffix `_f` on a document holding y binds gone_f and y_f to unrefreshed datasets of one new generator |
| ReadScenarios.ReadAfterDo | veusz/document/dataset_filtered.py:166-201 | after `do`, reading y_f gives [30, 40, 50] and logs the absent source once; reading gone_f in the same version gives the empty dataset and logs nothing more; after the document changes, reading y_f recomputes and logs again |

## Left out

- `veusz/dataimport/dialog_hdf5.py` is not part of this model. It is import
  dialog code, and so are the rest of veusz's GUI and file formats.
- `evalDatasetExpression` is not part of this model. It is the `evaluate`
  parameter of the refresh methods: a function from the document's contents
  to the dataset the filter expression gives, or None.
- `__getattr__` forwards every attribute read. It is modelled as
  `DatasetFiltered.Current`, which refreshes and returns the whole cached
  dataset. The attribute lookup itself is left out.
- The document class is not part of this model. `setData`, `deleteData` and
  `log` are modelled only as far as the filter code depends on them: set or
  remove one name, bump the change counter once, and append a log entry.
- Log messages are diagnostics naming the expression or source. Their
  translated text is left out.
- `SaveFormat.Quote`: `repr` escaping of quotes and backslashes is not modelled.
  `ReplaySaved` shows the round trip on the argument list, and the text is not
  parsed back.
- Numeric datasets have the columns data, serr, perr and nerr. Other numeric
  subclasses and their extra columns are not modelled.
- A well-formed dataset is one whose columns all have the same length (the
  `WfDataset` type). A dataset whose columns differ in length is not modelled.
- A filtered dataset used as a source of another filter counts as unavailable
  and is logged and skipped. Refreshing through a chain of filters is not
  modelled.
- Floating-point values appear only as opaque reals with NaN as `Missing`. No
  arithmetic is done on them.
- Threads and re-entrancy are left out. The code is single-threaded.
- FilteredDatasets.OperationDatasetsFilter.Do: the undo record's values are
  stated only for distinct input names. With a repeated name, the code records
  the dataset it bound itself on the earlier iteration.
- FilteredDatasets.OperationDatasetsFilter.BindAll: the same restriction to distinct input names.
- FilteredDatasets.UndoRestoresDo: exact restoration is proved for the record
  that `do` makes from distinct input names. It is not proved for repeated names.

## Findings

| source | as written | input that shows it | evidently intended | confidence | as-written member | corrected member |
|---|---|---|---|---|---|---|
| veusz/document/dataset_filtered.py:71-75 | both comprehensions of `filterText` iterate over `data`, a name bound nowhere in the method or module, so any text source raises NameError | a text source `["a", "b"]` with the filter `[true, false]`: NameError instead of `["a"]` | iterate over the source's entries `ds.data` | high; not executed | Filtering.FilterTextAsWritten | Filtering.FilterText |
