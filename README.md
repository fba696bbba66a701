# xls-to-resource: the extraction and grouping pipeline

This project models the part of `XlsToResources.main` that turns spreadsheet rows into the
group-partitioned key/value store that the Android and iOS exporters render, and proves
properties of that model in Dafny.

The store maps a group name to the ordered list of key/value pairs added under that group.
The default group is `""`. Every configured entry names a workbook file, a sheet, a one-based
row range and the key, value and optional group columns. For each entry, `main` checks the
entry, computes the last row to read (the row window), and walks the rows. It skips null rows
and rows whose key or value reduces to the empty string. It resolves the row's group, falling
back to the last non-empty group seen in this entry when `-expandgroupby` is given. Then it
appends the pair to that group's list through `add`.

Layout, one module per file:

- `wrappers.dfy` (`Wrappers`): `Option`, standing for a Java reference that may be null.
- `cells.dfy` (`Cells`): cells, rows, sheets and workbooks as data, and `GetString` (`getString`).
- `store.dfy` (`Store`): `KeyValuePair` and the bucket map. It holds `AddPair`, the function
  that specifies `add`, and the class `AggregationStore`, whose `Add` mutates the map in place.
  `Total` is the number of stored pairs.
- `extraction.dfy` (`Extraction`): entries, the entry checks (`Validate`, `WindowEnd`), group
  resolution and one row (`ResolveGroup`, `ProcessRow`). It also holds the specification folds
  (`RowsUpTo` over rows, `ProcessEntrySpec` for one entry, `RunSpec` over all entries) and the
  imperative loops `ProcessEntry` and `Run`, proved to compute exactly those folds.
- `extraction_lemmas.dfy` (`ExtractionLemmas`): what a row, an entry and a run can do to the
  store, and the carry-forward value.
- `scenarios.dfy` (`Scenarios`): small concrete runs.

The model follows the code in these behaviours:

- Two of the exceptions that escape `main` are kept in the model, as `Aborted`: the run ends
  and nothing is exported. The others are listed under "## Left out".
  - The sheet check `sheet > getNumberOfSheets()` admits `sheet == getNumberOfSheets()`, and
    `getSheetAt` then throws.
  - The group cell is read with `getStringCellValue()`, which throws for a numeric, boolean or
    error cell.
- The group cell's text is `getStringCellValue()`, not `getString`. A formula cell therefore
  contributes its cached string result.
- Blank and unrecognised evaluated cell types reduce to `""`, not to any literal text.
- `rowStart - 1` is Java `int` arithmetic. `rowStart == Integer.MIN_VALUE` wraps to
  `Integer.MAX_VALUE` (`FirstRow`).

The inputs the source gets from outside are parameters:

- The configured entries, already parsed from JSON. Column letters are already resolved to
  zero-based column indices.
- The workbooks that open, as a map from file name to workbook. A name missing from the map
  fails to open, for either of the two reasons `WorkbookFactory.create` reports.
- Each cell's evaluated value, and what `getStringCellValue()` gives for it.
- The `-expandgroupby` flag.

## Model

| member | source | states |
|---|---|---|
| `Cells.GetString` | src/main/java/com/hotcocoacup/mobiletools/xlstoresouces/XlsToResources.java:301-328 | the result is non-empty exactly when the cell exists, its evaluation is non-null, and it is a boolean, a number, or a non-empty string; booleans give "true"/"false", strings their own text, numbers their decimal rendering |
| `Store.AddPair` | src/main/java/com/hotcocoacup/mobiletools/xlstoresouces/XlsToResources.java:330-342 | the pair is appended at the end of the group's list, which starts empty when missing; the group becomes a key; every other group is unchanged; a key already present is kept, not overwritten |
| `Store.AddPairTotal` | src/main/java/com/hotcocoacup/mobiletools/xlstoresouces/XlsToResources.java:330-342 | `add` increases the total number of stored pairs by exactly one |
| `Store.AddPairExtends` | src/main/java/com/hotcocoacup/mobiletools/xlstoresouces/XlsToResources.java:330-342 | `add` is append-only: every list before it is a prefix of the same list after it |
| `Store.AggregationStore.constructor` | src/main/java/com/hotcocoacup/mobiletools/xlstoresouces/XlsToResources.java:135 | the shared map starts empty |
| `Store.AggregationStore.Add` | src/main/java/com/hotcocoacup/mobiletools/xlstoresouces/XlsToResources.java:330-342 | the in-place update leaves the map equal to `AddPair` of the old map |
| `Extraction.FirstRow` | src/main/java/com/hotcocoacup/mobiletools/xlstoresouces/XlsToResources.java:196 | the zero-based first row is `rowStart - 1` modulo 2^32 and lies within Java `int` range; it equals `rowStart - 1` unless `rowStart` is `Integer.MIN_VALUE` |
| `Extraction.WindowEnd` | src/main/java/com/hotcocoacup/mobiletools/xlstoresouces/XlsToResources.java:175-191 | with `rowEnd == -1` the window ends at the sheet's last row; otherwise the entry is rejected exactly when `rowEnd < 0` or `rowEnd < rowStart`; an accepted window never passes the last row or the zero-based `rowEnd - 1`, and ends at one of them |
| `Extraction.Validate` | src/main/java/com/hotcocoacup/mobiletools/xlstoresouces/XlsToResources.java:146-191 | a null file name, a workbook that fails to open and a sheet index outside `0 .. numberOfSheets` skip the entry; `sheet == numberOfSheets` passes the check and aborts in `getSheetAt`; an entry whose workbook opens and whose sheet exists starts exactly when `WindowEnd` accepts its row end, and is otherwise skipped for its row end; an entry that starts reads the named sheet from `FirstRow(rowStart)` to `WindowEnd` |
| `Extraction.ResolveGroup` | src/main/java/com/hotcocoacup/mobiletools/xlstoresouces/XlsToResources.java:231-252 | no group column gives "" and leaves the carried value alone; a group cell whose string value throws aborts; a non-empty group cell is the group and becomes the carried value; otherwise the group is the carried value when `expandGroupby` is on and the value is non-empty, else ""; the carried value changes only to a non-empty group |
| `Extraction.ProcessRow` | src/main/java/com/hotcocoacup/mobiletools/xlstoresouces/XlsToResources.java:198-256 | a null row is skipped; an existing row is skipped exactly when its key or value string is empty; a pair that is emitted is (key string, value string), both non-empty, in the group `ResolveGroup` gives; the row aborts exactly when group resolution does |
| `Extraction.HaltedStays` | src/main/java/com/hotcocoacup/mobiletools/xlstoresouces/XlsToResources.java:196-257 | once an exception is thrown in the row loop, no later row runs |
| `Extraction.ProcessEntrySpec` | src/main/java/com/hotcocoacup/mobiletools/xlstoresouces/XlsToResources.java:139-262 | a skipped entry leaves the store unchanged, and an entry whose sheet lookup throws aborts the run |
| `Extraction.ProcessEntry` | src/main/java/com/hotcocoacup/mobiletools/xlstoresouces/XlsToResources.java:139-262 | the loop body over entries (checks, row loop with `continue`s and `lastGroupbyValue`) aborts exactly when `ProcessEntrySpec` does, and otherwise leaves the store equal to it |
| `Extraction.Run` | src/main/java/com/hotcocoacup/mobiletools/xlstoresouces/XlsToResources.java:135-263 | the loop over all entries, from an empty map, aborts exactly when `RunSpec` does, and otherwise ends with the store `RunSpec` gives |
| `ExtractionLemmas.LastGroupSeen` | src/main/java/com/hotcocoacup/mobiletools/xlstoresouces/XlsToResources.java:193-237 | the reference value of `lastGroupbyValue` is never the empty string |
| `ExtractionLemmas.RowEffect` | src/main/java/com/hotcocoacup/mobiletools/xlstoresouces/XlsToResources.java:196-256 | one row adds at most one pair and only appends; a null row or one with an empty key or value changes neither the store nor the carried group; it keeps all pairs non-empty; without a group column it adds no group other than "" |
| `ExtractionLemmas.RowsGrowth` | src/main/java/com/hotcocoacup/mobiletools/xlstoresouces/XlsToResources.java:196-257 | the rows `first .. i-1` only append, add at most `i - first` pairs, keep all pairs non-empty, and without a group column use only "" |
| `ExtractionLemmas.CarriedGroup` | src/main/java/com/hotcocoacup/mobiletools/xlstoresouces/XlsToResources.java:193-237 | `lastGroupbyValue` before row `i` is null at the start of the entry, and afterwards the group text of the latest earlier row that reached the group step with a non-empty group cell; it does not depend on `expandGroupby` |
| `ExtractionLemmas.RowGroup` | src/main/java/com/hotcocoacup/mobiletools/xlstoresouces/XlsToResources.java:231-252 | with a group column, a row's pair goes to its own non-empty group text, else (with `expandGroupby`) to the latest earlier non-empty group text of the entry, else to "" |
| `ExtractionLemmas.EntryGrowth` | src/main/java/com/hotcocoacup/mobiletools/xlstoresouces/XlsToResources.java:175-257 | one entry only appends to the store and keeps all pairs non-empty; without a group column it adds only to ""; with an explicit `rowEnd` it adds at most `rowEnd - rowStart + 1` pairs |
| `ExtractionLemmas.SkippedEntry` | src/main/java/com/hotcocoacup/mobiletools/xlstoresouces/XlsToResources.java:146-191 | an entry with a null file name, a sheet index below 0 or above the sheet count, or an invalid `rowEnd` leaves the store unchanged |
| `ExtractionLemmas.RunAppend` | src/main/java/com/hotcocoacup/mobiletools/xlstoresouces/XlsToResources.java:137-263 | running entries `a ++ b` is running `a` and then `b` on the store `a` left, and an abort in `a` prevents `b` |
| `ExtractionLemmas.RunGrowth` | src/main/java/com/hotcocoacup/mobiletools/xlstoresouces/XlsToResources.java:135-263 | a run only appends to every group's list, keeps all pairs non-empty, and with no group column in any entry adds only the group "" |
| `ExtractionLemmas.EarlierEntriesFirst` | src/main/java/com/hotcocoacup/mobiletools/xlstoresouces/XlsToResources.java:135-138 | in every group, the pairs of earlier entries precede those of later entries: the store after `a` is a prefix-wise part of the store after `a ++ b` |
| `ExtractionLemmas.RunPairsNonEmpty` | src/main/java/com/hotcocoacup/mobiletools/xlstoresouces/XlsToResources.java:215-229 | every pair a run stores has a non-empty key and a non-empty value |
| `Scenarios.CarryForwardOn` | src/main/java/com/hotcocoacup/mobiletools/xlstoresouces/XlsToResources.java:235-241 | rows ("g1","k1","v1") then (blank,"k2","v2") with `expandGroupby` put both pairs in "g1" |
| `Scenarios.CarryForwardOff` | src/main/java/com/hotcocoacup/mobiletools/xlstoresouces/XlsToResources.java:235-250 | the same rows without `expandGroupby` put the second pair in "" |
| `Scenarios.BlankKeySkipped` | src/main/java/com/hotcocoacup/mobiletools/xlstoresouces/XlsToResources.java:196-221 | rows 2 to 4 where row 3's key is blank give the default group exactly the pairs of rows 2 and 4 |
| `Scenarios.GroupsMergeAcrossEntries` | src/main/java/com/hotcocoacup/mobiletools/xlstoresouces/XlsToResources.java:330-342 | two entries using the group "colors" fill one list, the first entry's pair first |
| `Scenarios.SheetOnePastEndAborts` | src/main/java/com/hotcocoacup/mobiletools/xlstoresouces/XlsToResources.java:166-173 | on a one-sheet workbook, sheet index 1 passes the check and the run aborts before the next entry |
| `Scenarios.BadRowEndSkipped` | src/main/java/com/hotcocoacup/mobiletools/xlstoresouces/XlsToResources.java:182-186 | an entry with `rowEnd < rowStart` is skipped and the next entry still runs |

## Left out

- Command-line parsing, help, version and `System.exit` (lines 54-110, 344-370): user interface built on a library.
- Reading the JSON configuration with Gson and its three error paths (lines 112-130): file I/O and a foreign library. The entry list is an input.
- A `null` element of the configured entry list (line 142): `entry.getXlsFile()` throws NullPointerException and ends the run. The model's entry list holds no nulls.
- Opening workbooks (lines 151-161): file I/O. It is a map from file name to workbook. Both exceptions are one failure that skips the entry.
- Formula evaluation (lines 163, 307): a foreign library. Each cell carries its evaluated value. `evaluator.evaluate` throws on a formula it cannot evaluate, which ends the run; that exception is not modelled.
- Column-letter parsing with `CellReference` (lines 207-208, 233): the columns are given as zero-based indices. An invalid letter or a null column field is not modelled.
- `String.valueOf(double)` (line 318): floating point formatting. A numeric cell carries its rendering, which is never empty.
- The Android and iOS exporters (lines 265-296): their code is not part of this model, and they write output streams.
- Logging throughout, and the entry counter, which only feeds log messages.
- Closing workbooks: the source never closes them.
- The iteration order of groups: `HashMap` has none, so only the order within a group is modelled.
- Extraction.ProcessEntry: the loop index is an unbounded integer. A sheet whose last row number is `Integer.MAX_VALUE` would make the Java loop's `i++` wrap and never end, but spreadsheet formats cap rows far below that.
- Extraction.ProcessEntry: it is the body of the loop over entries in `main`, written as a method of its own, not inline.
