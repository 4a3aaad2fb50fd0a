# ReleasePlanningGen reconciliation, modelled in Dafny

ReleasePlanningGen keeps a Google Sheets release plan in step with the
tasks the Sfera tracker holds for one release label. `main.py` fetches the
tasks, normalises each into a row (`fill_dataframe`), finds the tasks
missing from the sheet (`get_unique_tasks`) and appends them before the
sheet's last row (`add_filtered_records`, `add_row_to_sheet`). It then
narrows the sheet to the release's active rows (`filter_release_data`),
finds the tasks whose status has changed (`get_changed_status_records`)
and writes their status and assignee back in one batch
(`update_google_sheet`).

This project models that reconciliation:

- `wrappers.dfy` (`Wrappers`): `Option` and `Result`.
- `tables.dfy` (`Tables`): the data model. A DataFrame is a `Table`: a
  set of column names and a sequence of `Record`s (`map<string, Value>`).
  Cells are `Value`s: a string, an integer or `Null`. The module also
  holds the column names the code uses literally, the `Error` kinds for
  the exceptions, `FromRecords` for `pd.DataFrame(list_of_dicts)`, and
  `Keep`, the boolean-mask selection `df[mask]`.
- `normalizer.dfy` (`Normalizer`): `fill_dataframe`. The loop over the
  response's `content` is a method, proved against the per-task function
  `NormalizeTask`.
- `reconciler.dfy` (`Reconciler`): `filter_release_data`,
  `get_unique_tasks` and `get_changed_status_records`. These are pure
  functions over tables.
- `appender.dfy` (`SheetAppend`): `add_row_to_sheet` as a pure insertion
  into the sheet grid (`seq<seq<Value>>`), and `add_filtered_records` as
  a method with its loop.
- `updater.dfy` (`SheetUpdate`): `update_google_sheet`. Its loop builds
  the list of cell writes (column letter, row number, value). The method
  returns the batch call it would make, or `NoCall`.

The remote services are inputs and outputs. The sheet's
`get_all_values` grid and `get_all_records` list are parameters. The
result of `insert_row` is the returned grid. The `batch_update` call is
the returned `BatchCall`. Remote refusals of `insert_row` are the set
`rejected` of 1-based record positions. `time.sleep(5)` is recorded as
the list of positions a pause came before. `COLUMS`, `STATUS_MAPPING` and
the excluded statuses are parameters. `ExcludedStatuses` is the list
`update_google_table` passes (main.py:458).

The model keeps the following behaviours of the code, though a reader
might expect otherwise:

- Status of a task without an assignee: the code looks up `""` in the
  mapping and falls back to `Бэклог`. So `Бэклог` is not forced when the
  mapping has an entry for `""` (`UnassignedCanBeMapped`).
- A sheet read with no records: `pd.DataFrame([])` has no columns, so
  `get_unique_tasks` raises. It does not return every tracker row
  (`UniqueTasksOfEmptySheetRead`). Every tracker row comes back only when
  the sheet table has the task column and no rows
  (`UniqueTasksOfSheetWithoutIds`).
- Pacing: the pause comes before each record whose 1-based position is a
  multiple of 10, whether or not earlier inserts succeeded. 23 records
  give 2 pauses, before records 10 and 20.
- A missing column in `get_changed_status_records` gives an empty
  DataFrame. It has no rows and `df.empty` holds, exactly as for a run in
  which every shared task agrees on its status; only the column sets
  differ (`ChangedStatusErrorLooksEmpty`).
- `get_changed_status_records` selects by task id. When two tracker rows
  share an id, both are returned if either differs from the sheet. The
  per-row "different status" reading holds when tracker ids are unique
  (`ChangedStatusOfUniqueIds`).
- The closing count of `add_filtered_records` is the number of records
  tried, not the number written. The model reports both.
- On a sheet that holds only its header row, position `len(all_values)`
  is 1, so the new row goes above the header (`AddRowToHeaderOnlySheet`).
  From then on the inserted row is row 1, so every later record is built
  against that first data row as its header (`HeaderOnlySheetTwoRecords`).
  In the full run this path is not reached from a header-only sheet: its
  `get_all_records` read has no records, so `get_unique_tasks` raises
  before anything is appended (main.py:446-449).
- A `COLUMS` list shorter than 11 names raises an IndexError while the row
  is built, after the two Gantt lists have been read. It is the
  `ShortColumnList` error of `NormalizeTask`.
- An empty `content` gives a DataFrame with no rows and no columns.

## Model

| member | source | states |
|---|---|---|
| Tables.Keep | main.py:219-222 | a mask selection returns only elements of the input that pass the mask, and every input element that passes appears in it |
| Tables.KeepConcat | main.py:297-298 | selection distributes over concatenation, so the relative order of kept rows is the input order |
| Tables.FromRecords | main.py:120 | a DataFrame built from records keeps the records as rows, and its columns are exactly the union of the records' keys (none when there are no records) |
| Normalizer.BeforeFirst | main.py:95-97 | `split('T')[0]` is the longest prefix without `'T'`: the next character, if any, is `'T'` |
| Normalizer.ComponentName | main.py:92 | the first component's name, or `''` when the component list is absent or empty |
| Normalizer.GanttDate | main.py:94-97 | an absent field gives None; an empty list is an error naming the field; otherwise the date part is the first entry up to its first `'T'`, the longest prefix without one |
| Normalizer.AssigneeName | main.py:98 | `''` without an assignee, otherwise `firstName`, rendered `"None"` when it is null |
| Normalizer.DeriveStatus | main.py:101 | the mapping's value for the assignee when there is one, `Бэклог` otherwise, so always `Бэклог` or a mapping value |
| Normalizer.NormalizeTask | main.py:89-117 | a task fails exactly when a Gantt date list is empty or `COLUMS` has fewer than 11 names, checked in the order start list, end list, column list; otherwise the row's keys are exactly the configured columns |
| Normalizer.NormalizedAt | main.py:103-115 | with distinct column names, column `COLUMS[i]` holds the i-th field value |
| Normalizer.NormalizedTaskFields | main.py:92-108 | release is the argument, task id is `number`, name is `name`, component is the first name or `''`, status comes from the mapping, priority is `priorityId - 2` |
| Normalizer.NormalizedPlanFields | main.py:94-115 | estimation is `''`, Gantt dates are the date part or Null, due date is `''` when absent, assignee is `firstName` or `''` |
| Normalizer.NormalizedFields | main.py:92-115 | release is the argument, task id is `number`, component is the first name or `''`, status comes from the mapping, priority is `priorityId - 2`, estimation is `''`, Gantt dates are the date part or Null, due date is `''` when absent, assignee is `firstName` or `''` |
| Normalizer.UnassignedTaskStatus | main.py:98-101 | a task without assignee gets an empty assignee and the mapping's value for `""`, else `Бэклог` |
| Normalizer.NormalizedStatusRange | main.py:101 | the status is `Бэклог` or a value of the mapping |
| Normalizer.UnassignedCanBeMapped | main.py:101 | a mapping entry for the empty name overrides `Бэклог` |
| Normalizer.SameKeysColumns | main.py:120 | a DataFrame whose rows share one key set has those columns, or none when empty |
| Normalizer.FillDataFrame | main.py:86-122 | succeeds iff every task normalises; then one row per task, in order, each the task's normalised row, with the configured columns, or none for an empty `content`; otherwise it stops at the first failing task with that task's error |
| Reconciler.FilterReleaseData | main.py:205-230 | keeps exactly the input rows of the release whose status is not excluded; columns unchanged; a missing release or status column is an error, release checked first |
| Reconciler.FilterReleaseDataOrder | main.py:219-225 | filtering preserves row order |
| Reconciler.UniqueTasks | main.py:281-304 | returns exactly the tracker rows whose task id is not among the sheet's ids; a missing task column on either side is an error |
| Reconciler.UniqueTasksOrder | main.py:297-301 | the unique rows keep the tracker's relative order |
| Reconciler.UniqueTasksOfSheetWithoutIds | main.py:294-298 | a sheet table with the task column and no rows returns the tracker table unchanged |
| Reconciler.UniqueTasksOfEmptySheetRead | main.py:294-304 | a sheet read with no records yields a missing-column error |
| Reconciler.UniqueTasksIdempotent | main.py:294-298 | once the unique rows are in the sheet, a second comparison finds nothing to add |
| Reconciler.StatusChanged | main.py:361-373 | an id counts as changed only when it occurs on both sides of the merge |
| Reconciler.ChangedStatusRecords | main.py:353-382 | returns tracker rows only, exactly those whose id is in a merged pair with differing statuses; a missing column gives an empty table |
| Reconciler.ChangedStatusRecordsOrder | main.py:373-375 | the result keeps the tracker's row order, duplicates included: splitting the tracker rows in two, the result is the kept rows of the first part followed by those of the second |
| Reconciler.ChangedStatusOfUniqueIds | main.py:361-373 | with unique tracker ids, a row is returned iff some filtered-sheet row has its id and a different status |
| Reconciler.ChangedStatusNeedsSheetRow | main.py:361-367 | a tracker id absent from the filtered sheet never appears |
| Reconciler.ChangedStatusIdempotent | main.py:370-373 | when the sheet statuses agree with the tracker's, nothing is returned |
| Reconciler.ChangedStatusErrorLooksEmpty | main.py:370-379 | the result of a missing column and the result of a run where all shared statuses agree both have no rows and are empty DataFrames; the first has no columns, the second the tracker's |
| Reconciler.StatusChangeScenario | main.py:457-461 | a sheet row for T-2 in Разработка against the tracker's Тестирование survives the filter and is reported |
| SheetAppend.HeaderCell | main.py:264 | the cell under a header is the record's value for that key when it has one, and `""` when it has none |
| SheetAppend.BuildRow | main.py:264 | the built row has the header's length and position i holds the record's value under header i, or `""` |
| SheetAppend.BuildRowCells | main.py:264 | each cell of the built row is `""` or one of the record's values |
| SheetAppend.BuildRowDropsExtraKey | main.py:264 | a key the header does not name does not change the built row |
| SheetAppend.InsertRow | main.py:267-271 | insert_row puts the row at the given 1-based position and shifts the rows below by one |
| SheetAppend.AddRowToSheet | main.py:252-271 | an empty sheet is an error; otherwise the sheet grows by one row, the built row sits before the former last row, and the rows above are unchanged |
| SheetAppend.AddRowToHeaderOnlySheet | main.py:254-271 | on a header-only sheet the new row lands above the header |
| SheetAppend.HeaderOnlySheetTwoRecords | main.py:252-271 | with two records on a header-only sheet, the second is built against the first inserted row and lands between it and the header |
| SheetAppend.AppendStep | main.py:336-344 | one record attempt fails exactly when the service refuses it or the sheet is empty, with the refusal reported as an API error; otherwise the new sheet is exactly `add_row_to_sheet`'s grid, one row longer |
| SheetAppend.AppendFromLength | main.py:325-344 | trying the records adds at most one row each, and exactly one each on a non-empty sheet with no refusals |
| SheetAppend.AddRowShape | main.py:257-271 | on a sheet of two or more rows an insert keeps the header on top and puts the built row just before the former last row |
| SheetAppend.AppendFromBeforeLastRow | main.py:325-344 | on a sheet with at least two rows, the accepted records end up in order before the former last row, with the header left on top |
| SheetAppend.AppendFromEmptySheet | main.py:254-255 | an empty sheet stays empty whatever the records |
| SheetAppend.PausePointsAreMultiples | main.py:325-327 | the pauses come before exactly the positions 1..n that are multiples of 10, n div 10 of them |
| SheetAppend.OutcomesPartition | main.py:325-344 | every position 1..n is in exactly one of the written and the failed lists, by whether its record could be written |
| SheetAppend.PausePointsAscending | main.py:325-327 | the pause list holds its positions in increasing order |
| SheetAppend.OutcomesAscending | main.py:325-344 | the written and the failed lists hold their positions in increasing order |
| SheetAppend.AddFilteredRecords | main.py:307-350 | an empty input does nothing; otherwise the sheet is the result of trying every record in order; the pause list is exactly the multiples of 10 up to n (n div 10 of them); each record is written or failed, in order, and failures do not stop the loop; the reported count is the number of records |
| SheetUpdate.IndexOf | main.py:412 | `list.index`: the first position holding the value, None exactly when it is absent |
| SheetUpdate.SheetTaskColumn | main.py:399-400 | the sheet's task ids in record order; a record without the key is an error |
| SheetUpdate.RowWrites | main.py:411-426 | a found task gives the E then K writes at row first index + 2 with its status and assignee; an unfound task gives none |
| SheetUpdate.PlannedWrites | main.py:405-426 | the update list alternates status and assignee writes, E then K, each pair on the same sheet row |
| SheetUpdate.PlanUpdates | main.py:405-426 | the loop builds exactly the planned update list, two writes per changed row whose task is in the sheet |
| SheetUpdate.PlannedWritesCount | main.py:405-431 | the update list has exactly two writes per matched task |
| SheetUpdate.PlannedWritesConcat | main.py:405-426 | the update list follows the order of the changed rows |
| SheetUpdate.PlannedWritesTargets | main.py:411-422 | every write targets column E or K of the first sheet row holding a changed task's id, within the sheet's data rows |
| SheetUpdate.UpdateGoogleSheet | main.py:385-436 | a missing key is an error before any call; no batch call when no task matches; otherwise one batch with the planned writes, reporting the number of matched tasks |

## Left out

- Login and the tracker search (main.py:58-77) are network I/O. The search result is the `content` sequence given to `FillDataFrame`.
- The gspread connection and calls (main.py:152-202 and the calls in the writers) are remote. Their data are parameters and results, as described above. A refused `batch_update` is not modelled.
- Configuration reading, logging and pandas display options (main.py:25-56) are environment set-up. Their values are parameters.
- `get_dataframe`'s `None` check and `sys.exit` (main.py:137-139), and all `print` output except the reported counts, are process plumbing.
- `update_google_table` (main.py:439-465) only calls the modelled operations in sequence. It is not modelled as one operation.
- `create_empty_dataframe` (main.py:80-83) is not modelled: `fill_dataframe` ignores the frame it builds.
- A task missing `number`, `name`, `component` or `priorityId` raises a KeyError that is not modelled. So are a null `assignee` object and Gantt fields that are not lists. `RawTask` always has these fields, with string names and ids.
- A response without a `content` key raises a KeyError (main.py:89) that is not modelled: `FillDataFrame` takes the `content` sequence itself.
- An `assignee` object without a `firstName` key raises a KeyError (main.py:98) that is not modelled: `Assignee.firstName` is an `Option` whose `None` stands for a null value, rendered `"None"`.
- A first component without a `name` key raises a KeyError (main.py:92) that is not modelled: a component is given by its name.
- The date reformatting with `strftime` and the NaN-to-None replacement (main.py:322, 330-333) are not modelled. Cell values here are never datetimes or NaN.
- pandas dtype coercion and NaN comparison rules are not modelled. Values compare structurally, and a number never equals a string.
- The exception classes (ValueError, RuntimeError) and their messages are collapsed into the `Error` kinds.
- The outer `except` of `add_filtered_records` (main.py:348-350) is not modelled. Nothing in the modelled loop raises outside the per-record `try`.
- How the spreadsheet service interprets entered values (`USER_ENTERED`) is not modelled. Inserted cells are stored as the values sent, and header cells that are not strings match no key.
