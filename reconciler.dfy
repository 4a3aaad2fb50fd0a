/** The reconciler of main.py: the release filter over the sheet, the tasks
    missing from the sheet, and the tasks whose status has changed. */
module Reconciler {
  import opened Wrappers
  import opened Tables

  /** The statuses update_google_table excludes before looking for changes. */
  const ExcludedStatuses := ["Бэклог", "Отмена", "Блок", "Готово", "Поставка"]

  predicate InRelease(row: Record, release: string)
  {
    Cell(row, ReleaseColumn) == Str(release)
  }

  /** `df['Статус'].isin(excluded)` for one row. */
  predicate IsExcluded(row: Record, excluded: seq<string>)
  {
    Cell(row, StatusColumn).Str? && Cell(row, StatusColumn).s in excluded
  }

  predicate ActiveInRelease(row: Record, release: string, excluded: seq<string>)
  {
    InRelease(row, release) && !IsExcluded(row, excluded)
  }

  /** filter_release_data: the rows of the given release whose status is not
      excluded. Reading a column the table lacks raises (the release column
      is read first). */
  function FilterReleaseData(t: Table, release: string, excluded: seq<string>): (r: Result<Table, Error>)
    ensures r.Err? <==> ReleaseColumn !in t.columns || StatusColumn !in t.columns
    ensures r.Err? ==> r.error == MissingColumn(if ReleaseColumn !in t.columns then ReleaseColumn else StatusColumn)
    ensures r.Ok? ==> r.value.columns == t.columns
    ensures r.Ok? ==> forall i :: 0 <= i < |r.value.rows| ==>
      r.value.rows[i] in t.rows && ActiveInRelease(r.value.rows[i], release, excluded)
    ensures r.Ok? ==> forall i :: 0 <= i < |t.rows| && ActiveInRelease(t.rows[i], release, excluded) ==>
      t.rows[i] in r.value.rows
  {
    if ReleaseColumn !in t.columns then Err(MissingColumn(ReleaseColumn))
    else if StatusColumn !in t.columns then Err(MissingColumn(StatusColumn))
    else Ok(Table(t.columns, Keep(t.rows, row => ActiveInRelease(row, release, excluded))))
  }

  /** Filtering a sheet whose rows are split in two filters each part and
      keeps the parts in order. */
  lemma FilterReleaseDataOrder(cols: set<string>, rows1: seq<Record>, rows2: seq<Record>, release: string, excluded: seq<string>)
    requires ReleaseColumn in cols && StatusColumn in cols
    ensures FilterReleaseData(Table(cols, rows1 + rows2), release, excluded).value.rows
         == FilterReleaseData(Table(cols, rows1), release, excluded).value.rows
          + FilterReleaseData(Table(cols, rows2), release, excluded).value.rows
  {
    KeepConcat(rows1, rows2, row => ActiveInRelease(row, release, excluded));
  }

  /** get_unique_tasks: the tracker rows whose task id is not among the
      sheet's task ids. The sheet's column is read first; a missing column
      on either side raises. */
  function UniqueTasks(tracker: Table, sheet: Table): (r: Result<Table, Error>)
    ensures r.Err? <==> TaskColumn !in sheet.columns || TaskColumn !in tracker.columns
    ensures r.Err? ==> r.error == MissingColumn(TaskColumn)
    ensures r.Ok? ==> r.value.columns == tracker.columns
    ensures r.Ok? ==> forall i :: 0 <= i < |r.value.rows| ==>
      r.value.rows[i] in tracker.rows && Cell(r.value.rows[i], TaskColumn) !in TaskIds(sheet.rows)
    ensures r.Ok? ==> forall i :: 0 <= i < |tracker.rows| && Cell(tracker.rows[i], TaskColumn) !in TaskIds(sheet.rows) ==>
      tracker.rows[i] in r.value.rows
  {
    if TaskColumn !in sheet.columns || TaskColumn !in tracker.columns then Err(MissingColumn(TaskColumn))
    else
      var sheetIds := TaskIds(sheet.rows);
      Ok(Table(tracker.columns, Keep(tracker.rows, row => Cell(row, TaskColumn) !in sheetIds)))
  }

  /** The unique rows of a split tracker table are those of each part, in order. */
  lemma UniqueTasksOrder(cols: set<string>, rows1: seq<Record>, rows2: seq<Record>, sheet: Table)
    requires TaskColumn in cols && TaskColumn in sheet.columns
    ensures UniqueTasks(Table(cols, rows1 + rows2), sheet).value.rows
         == UniqueTasks(Table(cols, rows1), sheet).value.rows + UniqueTasks(Table(cols, rows2), sheet).value.rows
  {
    var sheetIds := TaskIds(sheet.rows);
    KeepConcat(rows1, rows2, row => Cell(row, TaskColumn) !in sheetIds);
  }

  /** A sheet with the task column but no task ids leaves the tracker table unchanged. */
  lemma UniqueTasksOfSheetWithoutIds(tracker: Table, sheet: Table)
    requires TaskColumn in tracker.columns && TaskColumn in sheet.columns && sheet.rows == []
    ensures UniqueTasks(tracker, sheet) == Ok(tracker)
  {
    var sheetIds := TaskIds(sheet.rows);
    KeepAll(tracker.rows, row => Cell(row, TaskColumn) !in sheetIds);
  }

  /** A sheet read back with no records becomes a DataFrame with no columns,
      so get_unique_tasks raises instead of returning every tracker row. */
  lemma UniqueTasksOfEmptySheetRead(tracker: Table)
    ensures UniqueTasks(tracker, FromRecords([])) == Err(MissingColumn(TaskColumn))
  {
  }

  /** Once the rows get_unique_tasks returned are in the sheet, a second
      comparison against the same tracker table finds nothing to add. */
  lemma UniqueTasksIdempotent(tracker: Table, sheet: Table)
    requires TaskColumn in tracker.columns && TaskColumn in sheet.columns
    ensures var added := UniqueTasks(tracker, sheet).value.rows;
      UniqueTasks(tracker, Table(sheet.columns, sheet.rows + added)) == Ok(Table(tracker.columns, []))
  {
    var added := UniqueTasks(tracker, sheet).value.rows;
    var after := Table(sheet.columns, sheet.rows + added);
    var ids := TaskIds(after.rows);
    forall i | 0 <= i < |tracker.rows| ensures Cell(tracker.rows[i], TaskColumn) in ids {
      var row := tracker.rows[i];
      if Cell(row, TaskColumn) in TaskIds(sheet.rows) {
        var j :| 0 <= j < |sheet.rows| && TaskIds(sheet.rows)[j] == Cell(row, TaskColumn);
        assert ids[j] == Cell(row, TaskColumn);
      } else {
        assert row in added;
        var j :| 0 <= j < |added| && added[j] == row;
        assert after.rows[|sheet.rows| + j] == row;
        assert ids[|sheet.rows| + j] == Cell(row, TaskColumn);
      }
    }
    KeepNone(tracker.rows, row => Cell(row, TaskColumn) !in ids);
  }

  /** Some pair of a filtered-sheet row and a tracker row shares the task id
      id and differs in status: the inner merge on the task id followed by
      the status mask keeps id. */
  predicate StatusChanged(filtered: Table, tracker: Table, id: Value)
    ensures StatusChanged(filtered, tracker, id) ==> id in TaskIds(filtered.rows) && id in TaskIds(tracker.rows)
  {
    exists f, s :: f in filtered.rows && s in tracker.rows
      && Cell(f, TaskColumn) == id && Cell(s, TaskColumn) == id
      && Cell(f, StatusColumn) != Cell(s, StatusColumn)
  }

  /** Both tables have the columns the merge selects. */
  predicate MergeColumns(filtered: Table, tracker: Table)
  {
    TaskColumn in filtered.columns && StatusColumn in filtered.columns
    && TaskColumn in tracker.columns && StatusColumn in tracker.columns
  }

  /** get_changed_status_records: the tracker rows whose task id took part in
      a merged pair with differing statuses. A missing column makes it
      return an empty DataFrame. */
  function ChangedStatusRecords(filtered: Table, tracker: Table): (r: Table)
    ensures !MergeColumns(filtered, tracker) ==> r == Table({}, [])
    ensures MergeColumns(filtered, tracker) ==> r.columns == tracker.columns
    ensures forall i :: 0 <= i < |r.rows| ==>
      r.rows[i] in tracker.rows && StatusChanged(filtered, tracker, Cell(r.rows[i], TaskColumn))
    ensures MergeColumns(filtered, tracker) ==> forall i ::
      0 <= i < |tracker.rows| && StatusChanged(filtered, tracker, Cell(tracker.rows[i], TaskColumn)) ==>
      tracker.rows[i] in r.rows
  {
    if !MergeColumns(filtered, tracker) then Table({}, [])
    else Table(tracker.columns, Keep(tracker.rows, row => StatusChanged(filtered, tracker, Cell(row, TaskColumn))))
  }

  /** The reported rows keep the tracker's order: splitting the tracker's
      rows anywhere, the changed rows of the first part come first. */
  lemma ChangedStatusRecordsOrder(filtered: Table, cols: set<string>, rows1: seq<Record>, rows2: seq<Record>)
    requires MergeColumns(filtered, Table(cols, rows1 + rows2))
    ensures var tracker := Table(cols, rows1 + rows2);
      var changed := row => StatusChanged(filtered, tracker, Cell(row, TaskColumn));
      ChangedStatusRecords(filtered, tracker).rows == Keep(rows1, changed) + Keep(rows2, changed)
  {
    var tracker := Table(cols, rows1 + rows2);
    KeepConcat(rows1, rows2, row => StatusChanged(filtered, tracker, Cell(row, TaskColumn)));
  }

  /** No two tracker rows share a task id. */
  predicate UniqueIds(t: Table)
  {
    forall i, j :: 0 <= i < |t.rows| && 0 <= j < |t.rows| && Cell(t.rows[i], TaskColumn) == Cell(t.rows[j], TaskColumn) ==> i == j
  }

  /** With unique tracker ids a tracker row is reported exactly when some
      filtered-sheet row has its id and a different status. */
  lemma ChangedStatusOfUniqueIds(filtered: Table, tracker: Table, row: Record)
    requires MergeColumns(filtered, tracker) && UniqueIds(tracker) && row in tracker.rows
    ensures row in ChangedStatusRecords(filtered, tracker).rows <==>
      exists f :: f in filtered.rows && Cell(f, TaskColumn) == Cell(row, TaskColumn) && Cell(f, StatusColumn) != Cell(row, StatusColumn)
  {
    var r := ChangedStatusRecords(filtered, tracker);
    var id := Cell(row, TaskColumn);
    if row in r.rows {
      var f, s :| f in filtered.rows && s in tracker.rows && Cell(f, TaskColumn) == id && Cell(s, TaskColumn) == id
        && Cell(f, StatusColumn) != Cell(s, StatusColumn);
      var i :| 0 <= i < |tracker.rows| && tracker.rows[i] == row;
      var j :| 0 <= j < |tracker.rows| && tracker.rows[j] == s;
      assert i == j;
    } else {
      var i :| 0 <= i < |tracker.rows| && tracker.rows[i] == row;
      assert !StatusChanged(filtered, tracker, id);
    }
  }

  /** A tracker task absent from the filtered sheet is never reported. */
  lemma ChangedStatusNeedsSheetRow(filtered: Table, tracker: Table, row: Record)
    requires forall f :: f in filtered.rows ==> Cell(f, TaskColumn) != Cell(row, TaskColumn)
    ensures row !in ChangedStatusRecords(filtered, tracker).rows
  {
    var r := ChangedStatusRecords(filtered, tracker);
    forall i | 0 <= i < |r.rows| ensures r.rows[i] != row {
      assert StatusChanged(filtered, tracker, Cell(r.rows[i], TaskColumn));
    }
  }

  /** When every filtered-sheet row carries the status of every tracker row
      with its id (as after the updates were written), nothing is reported. */
  lemma ChangedStatusIdempotent(filtered: Table, tracker: Table)
    requires forall f, s ::
      f in filtered.rows && s in tracker.rows && Cell(f, TaskColumn) == Cell(s, TaskColumn) ==>
      Cell(f, StatusColumn) == Cell(s, StatusColumn)
    ensures ChangedStatusRecords(filtered, tracker).rows == []
  {
    forall i | 0 <= i < |tracker.rows| ensures !StatusChanged(filtered, tracker, Cell(tracker.rows[i], TaskColumn)) {
    }
    KeepNone(tracker.rows, row => StatusChanged(filtered, tracker, Cell(row, TaskColumn)));
  }

  /** A missing column and a run with no changes both give an empty
      DataFrame (`df.empty`) with no rows, so a caller that only iterates
      over the rows cannot tell them apart; only the column sets differ. */
  lemma ChangedStatusErrorLooksEmpty(broken1: Table, broken2: Table, filtered: Table, tracker: Table)
    requires !MergeColumns(broken1, broken2)
    requires MergeColumns(filtered, tracker)
    requires forall f, s ::
      f in filtered.rows && s in tracker.rows && Cell(f, TaskColumn) == Cell(s, TaskColumn) ==>
      Cell(f, StatusColumn) == Cell(s, StatusColumn)
    ensures ChangedStatusRecords(broken1, broken2).rows == [] && IsEmpty(ChangedStatusRecords(broken1, broken2))
    ensures ChangedStatusRecords(filtered, tracker).rows == [] && IsEmpty(ChangedStatusRecords(filtered, tracker))
    ensures ChangedStatusRecords(broken1, broken2).columns == {}
    ensures ChangedStatusRecords(filtered, tracker).columns == tracker.columns
  {
    ChangedStatusIdempotent(filtered, tracker);
  }

  /** A sheet row of the release in status Разработка for task T-2, and the
      tracker now saying Тестирование: the row survives the filter and the
      tracker row is reported as changed. */
  lemma StatusChangeScenario()
    ensures var sheetRow := map[ReleaseColumn := Str("R1"), TaskColumn := Str("T-2"), StatusColumn := Str("Разработка")];
      var trackerRow := map[TaskColumn := Str("T-2"), StatusColumn := Str("Тестирование")];
      var sheet := Table({ReleaseColumn, TaskColumn, StatusColumn}, [sheetRow]);
      var tracker := Table({TaskColumn, StatusColumn}, [trackerRow]);
      && FilterReleaseData(sheet, "R1", ExcludedStatuses) == Ok(sheet)
      && ChangedStatusRecords(sheet, tracker) == tracker
  {
    var sheetRow := map[ReleaseColumn := Str("R1"), TaskColumn := Str("T-2"), StatusColumn := Str("Разработка")];
    var trackerRow := map[TaskColumn := Str("T-2"), StatusColumn := Str("Тестирование")];
    var sheet := Table({ReleaseColumn, TaskColumn, StatusColumn}, [sheetRow]);
    var tracker := Table({TaskColumn, StatusColumn}, [trackerRow]);
    assert ActiveInRelease(sheetRow, "R1", ExcludedStatuses);
    KeepAll(sheet.rows, row => ActiveInRelease(row, "R1", ExcludedStatuses));
    assert StatusChanged(sheet, tracker, Str("T-2")) by {
      assert sheetRow in sheet.rows && trackerRow in tracker.rows;
    }
    KeepAll(tracker.rows, row => StatusChanged(sheet, tracker, Cell(row, TaskColumn)));
  }
}
