/** Writing changed statuses and assignees back (update_google_sheet): every
    task found in the sheet's task column yields two cell writes, sent as one
    batch. */
module SheetUpdate {
  import opened Wrappers
  import opened Tables

  /** A single-cell range `{column}{row}` and the value written there. */
  datatype CellWrite = CellWrite(column: char, row: nat, value: Value)

  const StatusLetter := 'E'
  const AssigneeLetter := 'K'

  /** Sheet rows are numbered from 1 and the first is the header, so the
      record at position i of get_all_records is sheet row i + 2. */
  const RowOffset := 2

  /** list.index: the first position of x in xs, None where Python raises
      ValueError. */
  function IndexOf(xs: seq<Value>, x: Value): (r: Option<nat>)
    ensures r.None? <==> x !in xs
    ensures r.Some? ==> r.value < |xs| && xs[r.value] == x
    ensures r.Some? ==> forall j :: 0 <= j < r.value ==> xs[j] != x
  {
    if xs == [] then None
    else if xs[0] == x then Some(0)
    else match IndexOf(xs[1..], x)
      case None => None
      case Some(i) => Some(i + 1)
  }

  /** `[row['Задача'] for row in records]`: raises on the first record
      without the key. */
  function SheetTaskColumn(records: seq<Record>): (r: Result<seq<Value>, Error>)
    ensures r.Err? <==> exists i :: 0 <= i < |records| && TaskColumn !in records[i]
    ensures r.Err? ==> r.error == MissingColumn(TaskColumn)
    ensures r.Ok? ==> r.value == TaskIds(records)
  {
    if exists i :: 0 <= i < |records| && TaskColumn !in records[i] then Err(MissingColumn(TaskColumn))
    else
      assert forall i :: 0 <= i < |records| ==> Cell(records[i], TaskColumn) == records[i][TaskColumn];
      Ok(seq(|records|, i requires 0 <= i < |records| => records[i][TaskColumn]))
  }

  /** The writes queued for one changed row: status then assignee at the row
      of the first sheet record with its task id; nothing when the id is not
      in the sheet. */
  function RowWrites(tasks: seq<Value>, row: Record): (w: seq<CellWrite>)
    ensures Cell(row, TaskColumn) !in tasks ==> w == []
    ensures Cell(row, TaskColumn) in tasks ==>
      var i := IndexOf(tasks, Cell(row, TaskColumn)).value;
      && w == [CellWrite(StatusLetter, i + RowOffset, Cell(row, StatusColumn)),
               CellWrite(AssigneeLetter, i + RowOffset, Cell(row, AssigneeColumn))]
      && tasks[w[0].row - RowOffset] == Cell(row, TaskColumn)
      && forall j :: 0 <= j < w[0].row - RowOffset ==> tasks[j] != Cell(row, TaskColumn)
  {
    match IndexOf(tasks, Cell(row, TaskColumn))
    case None => []
    case Some(i) =>
      [CellWrite(StatusLetter, i + RowOffset, Cell(row, StatusColumn)),
       CellWrite(AssigneeLetter, i + RowOffset, Cell(row, AssigneeColumn))]
  }

  /** The update list after the loop has seen the given rows. */
  function PlannedWrites(tasks: seq<Value>, rows: seq<Record>): (w: seq<CellWrite>)
    ensures |w| % 2 == 0
    ensures forall i :: 0 <= i < |w| ==> w[i].column == if i % 2 == 0 then StatusLetter else AssigneeLetter
    ensures forall i :: 0 <= i < |w| && i % 2 == 0 ==> w[i + 1].row == w[i].row
  {
    if rows == [] then []
    else
      var prev := PlannedWrites(tasks, rows[..|rows| - 1]);
      var last := RowWrites(tasks, rows[|rows| - 1]);
      assert forall i :: |prev| <= i < |prev| + |last| ==> (prev + last)[i] == last[i - |prev|];
      prev + last
  }

  /** The changed rows whose task id occurs in the sheet. */
  function Matched(tasks: seq<Value>, rows: seq<Record>): seq<Record>
  {
    Keep(rows, row => Cell(row, TaskColumn) in tasks)
  }

  /** Each matched row contributes exactly two writes and the others none. */
  lemma {:induction false} PlannedWritesCount(tasks: seq<Value>, rows: seq<Record>)
    ensures |PlannedWrites(tasks, rows)| == 2 * |Matched(tasks, rows)|
    decreases |rows|
  {
    if rows != [] {
      var init, last := rows[..|rows| - 1], rows[|rows| - 1];
      assert rows == init + [last];
      PlannedWritesCount(tasks, init);
      KeepConcat(init, [last], row => Cell(row, TaskColumn) in tasks);
    }
  }

  /** The writes of a split table are those of each part, in order. */
  lemma {:induction false} PlannedWritesConcat(tasks: seq<Value>, rows1: seq<Record>, rows2: seq<Record>)
    ensures PlannedWrites(tasks, rows1 + rows2) == PlannedWrites(tasks, rows1) + PlannedWrites(tasks, rows2)
    decreases |rows2|
  {
    if rows2 == [] {
      assert rows1 + rows2 == rows1;
    } else {
      var init := rows2[..|rows2| - 1];
      assert (rows1 + rows2)[..|rows1 + rows2| - 1] == rows1 + init;
      PlannedWritesConcat(tasks, rows1, init);
    }
  }

  /** Write w is the status or assignee write for changed row `row`, at the
      first sheet row holding its task id. */
  predicate WriteFor(tasks: seq<Value>, w: CellWrite, row: Record)
  {
    && IndexOf(tasks, Cell(row, TaskColumn)) == Some(w.row - RowOffset)
    && ((w.column == StatusLetter && w.value == Cell(row, StatusColumn))
     || (w.column == AssigneeLetter && w.value == Cell(row, AssigneeColumn)))
  }

  /** Every write goes to column E or K of a data row of the sheet, and that
      row is the first one holding the task id of some changed row whose
      status or assignee it carries. */
  lemma {:induction false} PlannedWritesTargets(tasks: seq<Value>, rows: seq<Record>)
    ensures forall w :: w in PlannedWrites(tasks, rows) ==>
      RowOffset <= w.row < |tasks| + RowOffset && exists row :: row in rows && WriteFor(tasks, w, row)
    decreases |rows|
  {
    if rows != [] {
      var init, last := rows[..|rows| - 1], rows[|rows| - 1];
      PlannedWritesTargets(tasks, init);
      forall w | w in PlannedWrites(tasks, rows)
        ensures RowOffset <= w.row < |tasks| + RowOffset && exists row :: row in rows && WriteFor(tasks, w, row)
      {
        if w in PlannedWrites(tasks, init) {
          var row :| row in init && WriteFor(tasks, w, row);
          assert row in rows;
        } else {
          assert w in RowWrites(tasks, last);
          assert last in rows && WriteFor(tasks, w, last);
        }
      }
    }
  }

  /** The batch_update call update_google_sheet makes, if any, with the
      count its message reports. */
  datatype BatchCall = NoCall | BatchUpdate(writes: seq<CellWrite>, reported: nat)

  /** The columns the loop reads from every changed row. */
  predicate HasUpdateColumns(df: Table)
  {
    TaskColumn in df.columns && StatusColumn in df.columns && AssigneeColumn in df.columns
  }

  /** The loop of update_google_sheet: for each changed row in turn, queue
      its status and assignee writes when its task id is in the sheet. */
  method PlanUpdates(tasks: seq<Value>, rows: seq<Record>) returns (updates: seq<CellWrite>)
    ensures updates == PlannedWrites(tasks, rows)
    ensures |updates| == 2 * |Matched(tasks, rows)|
  {
    updates := [];
    var k := 0;
    while k < |rows|
      invariant 0 <= k <= |rows|
      invariant updates == PlannedWrites(tasks, rows[..k])
    {
      var row := rows[k];
      var task := Cell(row, TaskColumn);
      var found := IndexOf(tasks, task);
      ghost var before := updates;
      if found.Some? {
        var sheetRow := found.value + RowOffset;
        updates := updates + [CellWrite(StatusLetter, sheetRow, Cell(row, StatusColumn))];
        updates := updates + [CellWrite(AssigneeLetter, sheetRow, Cell(row, AssigneeColumn))];
      }
      assert updates == before + RowWrites(tasks, row);
      assert rows[..k + 1][..k] == rows[..k] && rows[..k + 1][k] == row;
      k := k + 1;
    }
    assert rows[..k] == rows;
    PlannedWritesCount(tasks, rows);
  }

  /** update_google_sheet: look up each changed row's task id in the sheet's
      task column, queue its two writes when found, skip it otherwise, and
      send the queue as one batch only when it is not empty. A missing key
      raises before any call. */
  method UpdateGoogleSheet(df: Table, records: seq<Record>) returns (r: Result<BatchCall, Error>)
    ensures r.Err? <==> (exists i :: 0 <= i < |records| && TaskColumn !in records[i])
                        || (|df.rows| > 0 && !HasUpdateColumns(df))
    ensures r.Err? ==> r.error == MissingColumn(
      if (exists i :: 0 <= i < |records| && TaskColumn !in records[i]) || TaskColumn !in df.columns then TaskColumn
      else if StatusColumn !in df.columns then StatusColumn
      else AssigneeColumn)
    ensures r.Ok? ==> (r.value.NoCall? <==> Matched(TaskIds(records), df.rows) == [])
    ensures r.Ok? && r.value.BatchUpdate? ==>
      && r.value.writes == PlannedWrites(TaskIds(records), df.rows)
      && r.value.reported == |Matched(TaskIds(records), df.rows)|
  {
    var column := SheetTaskColumn(records);
    if column.Err? {
      return Err(column.error);
    }
    var tasks := column.value;
    if |df.rows| > 0 && !HasUpdateColumns(df) {
      var missing := if TaskColumn !in df.columns then TaskColumn
        else if StatusColumn !in df.columns then StatusColumn else AssigneeColumn;
      return Err(MissingColumn(missing));
    }
    var updates := PlanUpdates(tasks, df.rows);
    assert tasks == TaskIds(records);
    if |updates| > 0 {
      r := Ok(BatchUpdate(updates, |updates| / 2));
    } else {
      r := Ok(NoCall);
    }
  }
}
