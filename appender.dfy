/** Appending rows to the sheet (add_row_to_sheet, add_filtered_records).
    The sheet is the grid get_all_values returns, as a sequence of rows;
    gspread's insert_row is a pure insertion into that grid. */
module SheetAppend {
  import opened Wrappers
  import opened Tables

  type Sheet = seq<seq<Value>>

  /** add_filtered_records pauses before every record whose 1-based position
      is a multiple of this. */
  const PaceEvery := 10

  /** The cell a header asks for: the record's value under that header, ''
      when the record has no such key. */
  function HeaderCell(rowData: Record, header: Value): (v: Value)
    ensures v == Str("") || v in rowData.Values
    ensures header.Str? && header.s in rowData ==> v == rowData[header.s]
    ensures !(header.Str? && header.s in rowData) ==> v == Str("")
  {
    if header.Str? && header.s in rowData then rowData[header.s] else Str("")
  }

  /** `[row_data.get(header, "") for header in headers]`. */
  function BuildRow(headers: seq<Value>, rowData: Record): (r: seq<Value>)
    ensures |r| == |headers|
    ensures forall i :: 0 <= i < |r| ==> r[i] == HeaderCell(rowData, headers[i])
  {
    seq(|headers|, i requires 0 <= i < |headers| => HeaderCell(rowData, headers[i]))
  }

  /** Every cell of a built row is '' or one of the record's values. */
  lemma BuildRowCells(headers: seq<Value>, rowData: Record)
    ensures forall i :: 0 <= i < |headers| ==>
      var v := BuildRow(headers, rowData)[i];
      v == Str("") || v in rowData.Values
  {
    forall i | 0 <= i < |headers|
      ensures BuildRow(headers, rowData)[i] == Str("") || BuildRow(headers, rowData)[i] in rowData.Values
    {
      var h := headers[i];
      if h.Str? && h.s in rowData {
        assert rowData[h.s] in rowData.Values;
      }
    }
  }

  /** A key the header does not name has no effect on the built row. */
  lemma BuildRowDropsExtraKey(headers: seq<Value>, rowData: Record, key: string)
    requires Str(key) !in headers
    ensures BuildRow(headers, rowData) == BuildRow(headers, rowData - {key})
  {
    var a, b := BuildRow(headers, rowData), BuildRow(headers, rowData - {key});
    forall i | 0 <= i < |headers| ensures a[i] == b[i] {
      assert headers[i] != Str(key);
    }
  }

  /** gspread's insert_row(values, index): the new row becomes row `index`
      (numbered from 1) and the rows from there on move down by one. */
  function InsertRow(sheet: Sheet, index: nat, row: seq<Value>): (r: Sheet)
    requires 1 <= index <= |sheet| + 1
    ensures |r| == |sheet| + 1
    ensures r[index - 1] == row
    ensures forall i :: 0 <= i < index - 1 ==> r[i] == sheet[i]
    ensures forall i :: index - 1 <= i < |sheet| ==> r[i + 1] == sheet[i]
  {
    sheet[..index - 1] + [row] + sheet[index - 1..]
  }

  /** add_row_to_sheet: an empty sheet is an error; otherwise the row built
      from the header row goes in at position len(all_values), which is just
      before the former last row. */
  function AddRowToSheet(sheet: Sheet, rowData: Record): (r: Result<Sheet, Error>)
    ensures r.Err? <==> |sheet| == 0
    ensures r.Err? ==> r.error == EmptySheet
    ensures r.Ok? ==> |r.value| == |sheet| + 1
    ensures r.Ok? ==> r == AddRowToSheet(sheet, rowData)
    ensures r.Ok? ==> r.value[..|sheet| - 1] == sheet[..|sheet| - 1]
    ensures r.Ok? ==> r.value[|sheet| - 1] == BuildRow(sheet[0], rowData)
    ensures r.Ok? ==> r.value[|sheet|] == sheet[|sheet| - 1]
  {
    if |sheet| < 1 then Err(EmptySheet)
    else
      var r := InsertRow(sheet, |sheet|, BuildRow(sheet[0], rowData));
      assert r[..|sheet| - 1] == sheet[..|sheet| - 1];
      Ok(r)
  }

  /** A sheet holding only its header gets the new row above the header. */
  lemma AddRowToHeaderOnlySheet(header: seq<Value>, rowData: Record)
    ensures AddRowToSheet([header], rowData) == Ok([BuildRow(header, rowData), header])
  {
    var r := AddRowToSheet([header], rowData).value;
    assert |r| == 2 && r[0] == BuildRow(header, rowData) && r[1] == header;
    assert r == [BuildRow(header, rowData), header];
  }

  /** On a header-only sheet the first record goes above the header, so
      every later record is built against that first data row. */
  lemma HeaderOnlySheetTwoRecords(header: seq<Value>, first: Record, second: Record)
    ensures var top := BuildRow(header, first);
      AppendFrom([header], [first, second], 1, {}) == [top, BuildRow(top, second), header]
  {
    var top := BuildRow(header, first);
    AddRowToHeaderOnlySheet(header, first);
    var r := AddRowToSheet([top, header], second).value;
    assert r == [top, BuildRow(top, second), header];
    assert [first, second][1..] == [second];
    assert AppendStep([header], first, 1, {}) == Ok([top, header]);
    assert AppendStep([top, header], second, 2, {}) == Ok(r);
    assert AppendFrom([top, header], [second], 2, {}) == AppendFrom(r, [], 3, {});
  }

  /** Whether the record at position idx was written. */
  predicate Written(sheet: Sheet, idx: nat, rejected: set<nat>)
  {
    idx !in rejected && |sheet| > 0
  }

  /** One iteration of add_filtered_records for the record at 1-based
      position idx: a refused call or an empty sheet leaves the sheet as it
      was. */
  function AppendStep(sheet: Sheet, rowData: Record, idx: nat, rejected: set<nat>): (r: Result<Sheet, Error>)
    ensures r.Err? <==> !Written(sheet, idx, rejected)
    ensures r.Err? ==> (r.error == ApiError <==> idx in rejected)
    ensures r.Ok? ==> |r.value| == |sheet| + 1
    ensures r.Ok? ==> r == AddRowToSheet(sheet, rowData)
  {
    if idx in rejected then Err(ApiError) else AddRowToSheet(sheet, rowData)
  }

  /** The sheet after the records, numbered from idx, have been tried in turn. */
  function AppendFrom(sheet: Sheet, rows: seq<Record>, idx: nat, rejected: set<nat>): Sheet
    decreases |rows|
  {
    if rows == [] then sheet
    else
      var next := match AppendStep(sheet, rows[0], idx, rejected)
        case Ok(s) => s
        case Err(_) => sheet;
      AppendFrom(next, rows[1..], idx + 1, rejected)
  }

  /** Each record adds at most one row; on a non-empty sheet with no refused
      call, every record adds exactly one. */
  lemma {:induction false} AppendFromLength(sheet: Sheet, rows: seq<Record>, idx: nat, rejected: set<nat>)
    ensures |sheet| <= |AppendFrom(sheet, rows, idx, rejected)| <= |sheet| + |rows|
    ensures |sheet| > 0 && (forall i :: idx <= i < idx + |rows| ==> i !in rejected) ==>
      |AppendFrom(sheet, rows, idx, rejected)| == |sheet| + |rows|
    decreases |rows|
  {
    if rows != [] {
      var next := match AppendStep(sheet, rows[0], idx, rejected)
        case Ok(s) => s
        case Err(_) => sheet;
      AppendFromLength(next, rows[1..], idx + 1, rejected);
    }
  }

  /** The rows built from the records numbered from idx that were not refused. */
  function Accepted(header: seq<Value>, rows: seq<Record>, idx: nat, rejected: set<nat>): seq<seq<Value>>
    decreases |rows|
  {
    if rows == [] then []
    else (if idx in rejected then [] else [BuildRow(header, rows[0])]) + Accepted(header, rows[1..], idx + 1, rejected)
  }

  /** On a sheet of two or more rows, an insert keeps the header on top and
      puts the built row just before the former last row. */
  lemma AddRowShape(sheet: Sheet, rowData: Record)
    requires |sheet| >= 2
    ensures var next := AddRowToSheet(sheet, rowData).value;
      var n := |sheet|;
      && next == sheet[..n - 1] + [BuildRow(sheet[0], rowData)] + [sheet[n - 1]]
      && next[0] == sheet[0]
      && next[..n] == sheet[..n - 1] + [BuildRow(sheet[0], rowData)]
  {
    var next := AddRowToSheet(sheet, rowData).value;
    var n := |sheet|;
    assert next == sheet[..n - 1] + [BuildRow(sheet[0], rowData)] + [sheet[n - 1]];
    assert next[0] == sheet[0];
    assert next[..n] == sheet[..n - 1] + [BuildRow(sheet[0], rowData)];
  }

  /** On a sheet with a header and a trailing row, the accepted records end
      up in order between the former body and the former last row, and the
      header stays on top. */
  lemma {:induction false} AppendFromBeforeLastRow(sheet: Sheet, rows: seq<Record>, idx: nat, rejected: set<nat>)
    requires |sheet| >= 2
    ensures AppendFrom(sheet, rows, idx, rejected)
         == sheet[..|sheet| - 1] + Accepted(sheet[0], rows, idx, rejected) + [sheet[|sheet| - 1]]
    decreases |rows|
  {
    var n := |sheet|;
    if rows == [] {
      assert sheet == sheet[..n - 1] + [sheet[n - 1]];
    } else if idx in rejected {
      AppendFromBeforeLastRow(sheet, rows[1..], idx + 1, rejected);
    } else {
      var next := AddRowToSheet(sheet, rows[0]).value;
      AddRowShape(sheet, rows[0]);
      AppendFromBeforeLastRow(next, rows[1..], idx + 1, rejected);
    }
  }

  /** Nothing is ever inserted into an empty sheet. */
  lemma {:induction false} AppendFromEmptySheet(rows: seq<Record>, idx: nat, rejected: set<nat>)
    ensures AppendFrom([], rows, idx, rejected) == []
    decreases |rows|
  {
    if rows != [] {
      AppendFromEmptySheet(rows[1..], idx + 1, rejected);
    }
  }

  /** The positions 1..n before which add_filtered_records pauses. */
  function PausePoints(n: nat): seq<nat>
  {
    if n == 0 then [] else PausePoints(n - 1) + (if n % PaceEvery == 0 then [n] else [])
  }

  /** One pause for every PaceEvery records, before exactly the multiples of
      PaceEvery. */
  lemma {:induction false} PausePointsAreMultiples(n: nat)
    ensures |PausePoints(n)| == n / PaceEvery
    ensures forall i :: i in PausePoints(n) <==> 1 <= i <= n && i % PaceEvery == 0
  {
    if n > 0 {
      PausePointsAreMultiples(n - 1);
    }
  }

  /** The positions 1..n, in order, whose record was written (want) or
      failed (!want). */
  function Outcomes(sheet: Sheet, n: nat, rejected: set<nat>, want: bool): seq<nat>
  {
    if n == 0 then []
    else Outcomes(sheet, n - 1, rejected, want) + (if Written(sheet, n, rejected) == want then [n] else [])
  }

  /** The written and the failed positions split 1..n between them. */
  lemma {:induction false} OutcomesPartition(sheet: Sheet, n: nat, rejected: set<nat>)
    ensures forall i :: i in Outcomes(sheet, n, rejected, true) <==> 1 <= i <= n && Written(sheet, i, rejected)
    ensures forall i :: i in Outcomes(sheet, n, rejected, false) <==> 1 <= i <= n && !Written(sheet, i, rejected)
    ensures |Outcomes(sheet, n, rejected, true)| + |Outcomes(sheet, n, rejected, false)| == n
  {
    if n > 0 {
      OutcomesPartition(sheet, n - 1, rejected);
    }
  }

  predicate Ascending(s: seq<nat>)
  {
    forall i, j :: 0 <= i < j < |s| ==> s[i] < s[j]
  }

  /** Appending a position above every listed one keeps a list ascending. */
  lemma AscendingAppend(s: seq<nat>, tail: seq<nat>, n: nat)
    requires Ascending(s)
    requires forall k :: 0 <= k < |s| ==> s[k] < n
    requires tail == [] || tail == [n]
    ensures Ascending(s + tail)
  {
  }

  /** The pauses come in increasing order of position. */
  lemma {:induction false} PausePointsAscending(n: nat)
    ensures Ascending(PausePoints(n))
  {
    if n > 0 {
      PausePointsAscending(n - 1);
      PausePointsAreMultiples(n - 1);
      var p := PausePoints(n - 1);
      assert forall k :: 0 <= k < |p| ==> p[k] in p;
      AscendingAppend(p, if n % PaceEvery == 0 then [n] else [], n);
    }
  }

  /** The written and the failed positions come in increasing order, as the
      loop meets them. */
  lemma {:induction false} OutcomesAscending(sheet: Sheet, n: nat, rejected: set<nat>, want: bool)
    ensures Ascending(Outcomes(sheet, n, rejected, want))
  {
    if n > 0 {
      OutcomesAscending(sheet, n - 1, rejected, want);
      OutcomesPartition(sheet, n - 1, rejected);
      var o := Outcomes(sheet, n - 1, rejected, want);
      assert forall k :: 0 <= k < |o| ==> o[k] in o;
      AscendingAppend(o, if Written(sheet, n, rejected) == want then [n] else [], n);
    }
  }

  /** What add_filtered_records did: the final sheet, the record positions a
      pause preceded, the positions written and failed, and the count of the
      closing message (None when the "no records" message was printed). */
  datatype AppendReport = AppendReport(
    sheet: Sheet,
    pausedBefore: seq<nat>,
    written: seq<nat>,
    failed: seq<nat>,
    reported: Option<nat>)

  /** add_filtered_records: try every record in order, pausing before each
      position that is a multiple of 10; a failing record is reported and
      skipped. `rejected` holds the positions for which the spreadsheet
      service refuses the insert. */
  method AddFilteredRecords(sheet: Sheet, records: Table, rejected: set<nat>) returns (rep: AppendReport)
    ensures IsEmpty(records) ==> rep == AppendReport(sheet, [], [], [], None)
    ensures !IsEmpty(records) ==> rep.reported == Some(|records.rows|)
    ensures !IsEmpty(records) ==> rep.sheet == AppendFrom(sheet, records.rows, 1, rejected)
    ensures !IsEmpty(records) ==> |rep.pausedBefore| == |records.rows| / PaceEvery
    ensures forall idx :: idx in rep.pausedBefore <==> 1 <= idx <= |records.rows| && idx % PaceEvery == 0 && !IsEmpty(records)
    ensures forall idx :: idx in rep.written <==> 1 <= idx <= |records.rows| && Written(sheet, idx, rejected) && !IsEmpty(records)
    ensures forall idx :: idx in rep.failed <==> 1 <= idx <= |records.rows| && !Written(sheet, idx, rejected) && !IsEmpty(records)
    ensures !IsEmpty(records) ==> |rep.written| + |rep.failed| == |records.rows|
    ensures !IsEmpty(records) ==> rep.pausedBefore == PausePoints(|records.rows|)
    ensures !IsEmpty(records) ==> rep.written == Outcomes(sheet, |records.rows|, rejected, true)
    ensures !IsEmpty(records) ==> rep.failed == Outcomes(sheet, |records.rows|, rejected, false)
  {
    if IsEmpty(records) {
      return AppendReport(sheet, [], [], [], None);
    }
    var rows := records.rows;
    var cur := sheet;
    var paused: seq<nat> := [];
    var written: seq<nat> := [];
    var failed: seq<nat> := [];
    var idx: nat := 1;
    while idx <= |rows|
      invariant 1 <= idx <= |rows| + 1
      invariant AppendFrom(cur, rows[idx - 1..], idx, rejected) == AppendFrom(sheet, rows, 1, rejected)
      invariant (|cur| == 0) == (|sheet| == 0)
      invariant paused == PausePoints(idx - 1)
      invariant written == Outcomes(sheet, idx - 1, rejected, true)
      invariant failed == Outcomes(sheet, idx - 1, rejected, false)
    {
      if idx % PaceEvery == 0 {
        paused := paused + [idx];
      }
      var step := AppendStep(cur, rows[idx - 1], idx, rejected);
      assert rows[idx - 1..][1..] == rows[idx..];
      match step {
        case Ok(s) =>
          cur := s;
          written := written + [idx];
        case Err(_) =>
          failed := failed + [idx];
      }
      idx := idx + 1;
    }
    assert rows[idx - 1..] == [];
    PausePointsAreMultiples(|rows|);
    OutcomesPartition(sheet, |rows|, rejected);
    rep := AppendReport(cur, paused, written, failed, Some(|rows|));
  }
}
