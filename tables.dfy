/** The in-memory tables the synchroniser passes around: a pandas DataFrame is
    a set of column names and a sequence of rows keyed by those names. */
module Tables {

  /** A cell as it travels between the tracker JSON, pandas and the sheet. */
  datatype Value = Str(s: string) | Num(n: int) | Null

  /** One row of a DataFrame, or one record of the sheet's get_all_records. */
  type Record = map<string, Value>

  datatype Table = Table(columns: set<string>, rows: seq<Record>)

  /** Why a DataFrame or sheet operation raised. */
  datatype Error =
    | MissingColumn(column: string)   // a KeyError on a column or record key
    | EmptyDateList(field: string)    // item[field][0] on an empty list
    | ShortColumnList                 // COLUMS[i] past the end of the configured names
    | EmptySheet                      // add_row_to_sheet on a sheet with no rows
    | ApiError                        // the spreadsheet service refused a call

  // Column names the reconciler uses literally.
  const ReleaseColumn := "Релиз"
  const TaskColumn := "Задача"
  const StatusColumn := "Статус"
  const AssigneeColumn := "Исполнитель"

  /** The value a row holds in column c; Null stands for a cell the row lacks. */
  function Cell(r: Record, c: string): Value
  {
    if c in r then r[c] else Null
  }

  /** The union of the keys of all rows: the columns pandas gives a DataFrame
      built from a list of dicts. */
  function KeysOf(rows: seq<Record>): (ks: set<string>)
    ensures forall i :: 0 <= i < |rows| ==> rows[i].Keys <= ks
    ensures rows == [] ==> ks == {}
    ensures forall c :: c in ks ==> exists i :: 0 <= i < |rows| && c in rows[i]
  {
    set i, k | 0 <= i < |rows| && k in rows[i] :: k
  }

  /** pandas.DataFrame(records). */
  function FromRecords(rows: seq<Record>): (t: Table)
    ensures t.rows == rows
    ensures rows == [] ==> t.columns == {}
    ensures forall i :: 0 <= i < |rows| ==> rows[i].Keys <= t.columns
    ensures forall c :: c in t.columns ==> exists i :: 0 <= i < |rows| && c in rows[i]
  {
    Table(KeysOf(rows), rows)
  }

  /** pandas' `df.empty`: no rows or no columns. */
  predicate IsEmpty(t: Table)
  {
    |t.rows| == 0 || t.columns == {}
  }

  /** The task identifiers of a table's rows, in row order. */
  function TaskIds(rows: seq<Record>): (ids: seq<Value>)
    ensures |ids| == |rows|
    ensures forall i :: 0 <= i < |rows| ==> ids[i] == Cell(rows[i], TaskColumn)
  {
    seq(|rows|, i requires 0 <= i < |rows| => Cell(rows[i], TaskColumn))
  }

  /** A boolean-mask selection `df[mask]`: the elements that satisfy p, in
      their original order. */
  function Keep<T>(s: seq<T>, p: T -> bool): (r: seq<T>)
    ensures |r| <= |s|
    ensures forall i :: 0 <= i < |r| ==> r[i] in s && p(r[i])
    ensures forall i :: 0 <= i < |s| && p(s[i]) ==> s[i] in r
  {
    if s == [] then [] else (if p(s[0]) then [s[0]] else []) + Keep(s[1..], p)
  }

  /** Selection distributes over concatenation: kept elements of a prefix come
      before kept elements of the rest, so the relative order is preserved. */
  lemma {:induction false} KeepConcat<T>(s: seq<T>, t: seq<T>, p: T -> bool)
    ensures Keep(s + t, p) == Keep(s, p) + Keep(t, p)
  {
    if s == [] {
      assert s + t == t;
    } else {
      assert (s + t)[1..] == s[1..] + t;
      KeepConcat(s[1..], t, p);
    }
  }

  /** A mask that holds everywhere keeps the whole sequence. */
  lemma {:induction false} KeepAll<T>(s: seq<T>, p: T -> bool)
    requires forall i :: 0 <= i < |s| ==> p(s[i])
    ensures Keep(s, p) == s
  {
    if s != [] {
      KeepAll(s[1..], p);
    }
  }

  /** A mask that holds nowhere keeps nothing. */
  lemma {:induction false} KeepNone<T>(s: seq<T>, p: T -> bool)
    requires forall i :: 0 <= i < |s| ==> !p(s[i])
    ensures Keep(s, p) == []
  {
    if s != [] {
      KeepNone(s[1..], p);
    }
  }
}
