/** The row normaliser of main.py (fill_dataframe): one tracker task object
    becomes one fixed-shape row keyed by the configured column names. */
module Normalizer {
  import opened Wrappers
  import opened Tables

  /** The fallback status of a task whose assignee has no mapping entry. */
  const Backlog := "Бэклог"

  /** The tracker's priority is shown shifted down by this constant. */
  const PriorityOffset := 2

  /** Number of configured columns fill_dataframe fills in. */
  const RowWidth := 11

  /** The `assignee` object of a task; its `firstName` may be JSON null. */
  datatype Assignee = Assignee(firstName: Option<string>)

  /** One element of the search response's `content` array. Keys the code
      reads with `item[...]` are plain fields; a field whose key may be
      absent is an Option, None meaning the key is not there. */
  datatype RawTask = RawTask(
    number: string,
    name: string,
    component: Option<seq<string>>,      // names of the component objects; None is JSON null
    priorityId: int,
    dueDate: Option<Value>,
    gantStartDate: Option<seq<string>>,
    gantEndDate: Option<seq<string>>,
    assignee: Option<Assignee>)

  /** The part of s before the first occurrence of c (Python's s.split(c)[0]). */
  function BeforeFirst(s: string, c: char): (r: string)
    ensures r <= s
    ensures c !in r
    ensures |r| < |s| ==> s[|r|] == c
  {
    if s == [] || s[0] == c then [] else [s[0]] + BeforeFirst(s[1..], c)
  }

  /** The component column: the first component's name, '' for an empty or null list. */
  function ComponentName(component: Option<seq<string>>): (r: string)
    ensures component.Some? && component.value != [] ==> r == component.value[0]
    ensures component.None? || component.value == [] ==> r == ""
  {
    match component
    case Some(names) => if names != [] then names[0] else ""
    case None => ""
  }

  /** A Gantt date column: the date part of the field's first element, Null
      when the key is absent, an error when the list is empty. */
  function GanttDate(field: string, dates: Option<seq<string>>): (r: Result<Value, Error>)
    ensures r.Err? <==> dates == Some([])
    ensures r.Err? ==> r.error == EmptyDateList(field)
    ensures dates.None? ==> r == Ok(Null)
    ensures r.Ok? && dates.Some? ==> r.value.Str? && r.value.s <= dates.value[0] && 'T' !in r.value.s
    ensures r.Ok? && dates.Some? ==> r.value == Str(BeforeFirst(dates.value[0], 'T'))
  {
    match dates
    case None => Ok(Null)
    case Some(ds) => if ds == [] then Err(EmptyDateList(field)) else Ok(Str(BeforeFirst(ds[0], 'T')))
  }

  /** The assignee column: the f-string of `firstName` ("None" for JSON
      null), '' when the key is absent. */
  function AssigneeName(assignee: Option<Assignee>): (r: string)
    ensures assignee.None? ==> r == ""
    ensures assignee.Some? && assignee.value.firstName.Some? ==> r == assignee.value.firstName.value
    ensures assignee.Some? && assignee.value.firstName.None? ==> r == "None"
  {
    match assignee
    case Some(Assignee(Some(first))) => first
    case Some(Assignee(None)) => "None"
    case None => ""
  }

  /** STATUS_MAPPING.get(assignee, "Бэклог"): the mapped status when the
      name has an entry, Бэклог otherwise. */
  function DeriveStatus(assignee: string, mapping: map<string, string>): (r: string)
    ensures assignee in mapping ==> r == mapping[assignee]
    ensures assignee !in mapping ==> r == Backlog
    ensures r == Backlog || r in mapping.Values
  {
    if assignee in mapping then mapping[assignee] else Backlog
  }

  /** The value fill_dataframe puts under COLUMS[i], given the two Gantt
      dates already extracted. */
  function FieldValue(release: string, item: RawTask, mapping: map<string, string>, start: Value, end: Value, i: nat): Value
    requires i < RowWidth
  {
    var assignee := AssigneeName(item.assignee);
    match i
    case 0 => Str(release)
    case 1 => Str(item.number)
    case 2 => Str(item.name)
    case 3 => Str(ComponentName(item.component))
    case 4 => Str(DeriveStatus(assignee, mapping))
    case 5 => Num(item.priorityId - PriorityOffset)
    case 6 => Str("")
    case 7 => start
    case 8 => end
    case 9 => if item.dueDate.Some? then item.dueDate.value else Str("")
    case 10 => Str(assignee)
  }

  /** The last of the first RowWidth positions naming column c: in a dict
      display a repeated key keeps its last value. */
  function LastIndex(cols: seq<string>, c: string): (i: nat)
    requires |cols| >= RowWidth && c in cols[..RowWidth]
    ensures i < RowWidth && cols[i] == c
    ensures forall j :: i < j < RowWidth ==> cols[j] != c
  {
    LastIndexBelow(cols, c, RowWidth)
  }

  function LastIndexBelow(cols: seq<string>, c: string, n: nat): (i: nat)
    requires n <= |cols| && c in cols[..n]
    ensures i < n && cols[i] == c
    ensures forall j :: i < j < n ==> cols[j] != c
  {
    if cols[n - 1] == c then n - 1
    else
      assert c in cols[..n - 1] by {
        var k :| 0 <= k < n && cols[..n][k] == c;
        assert cols[..n - 1][k] == c;
      }
      LastIndexBelow(cols, c, n - 1)
  }

  /** The exception a failing task raises, in evaluation order: the start
      date list, the end date list, then the column display. */
  function NormalizeFailure(item: RawTask): Error
  {
    if item.gantStartDate == Some([]) then EmptyDateList("gantStartDate")
    else if item.gantEndDate == Some([]) then EmptyDateList("gantEndDate")
    else ShortColumnList
  }

  /** The row fill_dataframe builds for one task: column COLUMS[i] holds
      FieldValue(i), the last position winning for a repeated name. Reading
      an empty Gantt list raises, and so does the row display when fewer
      than RowWidth column names are configured. */
  function NormalizeTask(release: string, item: RawTask, cols: seq<string>, mapping: map<string, string>): (r: Result<Record, Error>)
    ensures r.Err? <==> item.gantStartDate == Some([]) || item.gantEndDate == Some([]) || |cols| < RowWidth
    ensures r.Err? ==> r.error == NormalizeFailure(item)
    ensures r.Ok? ==> r.value.Keys == RowColumns(cols)
  {
    var start :- GanttDate("gantStartDate", item.gantStartDate);
    var end :- GanttDate("gantEndDate", item.gantEndDate);
    if |cols| < RowWidth then Err(ShortColumnList)
    else
      var row := map c | c in cols[..RowWidth] :: FieldValue(release, item, mapping, start, end, LastIndex(cols, c));
      assert row.Keys == RowColumns(cols) by {
        forall c | c in RowColumns(cols) ensures c in cols[..RowWidth] {
          var i :| 0 <= i < RowWidth && cols[i] == c;
          assert cols[..RowWidth][i] == c;
        }
      }
      Ok(row)
  }

  /** The configured column names the rows use are pairwise different. */
  predicate DistinctColumns(cols: seq<string>)
    requires |cols| >= RowWidth
  {
    forall i, j :: 0 <= i < j < RowWidth ==> cols[i] != cols[j]
  }

  /** The columns of a non-empty normalised table. */
  function RowColumns(cols: seq<string>): set<string>
  {
    set i | 0 <= i < RowWidth && i < |cols| :: cols[i]
  }

  /** fill_dataframe: normalise every task of the response in order and build
      a DataFrame from the rows. The first task whose Gantt list is empty
      raises and no table is produced. */
  method FillDataFrame(release: string, content: seq<RawTask>, cols: seq<string>, mapping: map<string, string>)
    returns (r: Result<Table, Error>)
    ensures r.Ok? <==> forall i :: 0 <= i < |content| ==> NormalizeTask(release, content[i], cols, mapping).Ok?
    ensures r.Ok? ==> |r.value.rows| == |content|
    ensures r.Ok? ==> forall i :: 0 <= i < |content| ==> Ok(r.value.rows[i]) == NormalizeTask(release, content[i], cols, mapping)
    ensures r.Ok? ==> r.value.columns == if content == [] then {} else RowColumns(cols)
    ensures r.Err? ==> exists i :: 0 <= i < |content|
                        && NormalizeTask(release, content[i], cols, mapping).Err?
                        && r == Err(NormalizeTask(release, content[i], cols, mapping).error)
                        && forall j :: 0 <= j < i ==> NormalizeTask(release, content[j], cols, mapping).Ok?
  {
    var data: seq<Record> := [];
    var k := 0;
    while k < |content|
      invariant 0 <= k <= |content|
      invariant |data| == k
      invariant forall i :: 0 <= i < k ==> Ok(data[i]) == NormalizeTask(release, content[i], cols, mapping)
    {
      var row := NormalizeTask(release, content[k], cols, mapping);
      if row.Err? {
        r := Err(row.error);
        assert 0 <= k < |content| && NormalizeTask(release, content[k], cols, mapping).Err?;
        return;
      }
      data := data + [row.value];
      k := k + 1;
    }
    SameKeysColumns(data, RowColumns(cols));
    r := Ok(FromRecords(data));
  }

  /** With distinct column names, column COLUMS[i] of the row holds exactly
      the value fill_dataframe wrote for position i. */
  lemma NormalizedAt(release: string, item: RawTask, cols: seq<string>, mapping: map<string, string>, i: nat)
    requires |cols| >= RowWidth && DistinctColumns(cols) && i < RowWidth
    requires NormalizeTask(release, item, cols, mapping).Ok?
    ensures NormalizeTask(release, item, cols, mapping).value[cols[i]]
         == FieldValue(release, item, mapping, GanttDate("gantStartDate", item.gantStartDate).value,
                       GanttDate("gantEndDate", item.gantEndDate).value, i)
  {
    assert cols[..RowWidth][i] == cols[i];
    assert LastIndex(cols, cols[i]) == i;
  }

  /** A DataFrame built from rows that all have the key set ks has the
      columns ks, or none when there are no rows. */
  lemma SameKeysColumns(data: seq<Record>, ks: set<string>)
    requires forall i :: 0 <= i < |data| ==> data[i].Keys == ks
    ensures KeysOf(data) == if data == [] then {} else ks
  {
    if data != [] {
      assert data[0].Keys == ks;
      forall c | c in KeysOf(data) ensures c in ks {
        var i, c' :| 0 <= i < |data| && c' in data[i] && c' == c;
        assert data[i].Keys == ks;
      }
    }
  }

  /** The task's own fields: release, task number, name, component, derived
      status and priority minus PriorityOffset. */
  lemma NormalizedTaskFields(release: string, item: RawTask, cols: seq<string>, mapping: map<string, string>, row: Record)
    requires |cols| >= RowWidth && DistinctColumns(cols)
    requires NormalizeTask(release, item, cols, mapping) == Ok(row)
    ensures && row[cols[0]] == Str(release)
      && row[cols[1]] == Str(item.number)
      && row[cols[2]] == Str(item.name)
      && row[cols[3]] == Str(ComponentName(item.component))
      && row[cols[4]] == Str(DeriveStatus(AssigneeName(item.assignee), mapping))
      && row[cols[5]] == Num(item.priorityId - PriorityOffset)
  {
    NormalizedAt(release, item, cols, mapping, 0);
    NormalizedAt(release, item, cols, mapping, 1);
    NormalizedAt(release, item, cols, mapping, 2);
    NormalizedAt(release, item, cols, mapping, 3);
    NormalizedAt(release, item, cols, mapping, 4);
    NormalizedAt(release, item, cols, mapping, 5);
  }

  /** The planning fields: empty estimation, Gantt dates, due date ('' when
      absent) and assignee. */
  lemma NormalizedPlanFields(release: string, item: RawTask, cols: seq<string>, mapping: map<string, string>, row: Record)
    requires |cols| >= RowWidth && DistinctColumns(cols)
    requires NormalizeTask(release, item, cols, mapping) == Ok(row)
    ensures && row[cols[6]] == Str("")
      && row[cols[7]] == GanttDate("gantStartDate", item.gantStartDate).value
      && row[cols[8]] == GanttDate("gantEndDate", item.gantEndDate).value
      && row[cols[9]] == (if item.dueDate.Some? then item.dueDate.value else Str(""))
      && row[cols[10]] == Str(AssigneeName(item.assignee))
  {
    NormalizedAt(release, item, cols, mapping, 6);
    NormalizedAt(release, item, cols, mapping, 7);
    NormalizedAt(release, item, cols, mapping, 8);
    NormalizedAt(release, item, cols, mapping, 9);
    NormalizedAt(release, item, cols, mapping, 10);
  }

  /** The normalisation rules, field by field: release, task number, name,
      component, derived status, priority minus PriorityOffset, empty
      estimation, Gantt dates, due date ('' when absent) and assignee. */
  lemma NormalizedFields(release: string, item: RawTask, cols: seq<string>, mapping: map<string, string>, row: Record)
    requires |cols| >= RowWidth && DistinctColumns(cols)
    requires NormalizeTask(release, item, cols, mapping) == Ok(row)
    ensures && row[cols[0]] == Str(release)
      && row[cols[1]] == Str(item.number)
      && row[cols[2]] == Str(item.name)
      && row[cols[3]] == Str(ComponentName(item.component))
      && row[cols[4]] == Str(DeriveStatus(AssigneeName(item.assignee), mapping))
      && row[cols[5]] == Num(item.priorityId - PriorityOffset)
      && row[cols[6]] == Str("")
      && row[cols[7]] == GanttDate("gantStartDate", item.gantStartDate).value
      && row[cols[8]] == GanttDate("gantEndDate", item.gantEndDate).value
      && row[cols[9]] == (if item.dueDate.Some? then item.dueDate.value else Str(""))
      && row[cols[10]] == Str(AssigneeName(item.assignee))
  {
    NormalizedTaskFields(release, item, cols, mapping, row);
    NormalizedPlanFields(release, item, cols, mapping, row);
  }

  /** A task without an assignee gets an empty assignee cell and the status
      the mapping gives the empty name, Бэклог when it gives none. */
  lemma UnassignedTaskStatus(release: string, item: RawTask, cols: seq<string>, mapping: map<string, string>)
    requires |cols| >= RowWidth && DistinctColumns(cols)
    requires item.assignee.None? && NormalizeTask(release, item, cols, mapping).Ok?
    ensures var row := NormalizeTask(release, item, cols, mapping).value;
      && row[cols[10]] == Str("")
      && row[cols[4]] == Str(if "" in mapping then mapping[""] else Backlog)
  {
    NormalizedAt(release, item, cols, mapping, 4);
    NormalizedAt(release, item, cols, mapping, 10);
  }

  /** The status is the assignee's mapped status or Бэклог, nothing else. */
  lemma {:induction false} NormalizedStatusRange(release: string, item: RawTask, cols: seq<string>, mapping: map<string, string>)
    requires |cols| >= RowWidth && DistinctColumns(cols)
    requires NormalizeTask(release, item, cols, mapping).Ok?
    ensures var st := NormalizeTask(release, item, cols, mapping).value[cols[4]];
      st == Str(Backlog) || exists name :: name in mapping && st == Str(mapping[name])
  {
    NormalizedAt(release, item, cols, mapping, 4);
  }

  /** An empty assignee is not forced to Бэклог: a mapping entry for the
      empty name wins. */
  lemma UnassignedCanBeMapped()
    ensures DeriveStatus(AssigneeName(None), map["" := "Разработка"]) == "Разработка" != Backlog
  {
  }
}
