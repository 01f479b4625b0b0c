/** The inventory listings of src/data_service.rs: the distinct application
    owners, the topics of one application, and the distinct consumer
    applications. A data frame is a rectangle of string cells under named
    columns; a query result is a frame whose cells are strings or counts,
    read out one column at a time by `map_single_result`. */
module DataService {
  import opened Wrappers
  import opened Text
  import opened StableSort

  const ProjectColumn := "Project"
  const TopicColumn := "Topic_Name_Kafka"
  const ConsumerProjectColumn := "Project"

  /** The column positions `map_single_result` reads in each query result. */
  const AppOwnerIndex: nat := 0
  const TopicNameIndex: nat := 1
  const ConsumerAppIndex: nat := 0

  const AppGroupError := "Failed to group by app owner"
  const TopicGroupError := "Failed to group by topic name"
  const ConsumerGroupError := "Failed to group by consumer group"

  datatype Frame = Frame(columns: seq<string>, rows: seq<seq<string>>) {
    predicate Rectangular() {
      forall i :: 0 <= i < |rows| ==> |rows[i]| == |columns|
    }
  }

  /** An input data frame: every row has one cell per column. */
  type Table = f: Frame | f.Rectangular() witness Frame([], [])

  /** A cell of a query result: a string, or the count an aggregation adds. */
  datatype Cell = Str(text: string) | Count(n: nat)

  /** A cell's display form: strings appear in double quotes. */
  function Render(c: Cell): string {
    match c
    case Str(s) => "\"" + s + "\""
    case Count(n) => DecimalString(n)
  }

  /** A cell's text with every double quote removed. */
  function Unquote(c: Cell): string {
    RemoveChar(Render(c), '"')
  }

  /** The position of the first column called `name`. */
  function ColumnIndex(columns: seq<string>, name: string): (r: Option<nat>)
    ensures r.None? <==> name !in columns
    ensures r.Some? ==> r.value < |columns| && columns[r.value] == name
  {
    if columns == [] then None
    else if columns[0] == name then Some(0)
    else match ColumnIndex(columns[1..], name)
      case Some(i) => Some(i + 1)
      case None => None
  }

  /** The cell of `row` in column `j`; input rows always have it. */
  function At(row: seq<string>, j: nat): string {
    if j < |row| then row[j] else ""
  }

  /** Column `j` of a table, top to bottom. */
  function Column(t: Table, j: nat): (r: seq<string>)
    requires j < |t.columns|
    ensures |r| == |t.rows|
    ensures forall i :: 0 <= i < |r| ==> r[i] == t.rows[i][j]
  {
    seq(|t.rows|, i requires 0 <= i < |t.rows| => t.rows[i][j])
  }

  // ----- map_single_result -----

  /** What `map_single_result` appends for `rows`: the unquoted text of
      cell `idx` of every row that has one, in row order. */
  function ColumnText(rows: seq<seq<Cell>>, idx: nat): seq<string>
    decreases |rows|
  {
    if rows == [] then []
    else
      var last := rows[|rows| - 1];
      ColumnText(rows[..|rows| - 1], idx) + (if idx < |last| then [Unquote(last[idx])] else [])
  }

  /** Appends cell `idx` of every row of `ds`, quotes removed, to `list`. */
  method MapSingleResult(list: seq<string>, ds: seq<seq<Cell>>, idx: nat) returns (out: seq<string>)
    ensures out == list + ColumnText(ds, idx)
  {
    out := list;
    for row := 0 to |ds|
      invariant out == list + ColumnText(ds[..row], idx)
    {
      var cells := ds[row];
      ghost var before := out;
      for i := 0 to |cells|
        invariant out == before + (if idx < i then [Unquote(cells[idx])] else [])
      {
        if i == idx {
          out := out + [RemoveChar(Render(cells[i]), '"')];
        }
      }
      assert ds[..row + 1][..row] == ds[..row];
    }
    assert ds[..|ds|] == ds;
  }

  /** When every row has cell `idx`, one string per row comes out, in row
      order. */
  lemma {:induction false} ColumnTextOfFullRows(rows: seq<seq<Cell>>, idx: nat)
    requires forall i :: 0 <= i < |rows| ==> idx < |rows[i]|
    ensures |ColumnText(rows, idx)| == |rows|
    ensures forall i :: 0 <= i < |rows| ==> ColumnText(rows, idx)[i] == Unquote(rows[i][idx])
    decreases |rows|
  {
    if rows != [] {
      var init := rows[..|rows| - 1];
      var last := rows[|rows| - 1];
      ColumnTextOfFullRows(init, idx);
      var r := ColumnText(rows, idx);
      var ri := ColumnText(init, idx);
      assert r == ri + [Unquote(last[idx])];
      forall i | 0 <= i < |rows| ensures r[i] == Unquote(rows[i][idx]) {
        if i < |init| {
          assert init[i] == rows[i];
          assert ri[i] == Unquote(init[i][idx]);
          assert r[i] == ri[i];
        } else {
          assert i == |rows| - 1;
          assert r[i] == Unquote(last[idx]);
        }
      }
    }
  }

  lemma {:induction false} RemoveCharAppend(a: string, b: string, c: char)
    ensures RemoveChar(a + b, c) == RemoveChar(a, c) + RemoveChar(b, c)
    decreases |a|
  {
    if a != [] {
      assert (a + b)[1..] == a[1..] + b;
      RemoveCharAppend(a[1..], b, c);
    } else {
      assert a + b == b;
    }
  }

  /** A string without quote characters reads back unchanged. */
  lemma UnquoteStr(s: string)
    requires '"' !in s
    ensures Unquote(Str(s)) == s
  {
    RemoveCharAppend("\"" + s, "\"", '"');
    RemoveCharAppend("\"", s, '"');
  }

  // ----- distinct values in ascending order -----

  predicate StrictlyAscending(s: seq<string>) {
    forall i, j :: 0 <= i < j < |s| ==> LexLt(s[i], s[j])
  }

  lemma LexLtTrans(a: string, b: string, c: string)
    requires LexLt(a, b) && LexLe(b, c)
    ensures LexLt(a, c)
  {
    LexLeTrans(a, b, c);
    if a == c {
      LexLeAntisym(a, b);
    }
  }

  /** Adds `x` to a strictly ascending sequence, unless it is there. */
  function InsertDistinct(x: string, s: seq<string>): (r: seq<string>)
    requires StrictlyAscending(s)
    ensures StrictlyAscending(r)
    ensures forall y :: y in r <==> y == x || y in s
    decreases |s|
  {
    if s == [] then [x]
    else if x == s[0] then s
    else if LexLe(x, s[0]) then
      assert forall j :: 0 <= j < |s| ==> LexLt(x, s[j]) by {
        forall j | 0 <= j < |s| ensures LexLt(x, s[j]) {
          if j > 0 { LexLtTrans(x, s[0], s[j]); }
        }
      }
      [x] + s
    else
      var rest := InsertDistinct(x, s[1..]);
      assert LexLt(s[0], x) by { LexLeTotal(x, s[0]); }
      assert forall j :: 0 <= j < |rest| ==> LexLt(s[0], rest[j]) by {
        forall j | 0 <= j < |rest| ensures LexLt(s[0], rest[j]) {
          assert rest[j] in rest;
          if rest[j] != x {
            var k :| 0 <= k < |s[1..]| && s[1..][k] == rest[j];
            assert s[k + 1] == rest[j];
          }
        }
      }
      [s[0]] + rest
  }

  /** The distinct values of `xs`, each once, in ascending order: the key
      column of a group-by sorted on its key. */
  function DistinctAscending(xs: seq<string>): (r: seq<string>)
    ensures StrictlyAscending(r)
    ensures forall y :: y in r <==> y in xs
    decreases |xs|
  {
    if xs == [] then []
    else InsertDistinct(xs[|xs| - 1], DistinctAscending(xs[..|xs| - 1]))
  }

  /** A strictly ascending sequence is determined by its elements. */
  lemma {:induction false} AscendingUnique(s: seq<string>, t: seq<string>)
    requires StrictlyAscending(s) && StrictlyAscending(t)
    requires forall y :: y in s <==> y in t
    ensures s == t
    decreases |s|
  {
    assert s == [] <==> t == [] by {
      if s != [] { assert s[0] in t; }
      if t != [] { assert t[0] in s; }
    }
    if s != [] {
      assert s[0] in t;
      assert t[0] in s;
      if s[0] != t[0] {
        var i :| 0 <= i < |t| && t[i] == s[0];
        var j :| 0 <= j < |s| && s[j] == t[0];
        LexLeAntisym(s[0], t[0]);
      }
      forall y ensures y in s[1..] <==> y in t[1..] {
        if y in s[1..] {
          var k :| 0 <= k < |s[1..]| && s[1..][k] == y;
          assert s[k + 1] == y && LexLt(s[0], y);
          assert y in s && y in t;
          var m :| 0 <= m < |t| && t[m] == y;
          assert m != 0;
          assert t[1..][m - 1] == y;
        }
        if y in t[1..] {
          var k :| 0 <= k < |t[1..]| && t[1..][k] == y;
          assert t[k + 1] == y && LexLt(t[0], y);
          assert y in t && y in s;
          var m :| 0 <= m < |s| && s[m] == y;
          assert m != 0;
          assert s[1..][m - 1] == y;
        }
      }
      AscendingUnique(s[1..], t[1..]);
      assert s == [s[0]] + s[1..] && t == [t[0]] + t[1..];
    }
  }

  // ----- the queries -----

  /** `group_by([key]).agg([count])` sorted on the key: one row per distinct
      key, in ascending order, with the number of rows in its group. */
  function GroupCount(t: Table, key: nat): (r: seq<seq<Cell>>)
    requires key < |t.columns|
    ensures |r| == |DistinctAscending(Column(t, key))|
    ensures forall i :: 0 <= i < |r| ==> |r[i]| == 2 && r[i][0] == Str(DistinctAscending(Column(t, key))[i])
  {
    var col := Column(t, key);
    var keys := DistinctAscending(col);
    seq(|keys|, i requires 0 <= i < |keys| => [Str(keys[i]), Count(multiset(col)[keys[i]])])
  }

  /** The rows whose cell in column `j` is `v`, in table order. */
  function RowsWhere(rows: seq<seq<string>>, j: nat, v: string): (r: seq<seq<string>>)
    ensures forall x :: x in r <==> x in rows && At(x, j) == v
    ensures multiset(r) <= multiset(rows)
    decreases |rows|
  {
    if rows == [] then []
    else
      assert rows == [rows[0]] + rows[1..];
      (if At(rows[0], j) == v then [rows[0]] else []) + RowsWhere(rows[1..], j, v)
  }

  /** "`a` may stand before `b`" when ordering rows on column `j`. */
  function ColumnOrder(j: nat): (seq<string>, seq<string>) -> bool {
    (a: seq<string>, b: seq<string>) => LexLe(At(a, j), At(b, j))
  }

  lemma ColumnOrderIsTotalPreorder(j: nat)
    ensures TotalPreorder(ColumnOrder(j))
  {
    forall a: seq<string>, b: seq<string> ensures ColumnOrder(j)(a, b) || ColumnOrder(j)(b, a) {
      LexLeTotal(At(a, j), At(b, j));
    }
    forall a: seq<string>, b: seq<string>, c: seq<string> | ColumnOrder(j)(a, b) && ColumnOrder(j)(b, c)
      ensures ColumnOrder(j)(a, c)
    {
      LexLeTrans(At(a, j), At(b, j), At(c, j));
    }
  }

  /** An input row as result cells. */
  function Cells(row: seq<string>): (r: seq<Cell>)
    ensures |r| == |row|
    ensures forall i :: 0 <= i < |row| ==> r[i] == Str(row[i])
  {
    seq(|row|, i requires 0 <= i < |row| => Str(row[i]))
  }

  /** `filter(project == app_name).sort([topic])`: the matching rows,
      ordered on the topic column. */
  function TopicRows(t: Table, project: nat, topic: nat, appName: string): (r: seq<seq<string>>)
    ensures multiset(r) == multiset(RowsWhere(t.rows, project, appName))
    ensures Sorted(r, ColumnOrder(topic))
  {
    ColumnOrderIsTotalPreorder(topic);
    Sort(RowsWhere(t.rows, project, appName), ColumnOrder(topic))
  }

  /** The application owners of the inventory, each once, in ascending
      order. */
  function AppList(t: Table): (r: Result<seq<string>, string>)
    ensures r.Err? <==> ProjectColumn !in t.columns || TopicColumn !in t.columns
    ensures r.Err? ==> r.error == AppGroupError
  {
    var p := ColumnIndex(t.columns, ProjectColumn);
    var k := ColumnIndex(t.columns, TopicColumn);
    if p.Some? && k.Some? then Ok(ColumnText(GroupCount(t, p.value), AppOwnerIndex))
    else Err(AppGroupError)
  }

  /** The topics of one application owner, in ascending order. */
  function TopicList(t: Table, appName: string): (r: Result<seq<string>, string>)
    ensures r.Err? <==> ProjectColumn !in t.columns || TopicColumn !in t.columns
    ensures r.Err? ==> r.error == TopicGroupError
  {
    var p := ColumnIndex(t.columns, ProjectColumn);
    var k := ColumnIndex(t.columns, TopicColumn);
    if p.Some? && k.Some? then
      Ok(ColumnText(Apply(TopicRows(t, p.value, k.value, appName), Cells), TopicNameIndex))
    else Err(TopicGroupError)
  }

  /** The consuming applications named in the consumer file, each once, in
      ascending order. */
  function ConsumerList(t: Table): (r: Result<seq<string>, string>)
    ensures r.Err? <==> ConsumerProjectColumn !in t.columns
    ensures r.Err? ==> r.error == ConsumerGroupError
  {
    var p := ColumnIndex(t.columns, ConsumerProjectColumn);
    if p.Some? then Ok(ColumnText(GroupCount(t, p.value), ConsumerAppIndex))
    else Err(ConsumerGroupError)
  }

  method GetAppList(t: Table) returns (r: Result<seq<string>, string>)
    ensures r == AppList(t)
  {
    var p := ColumnIndex(t.columns, ProjectColumn);
    var k := ColumnIndex(t.columns, TopicColumn);
    if p.None? || k.None? {
      assert AppList(t) == Err(AppGroupError);
      return Err(AppGroupError);
    }
    var frame := GroupCount(t, p.value);
    var list := MapSingleResult([], frame, AppOwnerIndex);
    assert [] + ColumnText(frame, AppOwnerIndex) == ColumnText(frame, AppOwnerIndex);
    assert AppList(t) == Ok(ColumnText(frame, AppOwnerIndex));
    r := Ok(list);
  }

  method GetTopicList(t: Table, appName: string) returns (r: Result<seq<string>, string>)
    ensures r == TopicList(t, appName)
  {
    var p := ColumnIndex(t.columns, ProjectColumn);
    var k := ColumnIndex(t.columns, TopicColumn);
    if p.None? || k.None? {
      assert TopicList(t, appName) == Err(TopicGroupError);
      return Err(TopicGroupError);
    }
    var frame := Apply(TopicRows(t, p.value, k.value, appName), Cells);
    var list := MapSingleResult([], frame, TopicNameIndex);
    assert [] + ColumnText(frame, TopicNameIndex) == ColumnText(frame, TopicNameIndex);
    assert TopicList(t, appName) == Ok(ColumnText(frame, TopicNameIndex));
    r := Ok(list);
  }

  method GetConsumerList(t: Table) returns (r: Result<seq<string>, string>)
    ensures r == ConsumerList(t)
  {
    var p := ColumnIndex(t.columns, ConsumerProjectColumn);
    if p.None? {
      assert ConsumerList(t) == Err(ConsumerGroupError);
      return Err(ConsumerGroupError);
    }
    var frame := GroupCount(t, p.value);
    var list := MapSingleResult([], frame, ConsumerAppIndex);
    assert [] + ColumnText(frame, ConsumerAppIndex) == ColumnText(frame, ConsumerAppIndex);
    assert ConsumerList(t) == Ok(ColumnText(frame, ConsumerAppIndex));
    r := Ok(list);
  }

  // ----- what the listings promise -----

  /** Reading the key column of a group-by gives back its distinct keys. */
  lemma GroupKeysReadBack(t: Table, key: nat)
    requires key < |t.columns|
    requires forall i :: 0 <= i < |t.rows| ==> '"' !in t.rows[i][key]
    ensures ColumnText(GroupCount(t, key), 0) == DistinctAscending(Column(t, key))
  {
    var rows := GroupCount(t, key);
    var keys := DistinctAscending(Column(t, key));
    ColumnTextOfFullRows(rows, 0);
    forall i | 0 <= i < |rows| ensures ColumnText(rows, 0)[i] == keys[i] {
      assert keys[i] in Column(t, key);
      UnquoteStr(keys[i]);
    }
  }

  /** The application list holds every distinct project value exactly
      once, in ascending order, and is the only such list. */
  lemma AppListDistinctSorted(t: Table, p: nat)
    requires p < |t.columns| && ColumnIndex(t.columns, ProjectColumn) == Some(p)
    requires TopicColumn in t.columns
    requires forall i :: 0 <= i < |t.rows| ==> '"' !in t.rows[i][p]
    ensures AppList(t).Ok?
    ensures StrictlyAscending(AppList(t).value)
    ensures forall y :: y in AppList(t).value <==> y in Column(t, p)
    ensures forall s :: StrictlyAscending(s) && (forall y :: y in s <==> y in Column(t, p))
                        ==> s == AppList(t).value
  {
    GroupKeysReadBack(t, p);
    forall s | StrictlyAscending(s) && (forall y :: y in s <==> y in Column(t, p))
      ensures s == AppList(t).value
    {
      AscendingUnique(s, AppList(t).value);
    }
  }

  /** The consumer list holds every distinct consumer project exactly once,
      in ascending order. */
  lemma ConsumerListDistinctSorted(t: Table, p: nat)
    requires p < |t.columns| && ColumnIndex(t.columns, ConsumerProjectColumn) == Some(p)
    requires forall i :: 0 <= i < |t.rows| ==> '"' !in t.rows[i][p]
    ensures ConsumerList(t).Ok?
    ensures StrictlyAscending(ConsumerList(t).value)
    ensures forall y :: y in ConsumerList(t).value <==> y in Column(t, p)
  {
    GroupKeysReadBack(t, p);
  }

  /** Reading string column `k` of rows that all have it, and no quotes in
      it, gives back that column's texts. */
  lemma StringColumnReadBack(rows: seq<seq<string>>, k: nat)
    requires forall i :: 0 <= i < |rows| ==> k < |rows[i]| && '"' !in rows[i][k]
    ensures ColumnText(Apply(rows, Cells), k) == Apply(rows, (row: seq<string>) => At(row, k))
  {
    var cells := Apply(rows, Cells);
    ColumnTextOfFullRows(cells, k);
    var r := ColumnText(cells, k);
    forall i | 0 <= i < |r| ensures r[i] == At(rows[i], k) {
      UnquoteStr(rows[i][k]);
    }
  }

  /** The topic list, when the topic column is the second one, is exactly
      the topics of the application's rows, duplicates kept, in ascending
      order. */
  lemma TopicListSorted(t: Table, appName: string)
    requires ColumnIndex(t.columns, TopicColumn) == Some(TopicNameIndex)
    requires ProjectColumn in t.columns
    requires forall i :: 0 <= i < |t.rows| ==> '"' !in t.rows[i][TopicNameIndex]
    ensures TopicList(t, appName).Ok?
    ensures var p := ColumnIndex(t.columns, ProjectColumn).value;
      multiset(TopicList(t, appName).value)
      == multiset(Apply(RowsWhere(t.rows, p, appName), (row: seq<string>) => At(row, TopicNameIndex)))
    ensures var r := TopicList(t, appName).value;
      forall i, j :: 0 <= i < j < |r| ==> LexLe(r[i], r[j])
  {
    var p := ColumnIndex(t.columns, ProjectColumn).value;
    var k := TopicNameIndex;
    var key := (row: seq<string>) => At(row, k);
    var matching := RowsWhere(t.rows, p, appName);
    var sorted := TopicRows(t, p, k, appName);
    forall i | 0 <= i < |sorted| ensures k < |sorted[i]| && '"' !in sorted[i][k] {
      assert sorted[i] in multiset(matching);
      assert sorted[i] in t.rows;
    }
    StringColumnReadBack(sorted, k);
    var r := Apply(sorted, key);
    assert TopicList(t, appName) == Ok(r);
    ColumnOrderIsTotalPreorder(k);
    ApplySort(matching, ColumnOrder(k), key);
    forall i, j | 0 <= i < j < |r| ensures LexLe(r[i], r[j]) {
      assert ColumnOrder(k)(sorted[i], sorted[j]);
    }
  }
}
