/** The data table of statics/table.js: `renderTable` lays out records under
    a numbered, capitalised header, and `sortTable` reorders the body rows
    by one column, alternating the direction on every call, and renumbers
    them. A row is the texts of its cells, the row number first. */
module TableSort {
  import opened Wrappers
  import opened Text
  import opened StableSort

  const AscendingFlag := "true"
  const DescendingFlag := "false"
  const NumberHeader := "#"

  /** The compared text of a row: its cell in column `c`, lower-cased. */
  function Key(row: seq<string>, c: nat): string {
    if c < |row| then ToLower(row[c]) else ""
  }

  /** The comparator of `sortTable` as "`a` may stand before `b`":
      ascending by key when `asc`, descending otherwise. */
  function Order(c: nat, asc: bool): (seq<string>, seq<string>) -> bool {
    (a: seq<string>, b: seq<string>) =>
      if asc then LexLe(Key(a, c), Key(b, c)) else LexLe(Key(b, c), Key(a, c))
  }

  lemma OrderIsTotalPreorder(c: nat, asc: bool)
    ensures TotalPreorder(Order(c, asc))
  {
    forall a: seq<string>, b: seq<string> ensures Order(c, asc)(a, b) || Order(c, asc)(b, a) {
      LexLeTotal(Key(a, c), Key(b, c));
    }
    forall a: seq<string>, b: seq<string>, d: seq<string> | Order(c, asc)(a, b) && Order(c, asc)(b, d)
      ensures Order(c, asc)(a, d)
    {
      if asc {
        LexLeTrans(Key(a, c), Key(b, c), Key(d, c));
      } else {
        LexLeTrans(Key(d, c), Key(b, c), Key(a, c));
      }
    }
  }

  /** `rows.sort(...)`: JavaScript's sort is stable. */
  function SortRows(rows: seq<seq<string>>, c: nat, asc: bool): (r: seq<seq<string>>)
    ensures multiset(r) == multiset(rows) && |r| == |rows|
    ensures forall i, j :: 0 <= i < j < |r| ==>
      if asc then LexLe(Key(r[i], c), Key(r[j], c)) else LexLe(Key(r[j], c), Key(r[i], c))
  {
    OrderIsTotalPreorder(c, asc);
    var r := Sort(rows, Order(c, asc));
    assert forall i, j :: 0 <= i < j < |r| ==> Order(c, asc)(r[i], r[j]);
    r
  }

  /** Every row has a first cell, and it reads k+1 in the k-th row. */
  predicate Numbered(body: seq<seq<string>>) {
    forall k :: 0 <= k < |body| ==> body[k] != [] && body[k][0] == DecimalString(k + 1)
  }

  /** The rows with their first cells rewritten to 1, 2, 3, ... */
  function Renumbered(rows: seq<seq<string>>): (r: seq<seq<string>>)
    requires forall k :: 0 <= k < |rows| ==> rows[k] != []
    ensures |r| == |rows|
    ensures Numbered(r)
    ensures forall k :: 0 <= k < |rows| ==> |r[k]| == |rows[k]| && r[k][1..] == rows[k][1..]
  {
    seq(|rows|, k requires 0 <= k < |rows| => rows[k][0 := DecimalString(k + 1)])
  }

  /** A row without its number cell. */
  function Data(row: seq<string>): seq<string> {
    if row == [] then [] else row[1..]
  }

  /** A record as its fields in key order (`Object.keys`). */
  datatype Record = Record(fields: seq<(string, string)>)

  function FieldNames(r: Record): (names: seq<string>)
    ensures |names| == |r.fields|
    ensures forall i :: 0 <= i < |names| ==> names[i] == r.fields[i].0
  {
    seq(|r.fields|, i requires 0 <= i < |r.fields| => r.fields[i].0)
  }

  /** `item[header]` as cell text; a missing field gives an empty cell. */
  function Value(r: Record, name: string): string
    decreases |r.fields|
  {
    if r.fields == [] then ""
    else if r.fields[0].0 == name then r.fields[0].1
    else Value(Record(r.fields[1..]), name)
  }

  /** A header's caption: its first character upper-cased, the rest kept. */
  function Capitalized(h: string): (r: string)
    ensures |r| == |h|
    ensures h != [] ==> r[0] == UpperChar(h[0]) && r[1..] == h[1..]
  {
    if h == [] then [] else [UpperChar(h[0])] + h[1..]
  }

  /** The header row: the number header, then each field name
      capitalised. */
  function HeaderRow(headers: seq<string>): (r: seq<string>)
    ensures |r| == |headers| + 1 && r[0] == NumberHeader
    ensures forall i :: 0 <= i < |headers| ==> r[i + 1] == Capitalized(headers[i])
  {
    [NumberHeader] + Apply(headers, Capitalized)
  }

  /** The column each data header's click sorts: one past its position,
      since the number column comes first. */
  function SortColumns(n: nat): (r: seq<nat>)
    ensures |r| == n
    ensures forall i :: 0 <= i < n ==> r[i] == i + 1
  {
    seq(n, i requires 0 <= i < n => i + 1)
  }

  /** The cells of record `item` under `headers`. */
  function RecordCells(item: Record, headers: seq<string>): (r: seq<string>)
    ensures |r| == |headers|
    ensures forall i :: 0 <= i < |headers| ==> r[i] == Value(item, headers[i])
  {
    Apply(headers, (name: string) => Value(item, name))
  }

  /** The k-th body row: its number, then the record's cells. */
  function BodyRow(item: Record, headers: seq<string>, k: nat): seq<string> {
    [DecimalString(k + 1)] + RecordCells(item, headers)
  }

  /** The `data-sort-asc` flag read as a direction. */
  predicate Ascending(flag: Option<string>) {
    flag == Some(AscendingFlag)
  }

  /** The sort-direction flag stored after a sort: the opposite of the
      direction just used. */
  function NextFlag(flag: Option<string>): Option<string> {
    Some(if Ascending(flag) then DescendingFlag else AscendingFlag)
  }

  /** The outcome of a call: done, or a TypeError part way. */
  datatype Outcome = Done | Threw

  class DataTable {
    /** The header cells' texts. */
    var head: seq<string>
    /** For each data header, the column its click handler sorts. */
    var sortColumns: seq<nat>
    /** The body rows in page order. */
    var body: seq<seq<string>>
    /** The `data-sort-asc` attribute, if set. */
    var sortAsc: Option<string>

    constructor (initialAsc: Option<string>)
      ensures head == [] && sortColumns == [] && body == [] && sortAsc == initialAsc
    {
      head := [];
      sortColumns := [];
      body := [];
      sortAsc := initialAsc;
    }

    /** `renderTable(data)`; with no record there are no headers to read
        and the call throws after writing the number header. */
    method RenderTable(data: seq<Record>) returns (outcome: Outcome)
      modifies this
      ensures sortAsc == old(sortAsc)
      ensures data == [] ==> outcome == Threw && head == [NumberHeader] && sortColumns == [] && body == []
      ensures data != [] ==>
        var headers := FieldNames(data[0]);
        && outcome == Done
        && head == HeaderRow(headers)
        && sortColumns == SortColumns(|headers|)
        && |body| == |data|
        && forall k :: 0 <= k < |data| ==> body[k] == BodyRow(data[k], headers, k)
    {
      head := [NumberHeader];
      sortColumns := [];
      body := [];
      if data == [] {
        return Threw;
      }
      var headers := FieldNames(data[0]);
      AddHeaders(headers);
      for rowIndex := 0 to |data|
        invariant |body| == rowIndex
        invariant forall k :: 0 <= k < rowIndex ==> body[k] == BodyRow(data[k], headers, k)
        invariant head == HeaderRow(headers) && sortColumns == SortColumns(|headers|)
        invariant sortAsc == old(sortAsc)
      {
        var tr := MakeRow(data[rowIndex], headers, rowIndex);
        body := body + [tr];
      }
      outcome := Done;
    }

    /** The header loop of `renderTable`: one capitalised, clickable header
        per field name, after the number header. */
    method AddHeaders(headers: seq<string>)
      requires head == [NumberHeader] && sortColumns == []
      modifies this
      ensures head == HeaderRow(headers) && sortColumns == SortColumns(|headers|)
      ensures body == old(body) && sortAsc == old(sortAsc)
    {
      for i := 0 to |headers|
        invariant head == [NumberHeader] + Apply(headers[..i], Capitalized)
        invariant sortColumns == SortColumns(i)
        invariant body == old(body) && sortAsc == old(sortAsc)
      {
        head := head + [Capitalized(headers[i])];
        sortColumns := sortColumns + [i + 1];
        assert Apply(headers[..i + 1], Capitalized) == Apply(headers[..i], Capitalized) + [Capitalized(headers[i])];
      }
      assert headers[..|headers|] == headers;
    }

    /** The row `renderTable` builds for the k-th record. */
    static method MakeRow(item: Record, headers: seq<string>, k: nat) returns (tr: seq<string>)
      ensures tr == BodyRow(item, headers, k)
    {
      tr := [DecimalString(k + 1)];
      for h := 0 to |headers|
        invariant tr == [DecimalString(k + 1)] + RecordCells(item, headers[..h])
      {
        tr := tr + [Value(item, headers[h])];
        assert RecordCells(item, headers[..h + 1]) == RecordCells(item, headers[..h]) + [Value(item, headers[h])];
      }
      assert headers[..|headers|] == headers;
    }

    /** The renumbering pass of `sortTable`. */
    method Renumber()
      requires forall k :: 0 <= k < |body| ==> body[k] != []
      modifies this
      ensures body == Renumbered(old(body))
      ensures head == old(head) && sortColumns == old(sortColumns) && sortAsc == old(sortAsc)
    {
      ghost var rows := body;
      for index := 0 to |body|
        invariant |body| == |rows|
        invariant forall k :: 0 <= k < index ==> body[k] == rows[k][0 := DecimalString(k + 1)]
        invariant forall k :: index <= k < |rows| ==> body[k] == rows[k]
        invariant head == old(head) && sortColumns == old(sortColumns) && sortAsc == old(sortAsc)
      {
        body := body[index := body[index][0 := DecimalString(index + 1)]];
      }
      assert body == Renumbered(rows);
    }

    /** `sortTable(columnIndex)`: every row has the column (the headers
        only offer columns of the table). */
    method SortTable(columnIndex: nat)
      requires forall k :: 0 <= k < |body| ==> columnIndex < |body[k]|
      modifies this
      ensures var sorted := SortRows(old(body), columnIndex, Ascending(old(sortAsc)));
        (forall k :: 0 <= k < |sorted| ==> sorted[k] != []) && body == Renumbered(sorted)
      ensures sortAsc == NextFlag(old(sortAsc))
      ensures head == old(head) && sortColumns == old(sortColumns)
    {
      var rows := body;
      var isAscending := sortAsc == Some(AscendingFlag);
      rows := SortRows(rows, columnIndex, isAscending);
      forall k | 0 <= k < |rows| ensures rows[k] != [] {
        assert rows[k] in multiset(old(body));
      }
      body := rows;
      sortAsc := Some(if isAscending then DescendingFlag else AscendingFlag);
      Renumber();
    }
  }

  /** A sort by a data column leaves the rows ordered by that column in the
      chosen direction, numbered 1, 2, 3, ..., and holding the same data as
      before, each row exactly once. */
  lemma SortTableOrdersRows(rows: seq<seq<string>>, c: nat, asc: bool)
    requires 1 <= c
    requires forall k :: 0 <= k < |rows| ==> c < |rows[k]|
    ensures var sorted := SortRows(rows, c, asc);
      (forall k :: 0 <= k < |sorted| ==> sorted[k] != [])
      && var out := Renumbered(sorted);
      && Numbered(out)
      && (forall i, j :: 0 <= i < j < |out| ==>
            if asc then LexLe(Key(out[i], c), Key(out[j], c)) else LexLe(Key(out[j], c), Key(out[i], c)))
      && multiset(Apply(out, Data)) == multiset(Apply(rows, Data))
  {
    var sorted := SortRows(rows, c, asc);
    forall k | 0 <= k < |sorted| ensures c < |sorted[k]| {
      assert sorted[k] in multiset(rows);
    }
    var out := Renumbered(sorted);
    forall k | 0 <= k < |out| ensures Key(out[k], c) == Key(sorted[k], c) && Data(out[k]) == Data(sorted[k]) {
      assert out[k][1..] == sorted[k][1..];
      assert out[k][c] == out[k][1..][c - 1];
    }
    assert Apply(out, Data) == Apply(sorted, Data);
    OrderIsTotalPreorder(c, asc);
    ApplySort(rows, Order(c, asc), Data);
  }

  /** Rows with equal keys keep their relative order. */
  lemma SortTableStable(rows: seq<seq<string>>, c: nat, asc: bool, z: seq<string>)
    ensures Equivalents(SortRows(rows, c, asc), z, Order(c, asc)) == Equivalents(rows, z, Order(c, asc))
  {
    OrderIsTotalPreorder(c, asc);
    SortStable(rows, z, Order(c, asc));
  }

  /** The direction alternates from call to call; with no flag set the
      first sort is descending and the next one ascending. */
  lemma DirectionAlternates(flag: Option<string>)
    ensures Ascending(NextFlag(flag)) == !Ascending(flag)
    ensures !Ascending(None) && Ascending(NextFlag(None))
  {
  }

  /** In a rendered table, the column header i sorts holds, in every row,
      the record's value for the field that header names. */
  lemma HeaderSortsItsColumn(data: seq<Record>, body: seq<seq<string>>, i: nat)
    requires data != [] && i < |FieldNames(data[0])|
    requires |body| == |data|
    requires forall k :: 0 <= k < |data| ==> body[k] == BodyRow(data[k], FieldNames(data[0]), k)
    ensures Numbered(body)
    ensures forall k :: 0 <= k < |body| ==>
      SortColumns(|FieldNames(data[0])|)[i] < |body[k]|
      && body[k][SortColumns(|FieldNames(data[0])|)[i]] == Value(data[k], FieldNames(data[0])[i])
  {
  }
}
