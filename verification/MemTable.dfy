/** The in-memory table of datastore/memory.ts, and the map that it stands for. */
module MemTables {
  import opened Wrappers
  import opened Conditionals

  datatype Row = Row(pk: string, columns: map<Column, Value>)

  function RecordOf(row: Row): Record {
    key => if key == "pk" then Text(row.pk) else if key in row.columns then row.columns[key] else Null
  }

  /** `_matches` for one row: an empty key means any row. */
  predicate Hits(row: Row, pk: string, c: Option<Conditional>) {
    (pk == "" || row.pk == pk) && (c.Some? ==> MatchesRecord(RecordOf(row), c.value))
  }

  function Matching(rows: seq<Row>, pk: string, c: Option<Conditional>): seq<Row> {
    if rows == [] then []
    else (if Hits(rows[0], pk, c) then [rows[0]] else []) + Matching(rows[1..], pk, c)
  }

  /** New values for every column but the key. */
  function Merged(row: Row, newValues: map<Column, Value>): Row {
    row.(columns := row.columns + (newValues - {"pk"}))
  }

  function Updated(rows: seq<Row>, pk: string, newValues: map<Column, Value>, c: Option<Conditional>): (r: seq<Row>)
    ensures |r| == |rows|
    ensures forall i :: 0 <= i < |rows| ==>
      r[i] == if Hits(rows[i], pk, c) then Merged(rows[i], newValues) else rows[i]
  {
    if rows == [] then []
    else [if Hits(rows[0], pk, c) then Merged(rows[0], newValues) else rows[0]] + Updated(rows[1..], pk, newValues, c)
  }

  /** Without the row with this key, if it is there and matches. */
  function Without(rows: seq<Row>, pk: string, c: Option<Conditional>): seq<Row> {
    if rows == [] then []
    else if rows[0].pk == pk then (if Removes(rows[0], c) then rows[1..] else rows)
    else [rows[0]] + Without(rows[1..], pk, c)
  }

  predicate Removes(row: Row, c: Option<Conditional>) {
    c.Some? ==> MatchesRecord(RecordOf(row), c.value)
  }

  /** At most `count` rows from `start` on. */
  function Window(rows: seq<Row>, start: nat, count: nat): seq<Row> {
    var rest := if start <= |rows| then rows[start..] else [];
    if count <= |rest| then rest[..count] else rest
  }

  predicate DistinctKeys(rows: seq<Row>) {
    && (forall i :: 0 <= i < |rows| ==> rows[i].pk != "")
    && (forall i, j :: 0 <= i < j < |rows| ==> rows[i].pk != rows[j].pk)
  }

  predicate HasKey(rows: seq<Row>, pk: string) {
    exists i :: 0 <= i < |rows| && rows[i].pk == pk
  }

  class MemTable {
    var rows: seq<Row>
    var pks: map<string, bool>

    /** The index holds the keys of the rows, which are unique. */
    ghost predicate Valid()
      reads this
    {
      DistinctKeys(rows) && forall k :: k in pks <==> HasKey(rows, k)
    }

    constructor ()
      ensures Valid() && rows == []
    {
      rows, pks := [], map[];
    }

    method ConditionalUpdate(pk: string, newValues: map<Column, Value>, c: Option<Conditional>) returns (count: nat)
      requires Valid()
      modifies this`rows
      ensures Valid() && rows == Updated(old(rows), pk, newValues, c)
      ensures count == |Matching(old(rows), pk, c)|
    {
      count := 0;
      for i := 0 to |rows|
        invariant |rows| == |old(rows)|
        invariant forall j :: 0 <= j < i ==>
          rows[j] == if Hits(old(rows)[j], pk, c) then Merged(old(rows)[j], newValues) else old(rows)[j]
        invariant forall j :: i <= j < |rows| ==> rows[j] == old(rows)[j]
        invariant count + |Matching(old(rows)[i..], pk, c)| == |Matching(old(rows), pk, c)|
      {
        assert old(rows)[i..][1..] == old(rows)[i + 1..];
        if Hits(rows[i], pk, c) {
          rows := rows[i := Merged(rows[i], newValues)];
          count := count + 1;
        }
      }
      KeysStay(old(rows), rows);
    }

    method Create(values: Row) returns (ok: bool)
      requires Valid()
      modifies this
      ensures Valid() && ok == (values.pk != "" && !HasKey(old(rows), values.pk))
      ensures rows == if ok then old(rows) + [values] else old(rows)
    {
      ok := values.pk != "" && values.pk !in pks;
      if ok {
        pks := pks[values.pk := true];
        KeysOfAppended(rows, values);
        rows := rows + [values];
      }
    }

    method Find(start: nat, maximum: nat, c: Option<Conditional>) returns (found: seq<Row>)
      requires Valid()
      ensures found == Window(Matching(rows, "", c), start, maximum)
    {
      found := Matching(rows, "", c);
      found := if start <= |found| then found[start..] else [];
      if maximum < |found| {
        found := found[..maximum];
      }
    }

    method Remove(pk: string, c: Option<Conditional>) returns (count: nat)
      requires Valid()
      modifies this
      ensures Valid() && rows == Without(old(rows), pk, c)
      ensures count == |old(rows)| - |rows| && count <= 1
    {
      for i := 0 to |rows|
        invariant Valid() && rows == old(rows)
        invariant forall j :: 0 <= j < i ==> rows[j].pk != pk
      {
        if rows[i].pk == pk {
          WithoutAt(rows, i, pk, c);
          if c.None? || MatchesRecord(RecordOf(rows[i]), c.value) {
            KeysOfRest(rows, i);
            rows := rows[..i] + rows[i + 1..];
            pks := pks - {pk};
            return 1;
          }
          return 0;
        }
      }
      WithoutNone(rows, pk, c);
      count := 0;
    }
  }

  lemma KeysStay(rows: seq<Row>, updated: seq<Row>)
    requires DistinctKeys(rows) && |updated| == |rows|
    requires forall i :: 0 <= i < |rows| ==> updated[i].pk == rows[i].pk
    ensures DistinctKeys(updated) && forall k :: HasKey(updated, k) <==> HasKey(rows, k)
  {
    forall k ensures HasKey(updated, k) <==> HasKey(rows, k) {
      if HasKey(rows, k) {
        var i :| 0 <= i < |rows| && rows[i].pk == k;
        assert updated[i].pk == k;
      }
    }
  }

  lemma KeysOfAppended(rows: seq<Row>, row: Row)
    ensures forall k :: HasKey(rows + [row], k) <==> HasKey(rows, k) || k == row.pk
  {
    var appended := rows + [row];
    assert appended[|rows|].pk == row.pk;
    forall k | HasKey(rows, k) ensures HasKey(appended, k) {
      var i :| 0 <= i < |rows| && rows[i].pk == k;
      assert appended[i].pk == k;
    }
  }

  lemma KeysOfRest(rows: seq<Row>, i: nat)
    requires DistinctKeys(rows) && i < |rows|
    ensures var rest := rows[..i] + rows[i + 1..];
      DistinctKeys(rest) && forall k :: HasKey(rest, k) <==> HasKey(rows, k) && k != rows[i].pk
  {
    var rest := rows[..i] + rows[i + 1..];
    forall k | HasKey(rows, k) && k != rows[i].pk ensures HasKey(rest, k) {
      var j :| 0 <= j < |rows| && rows[j].pk == k;
      assert rest[if j < i then j else j - 1].pk == k;
    }
  }

  lemma {:induction false} WithoutAt(rows: seq<Row>, i: nat, pk: string, c: Option<Conditional>)
    requires i < |rows| && rows[i].pk == pk && forall j :: 0 <= j < i ==> rows[j].pk != pk
    ensures Without(rows, pk, c) == if Removes(rows[i], c) then rows[..i] + rows[i + 1..] else rows
    decreases i
  {
    if i > 0 {
      WithoutAt(rows[1..], i - 1, pk, c);
      assert rows == [rows[0]] + rows[1..];
      assert rows[..i] + rows[i + 1..] == [rows[0]] + (rows[1..][..i - 1] + rows[1..][i..]);
    }
  }

  lemma {:induction false} WithoutNone(rows: seq<Row>, pk: string, c: Option<Conditional>)
    requires forall j :: 0 <= j < |rows| ==> rows[j].pk != pk
    ensures Without(rows, pk, c) == rows
  {
    if rows != [] {
      WithoutNone(rows[1..], pk, c);
    }
  }

  // ----- find --------------------------------------------------------------------------------

  /** Matching rows come in the order of the table. */
  lemma {:induction false} MatchingInOrder(xs: seq<Row>, ys: seq<Row>, pk: string, c: Option<Conditional>)
    ensures Matching(xs + ys, pk, c) == Matching(xs, pk, c) + Matching(ys, pk, c)
    ensures forall row :: row in Matching(xs, pk, c) <==> row in xs && Hits(row, pk, c)
  {
    hide Hits;
    if xs == [] {
      assert xs + ys == ys;
    } else {
      assert (xs + ys)[1..] == xs[1..] + ys;
      assert xs == [xs[0]] + xs[1..];
      MatchingInOrder(xs[1..], ys, pk, c);
    }
  }

  /** A find looks at every row, whatever its key; with a key only its own row can match. */
  lemma FoundRows(rows: seq<Row>, pk: string, c: Option<Conditional>, row: Row)
    ensures row in Matching(rows, "", c) <==>
      row in rows && (c.Some? ==> MatchesRecord(RecordOf(row), c.value))
    ensures pk != "" ==>
      (row in Matching(rows, pk, c) <==>
         row in rows && row.pk == pk && (c.Some? ==> MatchesRecord(RecordOf(row), c.value)))
  {
    MatchingInOrder(rows, [], "", c);
    MatchingInOrder(rows, [], pk, c);
  }

  /** A find gives the matching rows from `start` on: as many as asked for, or all that there are. */
  lemma WindowAt(rows: seq<Row>, start: nat, count: nat)
    ensures var found := Window(rows, start, count);
      && (forall i :: 0 <= i < |found| ==> start + i < |rows| && found[i] == rows[start + i])
      && (|found| == count || (|found| < count && start + |found| >= |rows|))
  {
    assert forall i :: 0 <= i < |Window(rows, start, count)| ==> Window(rows, start, count)[i] == rows[start + i];
  }

  /** Finds that follow each other tile the matching rows: none is skipped and none comes twice. */
  lemma WindowsTile(rows: seq<Row>, start: nat, first: nat, second: nat)
    ensures Window(rows, start, first) + Window(rows, start + first, second) == Window(rows, start, first + second)
  {
  }

  /** `pageResults`: it asks for one row more than the limit, and keeps it on the page. */
  datatype Page = Page(next: Option<nat>, rows: seq<Row>)

  function PageAt(rows: seq<Row>, start: nat, limit: nat): Page {
    var found := Window(rows, start, limit + 1);
    Page(if |found| > limit then Some(start + limit) else None, found)
  }

  /** So a page that has a successor is one row too long, and its last row is the successor's first. */
  lemma PagesOverlapByOne(rows: seq<Row>, start: nat, limit: nat)
    requires PageAt(rows, start, limit).next.Some?
    ensures var page := PageAt(rows, start, limit);
      var successor := PageAt(rows, page.next.value, limit);
      |page.rows| == limit + 1 && successor.rows != [] && successor.rows[0] == page.rows[limit]
  {
  }
}
