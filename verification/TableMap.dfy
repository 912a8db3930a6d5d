/** The in-memory table refines a finite map with compare-and-set. */
module TableMap {
  import opened Wrappers
  import opened Conditionals
  import opened MemTables

  type Columns = map<Column, Value>

  function Contents(rows: seq<Row>): map<string, Columns> {
    if rows == [] then map[] else Contents(rows[1..])[rows[0].pk := rows[0].columns]
  }

  lemma {:induction false} ContentsAt(rows: seq<Row>)
    requires DistinctKeys(rows)
    ensures forall i :: 0 <= i < |rows| ==>
      rows[i].pk in Contents(rows) && Contents(rows)[rows[i].pk] == rows[i].columns
    ensures forall k :: k in Contents(rows) ==> HasKey(rows, k)
  {
    if rows != [] {
      var rest := rows[1..];
      ContentsAt(rest);
      forall k | k in Contents(rows) ensures HasKey(rows, k) {
        if k == rows[0].pk {
          assert rows[0].pk == k;
        } else {
          var i :| 0 <= i < |rest| && rest[i].pk == k;
          assert rows[i + 1].pk == k;
        }
      }
    }
  }

  /** Contents are determined by the rows, in whatever order. */
  lemma ContentsAre(rows: seq<Row>, m: map<string, Columns>)
    requires DistinctKeys(rows)
    requires forall i :: 0 <= i < |rows| ==> rows[i].pk in m && m[rows[i].pk] == rows[i].columns
    requires forall k :: k in m ==> HasKey(rows, k)
    ensures Contents(rows) == m
  {
    ContentsAt(rows);
    forall k | k in m ensures k in Contents(rows) && Contents(rows)[k] == m[k] {
      var i :| 0 <= i < |rows| && rows[i].pk == k;
    }
    forall k | k in Contents(rows) ensures k in m {
      var i :| 0 <= i < |rows| && rows[i].pk == k;
    }
  }

  // ----- the map ---------------------------------------------------------------------------

  /** The keys that a conditional update touches. */
  function Touched(m: map<string, Columns>, pk: string, c: Option<Conditional>): set<string> {
    set k | k in m && Hits(Row(k, m[k]), pk, c)
  }

  function MapUpdated(m: map<string, Columns>, pk: string, newValues: Columns, c: Option<Conditional>)
    : map<string, Columns>
  {
    map k | k in m :: if Hits(Row(k, m[k]), pk, c) then m[k] + (newValues - {"pk"}) else m[k]
  }

  /** A keyed update is a compare-and-set: it touches the row with its key, if that matches, and nothing else. */
  lemma KeyedUpdate(m: map<string, Columns>, pk: string, newValues: Columns, c: Option<Conditional>)
    requires pk != ""
    ensures var hit := pk in m && (c.Some? ==> MatchesRecord(RecordOf(Row(pk, m[pk])), c.value));
      && |Touched(m, pk, c)| == (if hit then 1 else 0)
      && MapUpdated(m, pk, newValues, c) == if hit then m[pk := m[pk] + (newValues - {"pk"})] else m
  {
    if pk in m && (c.Some? ==> MatchesRecord(RecordOf(Row(pk, m[pk])), c.value)) {
      assert Touched(m, pk, c) == {pk};
    } else {
      assert Touched(m, pk, c) == {};
    }
  }

  // ----- refinement, one operation -----------------------------------------------------------

  lemma UpdateRefines(rows: seq<Row>, pk: string, newValues: Columns, c: Option<Conditional>)
    requires DistinctKeys(rows)
    ensures DistinctKeys(Updated(rows, pk, newValues, c))
    ensures Contents(Updated(rows, pk, newValues, c)) == MapUpdated(Contents(rows), pk, newValues, c)
  {
    var updated := Updated(rows, pk, newValues, c);
    KeysStay(rows, updated);
    ContentsAt(rows);
    forall i | 0 <= i < |updated|
      ensures var m := MapUpdated(Contents(rows), pk, newValues, c);
        updated[i].pk in m && m[updated[i].pk] == updated[i].columns
    {
      assert rows[i] == Row(rows[i].pk, Contents(rows)[rows[i].pk]);
    }
    ContentsAre(updated, MapUpdated(Contents(rows), pk, newValues, c));
  }

  lemma {:induction false} CountRefines(rows: seq<Row>, pk: string, c: Option<Conditional>)
    requires DistinctKeys(rows)
    ensures |Matching(rows, pk, c)| == |Touched(Contents(rows), pk, c)|
  {
    if rows == [] {
      assert Touched(Contents(rows), pk, c) == {};
    } else {
      CountRefines(rows[1..], pk, c);
      TouchedFirst(rows, pk, c);
    }
  }

  lemma TouchedFirst(rows: seq<Row>, pk: string, c: Option<Conditional>)
    requires DistinctKeys(rows) && rows != []
    ensures var before := Touched(Contents(rows[1..]), pk, c);
      && rows[0].pk !in before
      && Touched(Contents(rows), pk, c) == if Hits(rows[0], pk, c) then before + {rows[0].pk} else before
  {
    hide Hits, Contents;
    ContentsFirst(rows);
    assert rows[0] == Row(rows[0].pk, rows[0].columns);
  }

  lemma ContentsFirst(rows: seq<Row>)
    requires DistinctKeys(rows) && rows != []
    ensures rows[0].pk !in Contents(rows[1..])
    ensures Contents(rows) == Contents(rows[1..])[rows[0].pk := rows[0].columns]
  {
    ContentsAt(rows[1..]);
  }

  lemma CreateRefines(rows: seq<Row>, row: Row)
    requires DistinctKeys(rows) && row.pk != "" && !HasKey(rows, row.pk)
    ensures DistinctKeys(rows + [row]) && Contents(rows + [row]) == Contents(rows)[row.pk := row.columns]
  {
    ContentsAt(rows);
    KeysOfAppended(rows, row);
    ContentsAre(rows + [row], Contents(rows)[row.pk := row.columns]);
  }

  lemma RestRefines(rows: seq<Row>, i: nat)
    requires DistinctKeys(rows) && i < |rows|
    ensures DistinctKeys(rows[..i] + rows[i + 1..])
    ensures Contents(rows[..i] + rows[i + 1..]) == Contents(rows) - {rows[i].pk}
  {
    hide Contents;
    KeysOfRest(rows, i);
    ContentsAt(rows);
    ContentsAre(rows[..i] + rows[i + 1..], Contents(rows) - {rows[i].pk});
  }

  lemma RemoveRefines(rows: seq<Row>, pk: string, c: Option<Conditional>)
    requires DistinctKeys(rows)
    ensures DistinctKeys(Without(rows, pk, c)) && |Without(rows, pk, c)| <= |rows|
    ensures var m := Contents(rows); var hit := pk in m && Removes(Row(pk, m[pk]), c);
      && Contents(Without(rows, pk, c)) == (if hit then m - {pk} else m)
      && |rows| - |Without(rows, pk, c)| == if hit then 1 else 0
  {
    hide Removes, Without, Contents;
    ContentsAt(rows);
    if HasKey(rows, pk) {
      var i :| 0 <= i < |rows| && rows[i].pk == pk;
      assert rows[i] == Row(pk, Contents(rows)[pk]);
      WithoutAt(rows, i, pk, c);
      if Removes(rows[i], c) {
        RestRefines(rows, i);
      }
    } else {
      WithoutNone(rows, pk, c);
    }
  }

  // ----- refinement, any sequence of operations -------------------------------------------------

  datatype Operation =
    | Create(row: Row)
    | Update(pk: string, newValues: Columns, c: Option<Conditional>)
    | Remove(key: string, guard: Option<Conditional>)

  /** An operation of the table, with the count that it reports. */
  function RowsAfter(rows: seq<Row>, op: Operation): (seq<Row>, int) {
    match op
    case Create(row) => if row.pk != "" && !HasKey(rows, row.pk) then (rows + [row], 1) else (rows, 0)
    case Update(pk, newValues, c) => (Updated(rows, pk, newValues, c), |Matching(rows, pk, c)|)
    case Remove(pk, c) => (Without(rows, pk, c), |rows| - |Without(rows, pk, c)|)
  }

  function MapAfter(m: map<string, Columns>, op: Operation): (map<string, Columns>, int) {
    match op
    case Create(row) => if row.pk != "" && row.pk !in m then (m[row.pk := row.columns], 1) else (m, 0)
    case Update(pk, newValues, c) => (MapUpdated(m, pk, newValues, c), |Touched(m, pk, c)|)
    case Remove(pk, c) => if pk in m && Removes(Row(pk, m[pk]), c) then (m - {pk}, 1) else (m, 0)
  }

  lemma StepRefines(rows: seq<Row>, op: Operation)
    requires DistinctKeys(rows)
    ensures var (rows', count) := RowsAfter(rows, op);
      DistinctKeys(rows') && (Contents(rows'), count) == MapAfter(Contents(rows), op)
  {
    ContentsAt(rows);
    match op
    case Create(row) =>
      if row.pk != "" && !HasKey(rows, row.pk) {
        CreateRefines(rows, row);
      }
    case Update(pk, newValues, c) =>
      UpdateRefines(rows, pk, newValues, c);
      CountRefines(rows, pk, c);
    case Remove(pk, c) => RemoveRefines(rows, pk, c);
  }

  function RunRows(rows: seq<Row>, ops: seq<Operation>): (seq<Row>, seq<int>)
    decreases |ops|
  {
    if ops == [] then (rows, [])
    else
      var (rows', count) := RowsAfter(rows, ops[0]);
      var (last, counts) := RunRows(rows', ops[1..]);
      (last, [count] + counts)
  }

  function RunMap(m: map<string, Columns>, ops: seq<Operation>): (map<string, Columns>, seq<int>)
    decreases |ops|
  {
    if ops == [] then (m, [])
    else
      var (m', count) := MapAfter(m, ops[0]);
      var (last, counts) := RunMap(m', ops[1..]);
      (last, [count] + counts)
  }

  /** Over any sequence of operations the table holds what the map holds, and reports what it reports. */
  lemma {:induction false} TableRefinesMap(rows: seq<Row>, ops: seq<Operation>)
    requires DistinctKeys(rows)
    ensures var (last, counts) := RunRows(rows, ops);
      DistinctKeys(last) && (Contents(last), counts) == RunMap(Contents(rows), ops)
    decreases |ops|
  {
    if ops != [] {
      hide RowsAfter, MapAfter, DistinctKeys;
      StepRefines(rows, ops[0]);
      TableRefinesMap(RowsAfter(rows, ops[0]).0, ops[1..]);
    }
  }

  // ----- insertion order --------------------------------------------------------------------------

  /** `k` was inserted before `l`, and both are still there. */
  ghost predicate Before(rows: seq<Row>, k: string, l: string) {
    exists i, j :: 0 <= i < j < |rows| && rows[i].pk == k && rows[j].pk == l
  }

  /** One operation: updates and removals keep the order of the rows, and a new row comes last. */
  lemma OrderStep(rows: seq<Row>, op: Operation, k: string, l: string)
    requires DistinctKeys(rows) && Before(RowsAfter(rows, op).0, k, l)
    ensures HasKey(rows, k)
    ensures Before(rows, k, l) || (op.Create? && op.row.pk == l && op.row.pk != "" && !HasKey(rows, l))
  {
    hide Updated, Without, Removes, Hits, Matching;
    var rows' := RowsAfter(rows, op).0;
    var i, j :| 0 <= i < j < |rows'| && rows'[i].pk == k && rows'[j].pk == l;
    if op.Remove? {
      RemovalKeepsOrder(rows, op.key, op.guard, i, j);
    } else {
      assert rows[i].pk == k;
      assert j < |rows| ==> rows[j].pk == l;
    }
  }

  /** When each key was last created: the position of the operation, for those that a run creates. */
  function Births(m: map<string, Columns>, births: map<string, int>, ops: seq<Operation>, i: nat): map<string, int>
    requires i <= |ops|
    decreases |ops| - i
  {
    if i == |ops| then births
    else
      var (m', count) := MapAfter(m, ops[i]);
      Births(m', if ops[i].Create? && count == 1 then births[ops[i].row.pk := i] else births, ops, i + 1)
  }

  /** Every row was created by an operation before the i-th, and the rows come in the order of their creation. */
  ghost predicate InOrder(rows: seq<Row>, births: map<string, int>, ops: seq<Operation>, i: nat) {
    && (forall k :: HasKey(rows, k) ==>
          k in births && 0 <= births[k] < i <= |ops| && ops[births[k]].Create? && ops[births[k]].row.pk == k)
    && (forall k, l :: Before(rows, k, l) ==> births[k] < births[l])
  }

  lemma {:induction false} OrderFrom(rows: seq<Row>, births: map<string, int>, ops: seq<Operation>, i: nat)
    requires DistinctKeys(rows) && i <= |ops| && InOrder(rows, births, ops, i)
    ensures InOrder(RunRows(rows, ops[i..]).0, Births(Contents(rows), births, ops, i), ops, |ops|)
    decreases |ops| - i
  {
    hide RowsAfter, MapAfter, DistinctKeys, InOrder;
    if i < |ops| {
      var rows', count := RowsAfter(rows, ops[i]).0, MapAfter(Contents(rows), ops[i]).1;
      StepRefines(rows, ops[i]);
      BirthStep(rows, births, ops, i);
      OrderFrom(rows', if ops[i].Create? && count == 1 then births[ops[i].row.pk := i] else births, ops, i + 1);
      assert ops[i..][1..] == ops[i + 1..];
    }
  }

  lemma BirthStep(rows: seq<Row>, births: map<string, int>, ops: seq<Operation>, i: nat)
    requires DistinctKeys(rows) && i < |ops| && InOrder(rows, births, ops, i)
    ensures var count := MapAfter(Contents(rows), ops[i]).1;
      var births' := if ops[i].Create? && count == 1 then births[ops[i].row.pk := i] else births;
      InOrder(RowsAfter(rows, ops[i]).0, births', ops, i + 1)
  {
    hide Updated, Without, Removes, Hits, Matching;
    var rows', count := RowsAfter(rows, ops[i]).0, MapAfter(Contents(rows), ops[i]).1;
    ContentsAt(rows);
    forall k | HasKey(rows', k) ensures HasKey(rows, k) || (ops[i].Create? && count == 1 && ops[i].row.pk == k) {
      KeyStep(rows, ops[i], k);
    }
    forall k, l | Before(rows', k, l)
      ensures HasKey(rows, k) && (Before(rows, k, l) || (ops[i].Create? && ops[i].row.pk == l && !HasKey(rows, l)))
    {
      OrderStep(rows, ops[i], k, l);
    }
  }

  /**
   After any operations on an empty table, every row was created by one of them, and the rows come in
   the order in which they were last created.
   */
  lemma InsertionOrder(ops: seq<Operation>)
    ensures InOrder(RunRows([], ops).0, Births(map[], map[], ops, 0), ops, |ops|)
  {
    assert ops[0..] == ops;
    OrderFrom([], map[], ops, 0);
  }

  lemma KeyStep(rows: seq<Row>, op: Operation, k: string)
    requires DistinctKeys(rows) && HasKey(RowsAfter(rows, op).0, k)
    ensures HasKey(rows, k) || (op.Create? && op.row.pk == k && op.row.pk != "" && !HasKey(rows, op.row.pk))
  {
    hide Updated, Without, Removes, Hits, Matching;
    var rows' := RowsAfter(rows, op).0;
    if op.Remove? {
      hide DistinctKeys;
      RemainingIn(rows, op.key, op.guard);
    } else {
      var i :| 0 <= i < |rows'| && rows'[i].pk == k;
      assert i < |rows| ==> rows[i].pk == k;
    }
  }

  /** Where the rows that a removal leaves were before it. */
  lemma RemainingIn(rows: seq<Row>, pk: string, c: Option<Conditional>)
    requires DistinctKeys(rows)
    ensures var rest := Without(rows, pk, c);
      rest == rows || exists n :: 0 <= n < |rows| && rest == rows[..n] + rows[n + 1..]
    ensures forall k :: HasKey(Without(rows, pk, c), k) ==> HasKey(rows, k)
  {
    hide Without, Removes, DistinctKeys;
    if HasKey(rows, pk) {
      var n :| 0 <= n < |rows| && rows[n].pk == pk;
      FirstOfKey(rows, n);
      WithoutAt(rows, n, pk, c);
      KeysOfRest(rows, n);
    } else {
      WithoutNone(rows, pk, c);
    }
  }

  lemma RemovalKeepsOrder(rows: seq<Row>, pk: string, c: Option<Conditional>, i: nat, j: nat)
    requires DistinctKeys(rows) && i < j < |Without(rows, pk, c)|
    ensures var rest := Without(rows, pk, c); Before(rows, rest[i].pk, rest[j].pk)
  {
    hide Without, DistinctKeys;
    var rest := Without(rows, pk, c);
    RemainingIn(rows, pk, c);
    if rest == rows {
      assert rows[i].pk == rest[i].pk && rows[j].pk == rest[j].pk;
    } else {
      var n :| 0 <= n < |rows| && rest == rows[..n] + rows[n + 1..];
      var i', j' := if i < n then i else i + 1, if j < n then j else j + 1;
      assert rows[i'].pk == rest[i].pk && rows[j'].pk == rest[j].pk;
    }
  }

  lemma FirstOfKey(rows: seq<Row>, n: nat)
    requires DistinctKeys(rows) && n < |rows|
    ensures forall j :: 0 <= j < n ==> rows[j].pk != rows[n].pk
  {
  }
}
