/**
 The conditions of conditional updates, read twice: by the in-memory tables of datastore/memory.ts,
 and as the where-clauses that the datastore-sql package builds from them.
 */
module Conditionals {
  import opened Wrappers

  type Column = string

  /** A stored value. Two dates are the same value of the program only if they are the same object. */
  datatype Value = Null | Text(s: string) | Num(n: int) | Flag(b: bool) | Date(id: nat, at: int)

  type Record = Column -> Value

  /** datastore/db-api.ts. */
  datatype Conditional =
    | And(all: seq<Conditional>)
    | Or(any: seq<Conditional>)
    | Equals(key: Column, value: Value)
    | BeforeDate(key: Column, before: int)
    | OneOf(key: Column, values: seq<Value>)
    | NotNull(key: Column)
    | IsNull(key: Column)

  /** `conditionalMatchesRecord`. */
  predicate MatchesRecord(record: Record, c: Conditional) {
    match c
    case And(all) => forall i :: 0 <= i < |all| ==> MatchesRecord(record, all[i])
    case Or(any) => exists i :: 0 <= i < |any| && MatchesRecord(record, any[i])
    case Equals(key, value) => record(key) == value
    case BeforeDate(key, before) => record(key).Date? && before < record(key).at
    case OneOf(key, values) => record(key) in values
    case NotNull(key) => record(key) != Null
    case IsNull(key) => record(key) == Null
  }

  // ----- where-clauses --------------------------------------------------------------------

  datatype Test = Eq(value: Value) | Ne(value: Value) | Lt(at: int) | In(values: seq<Value>)

  datatype Where = AllOf(all: seq<Where>) | AnyOf(any: seq<Where>) | On(key: Column, tests: seq<Test>)

  /** `conditionalLink`. */
  function ConditionalLink(c: Conditional): Where {
    match c
    case And(all) => AllOf(seq(|all|, i requires 0 <= i < |all| => ConditionalLink(all[i])))
    case Or(any) => AnyOf(seq(|any|, i requires 0 <= i < |any| => ConditionalLink(any[i])))
    case Equals(key, value) => On(key, [Eq(value)])
    case BeforeDate(key, before) => On(key, [Ne(Null), Lt(before)])
    case OneOf(key, values) => On(key, [In(values)])
    case NotNull(key) => On(key, [Ne(Null)])
    case IsNull(key) => On(key, [Eq(Null)])
  }

  /** `toWhereClause`. */
  function ToWhereClause(pk: Value, c: Option<Conditional>): Where {
    match c
    case None => On("pk", [Eq(pk)])
    case Some(cond) => AllOf([On("pk", [Eq(pk)]), ConditionalLink(cond)])
  }

  // ----- three-valued logic -----------------------------------------------------------------

  datatype Truth = True | False | Unknown

  function Both(truths: seq<Truth>): Truth {
    if False in truths then False else if Unknown in truths then Unknown else True
  }

  function Either(truths: seq<Truth>): Truth {
    if True in truths then True else if Unknown in truths then Unknown else False
  }

  function Of(b: bool): Truth {
    if b then True else False
  }

  /** SQL compares dates by their time. */
  predicate SameStored(v: Value, w: Value) {
    if v.Date? && w.Date? then v.at == w.at else v == w
  }

  /** `=` is unknown for null, but `= null` and `<> null` are written as tests for null. */
  function TestValue(v: Value, test: Test): Truth {
    match test
    case Eq(Null) => Of(v == Null)
    case Ne(Null) => Of(v != Null)
    case Eq(w) => if v == Null then Unknown else Of(SameStored(v, w))
    case Ne(w) => if v == Null then Unknown else Of(!SameStored(v, w))
    case Lt(at) => if v == Null then Unknown else Of(v.Date? && v.at < at)
    case In(values) =>
      Either(seq(|values|, i requires 0 <= i < |values| =>
        if v == Null || values[i] == Null then Unknown else Of(SameStored(v, values[i]))))
  }

  function Evaluate(w: Where, record: Record): Truth {
    match w
    case AllOf(all) => Both(seq(|all|, i requires 0 <= i < |all| => Evaluate(all[i], record)))
    case AnyOf(any) => Either(seq(|any|, i requires 0 <= i < |any| => Evaluate(any[i], record)))
    case On(key, tests) => Both(seq(|tests|, i requires 0 <= i < |tests| => TestValue(record(key), tests[i])))
  }

  /** A where-clause selects the rows for which it is true, and neither false nor unknown. */
  predicate Selects(w: Where, record: Record) {
    Evaluate(w, record) == True
  }

  // ----- agreement ----------------------------------------------------------------------------

  /** Whether the two readings of a leaf agree, said of the record's value alone. */
  predicate LeafAgrees(record: Record, c: Conditional) {
    match c
    case And(_) => true
    case Or(_) => true
    case Equals(key, value) =>
      !(record(key).Date? && value.Date? && record(key).at == value.at && record(key).id != value.id)
    case BeforeDate(key, before) => record(key).Date? ==> record(key).at == before
    case OneOf(key, values) =>
      if record(key) == Null then Null !in values
      else (exists w :: w in values && SameStored(record(key), w)) ==> record(key) in values
    case NotNull(_) => true
    case IsNull(_) => true
  }

  predicate IsLeaf(c: Conditional) {
    !c.And? && !c.Or?
  }

  /** The two readings of a leaf agree on exactly these records. */
  lemma LeavesAgreeIff(record: Record, c: Conditional)
    requires IsLeaf(c)
    ensures LeafAgrees(record, c) <==> (MatchesRecord(record, c) <==> Selects(ConditionalLink(c), record))
  {
    match c
    case Equals(key, value) => OneTest(key, Eq(value), record);
    case BeforeDate(key, before) => TwoTests(key, Ne(Null), Lt(before), record);
    case OneOf(key, values) =>
      OneTest(key, In(values), record);
      SelectsIn(record(key), values);
    case NotNull(key) => OneTest(key, Ne(Null), record);
    case IsNull(key) => OneTest(key, Eq(Null), record);
  }

  lemma OneTest(key: Column, test: Test, record: Record)
    ensures Selects(On(key, [test]), record) <==> TestValue(record(key), test) == True
  {
    hide TestValue;
    var truths := seq(1, i requires 0 <= i < 1 => TestValue(record(key), [test][i]));
    BothTrue(truths);
    assert truths[0] == TestValue(record(key), test);
  }

  lemma TwoTests(key: Column, first: Test, second: Test, record: Record)
    ensures Selects(On(key, [first, second]), record) <==>
      TestValue(record(key), first) == True && TestValue(record(key), second) == True
  {
    hide TestValue;
    var truths := seq(2, i requires 0 <= i < 2 => TestValue(record(key), [first, second][i]));
    BothTrue(truths);
    assert truths[0] == TestValue(record(key), first) && truths[1] == TestValue(record(key), second);
  }

  lemma SelectsIn(v: Value, values: seq<Value>)
    ensures TestValue(v, In(values)) == True <==>
      v != Null && exists w :: w in values && w != Null && SameStored(v, w)
  {
    var truths := seq(|values|, i requires 0 <= i < |values| =>
      if v == Null || values[i] == Null then Unknown else Of(SameStored(v, values[i])));
    if True in truths {
      var i :| 0 <= i < |truths| && truths[i] == True;
      assert values[i] in values;
    }
    if w :| v != Null && w in values && w != Null && SameStored(v, w) {
      var i :| 0 <= i < |values| && values[i] == w;
      assert truths[i] == True;
    }
  }

  /** Every leaf of the tree agrees on the record. */
  predicate AgreesOn(record: Record, c: Conditional) {
    match c
    case And(all) => forall i :: 0 <= i < |all| ==> AgreesOn(record, all[i])
    case Or(any) => forall i :: 0 <= i < |any| ==> AgreesOn(record, any[i])
    case _ => LeafAgrees(record, c)
  }

  lemma BothTrue(truths: seq<Truth>)
    ensures Both(truths) == True <==> forall i :: 0 <= i < |truths| ==> truths[i] == True
  {
    if Both(truths) == True {
      forall i | 0 <= i < |truths| ensures truths[i] == True {
        assert truths[i] in truths;
      }
    }
  }

  /** If the readings agree on every leaf, the where-clause selects exactly the records that match. */
  lemma {:induction false} WhereSelectsMatches(record: Record, c: Conditional)
    requires AgreesOn(record, c)
    ensures Selects(ConditionalLink(c), record) <==> MatchesRecord(record, c)
  {
    match c
    case And(all) =>
      var truths := seq(|all|, i requires 0 <= i < |all| => Evaluate(ConditionalLink(all[i]), record));
      var links := ConditionalLink(c).all;
      assert truths == seq(|links|, i requires 0 <= i < |links| => Evaluate(links[i], record));
      forall i | 0 <= i < |all| ensures truths[i] == True <==> MatchesRecord(record, all[i]) {
        WhereSelectsMatches(record, all[i]);
      }
      BothTrue(truths);
    case Or(any) =>
      var truths := seq(|any|, i requires 0 <= i < |any| => Evaluate(ConditionalLink(any[i]), record));
      var links := ConditionalLink(c).any;
      assert truths == seq(|links|, i requires 0 <= i < |links| => Evaluate(links[i], record));
      forall i | 0 <= i < |any| ensures truths[i] == True <==> MatchesRecord(record, any[i]) {
        WhereSelectsMatches(record, any[i]);
      }
    case _ => LeavesAgreeIff(record, c);
  }

  /** And, or, equals, one-of, null and not-null, of values that are neither null (in one-of) nor dates. */
  predicate Plain(c: Conditional) {
    match c
    case And(all) => forall i :: 0 <= i < |all| ==> Plain(all[i])
    case Or(any) => forall i :: 0 <= i < |any| ==> Plain(any[i])
    case Equals(_, value) => !value.Date?
    case BeforeDate(_, _) => false
    case OneOf(_, values) => forall i :: 0 <= i < |values| ==> values[i] != Null && !values[i].Date?
    case NotNull(_) => true
    case IsNull(_) => true
  }

  lemma {:induction false} PlainAgrees(record: Record, c: Conditional)
    requires Plain(c)
    ensures AgreesOn(record, c)
  {
    match c
    case And(all) =>
      forall i | 0 <= i < |all| ensures AgreesOn(record, all[i]) {
        PlainAgrees(record, all[i]);
      }
    case Or(any) =>
      forall i | 0 <= i < |any| ensures AgreesOn(record, any[i]) {
        PlainAgrees(record, any[i]);
      }
    case _ =>
  }

  /** For plain conditions the two stores accept the same records, whatever their values. */
  lemma PlainWhereSelectsMatches(record: Record, c: Conditional)
    requires Plain(c)
    ensures Selects(ConditionalLink(c), record) <==> MatchesRecord(record, c)
  {
    PlainAgrees(record, c);
    WhereSelectsMatches(record, c);
  }

  /** The clause of a keyed update selects the one record with the key, if it matches. */
  lemma KeyedWhere(record: Record, pk: Value, c: Option<Conditional>)
    requires pk.Text? && (c.Some? ==> AgreesOn(record, c.value))
    ensures Selects(ToWhereClause(pk, c), record) <==>
      record("pk") == pk && (c.Some? ==> MatchesRecord(record, c.value))
  {
    var key := On("pk", [Eq(pk)]);
    LeavesAgreeIff(record, Equals("pk", pk));
    if c.Some? {
      WhereSelectsMatches(record, c.value);
      var parts := [key, ConditionalLink(c.value)];
      var truths := [Evaluate(key, record), Evaluate(parts[1], record)];
      assert truths == seq(2, i requires 0 <= i < 2 => Evaluate(parts[i], record));
      BothTrue(truths);
      assert truths[0] == Evaluate(key, record) && truths[1] == Evaluate(parts[1], record);
    }
  }

  /** The in-memory test for an earlier date is reversed: but for equal dates, exactly one reading accepts. */
  lemma BeforeDateIsReversed(record: Record, key: Column, before: int)
    requires record(key).Date? && record(key).at != before
    ensures MatchesRecord(record, BeforeDate(key, before)) <==>
      !Selects(ConditionalLink(BeforeDate(key, before)), record)
  {
    LeavesAgreeIff(record, BeforeDate(key, before));
  }
}
