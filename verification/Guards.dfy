/** The conditions that datastore/db-impl.ts puts on its updates, against the guards of the protocol. */
module Guards {
  import opened Wrappers
  import opened Model
  import opened DbImpl
  import opened Conditionals

  // ----- stored columns -------------------------------------------------------------------

  function UpdateName(op: UpdateState): string {
    match op
    case AddTask => "add-task"
    case StartTask => "start-task"
    case EndTask => "end-task"
    case Pasture => "pasture"
    case Repair => "repair"
  }

  function UpdateValue(op: Option<UpdateState>): Value {
    if op.Some? then Text(UpdateName(op.value)) else Null
  }

  /** A schedule's row as the conditions see it. Each stored date is an object of its own. */
  function JobRecord(row: JobRow, id: nat): Record {
    key =>
      if key == "updateState" then UpdateValue(row.updateState)
      else if key == "leaseOwner" then (if row.leaseOwner.Some? then Num(row.leaseOwner.value) else Null)
      else if key == "leaseExpires" then (if row.leaseExpires.Some? then Date(id, row.leaseExpires.value) else Null)
      else if key == "pasture" then Flag(row.pasture)
      else Null
  }

  function StateName(state: TaskState): string {
    match state
    case Pending => "pending"
    case Queued => "queued"
    case Started => "started"
    case StartError => "start-error"
    case CompleteQueued => "complete-queued"
    case CompleteError => "complete-error"
    case Failed => "failed"
    case FailRestarted => "fail-restarted"
    case Completed => "completed"
  }

  function TaskRecord(row: TaskRow): Record {
    key => if key == "state" then Text(StateName(row.state)) else if key == "schedule" then Num(row.schedule) else Null
  }

  // ----- conditions -----------------------------------------------------------------------

  function LeaseCondition(): Conditional {
    IsNull("updateState")
  }

  /** Of release, and of mark-for-repair. */
  function OwnerCondition(lease: LeaseId): Conditional {
    And([NotNull("updateState"), Equals("leaseOwner", Num(lease))])
  }

  function ExpiredCondition(now: int): Conditional {
    And([NotNull("updateState"), BeforeDate("leaseExpires", now)])
  }

  function StateCondition(expected: TaskState): Conditional {
    Equals("state", Text(StateName(expected)))
  }

  function TasksCondition(job: Key, state: TaskState): Conditional {
    And([Equals("schedule", Num(job)), OneOf("state", [Text(StateName(state))])])
  }

  function FinishedCondition(): Conditional {
    OneOf("state", [Text("complete-error"), Text("failed"), Text("fail-restarted"), Text("start-error"),
                    Text("completed")])
  }

  lemma MatchesPair(record: Record, c: Conditional, d: Conditional)
    ensures MatchesRecord(record, And([c, d])) <==> MatchesRecord(record, c) && MatchesRecord(record, d)
  {
    var both := [c, d];
    assert both[0] == c && both[1] == d;
  }

  /** Both stores lease, release and mark exactly the rows that the protocol's guards allow. */
  lemma LeaseGuards(row: JobRow, id: nat, lease: LeaseId)
    ensures var record := JobRecord(row, id);
      && (MatchesRecord(record, LeaseCondition()) <==> CanLease(row))
      && (Selects(ConditionalLink(LeaseCondition()), record) <==> CanLease(row))
      && (MatchesRecord(record, OwnerCondition(lease)) <==> OwnedBy(row, lease))
      && (Selects(ConditionalLink(OwnerCondition(lease)), record) <==> OwnedBy(row, lease))
  {
    var record := JobRecord(row, id);
    MatchesPair(record, NotNull("updateState"), Equals("leaseOwner", Num(lease)));
    PlainWhereSelectsMatches(record, LeaseCondition());
    PlainWhereSelectsMatches(record, OwnerCondition(lease));
  }

  /** The SQL store repairs exactly the rows whose lease has expired. */
  lemma SqlRepairsExpired(row: JobRow, id: nat, now: int)
    ensures Selects(ConditionalLink(ExpiredCondition(now)), JobRecord(row, id)) <==> Expired(row, now)
  {
    var record := JobRecord(row, id);
    var links := [ConditionalLink(NotNull("updateState")), ConditionalLink(BeforeDate("leaseExpires", now))];
    assert ConditionalLink(ExpiredCondition(now)) == AllOf(links);
    var truths := [Evaluate(links[0], record), Evaluate(links[1], record)];
    assert truths == seq(2, i requires 0 <= i < 2 => Evaluate(links[i], record));
    BothTrue(truths);
    OneTest("updateState", Ne(Null), record);
    TwoTests("leaseExpires", Ne(Null), Lt(now), record);
    assert truths[0] == Evaluate(links[0], record) && truths[1] == Evaluate(links[1], record);
  }

  /** The in-memory store repairs exactly the rows whose lease expires later: those it must leave alone. */
  lemma MemoryRepairsUnexpired(row: JobRow, id: nat, now: int)
    ensures MatchesRecord(JobRecord(row, id), ExpiredCondition(now)) <==>
      row.updateState.Some? && row.leaseExpires.Some? && now < row.leaseExpires.value
    ensures MatchesRecord(JobRecord(row, id), ExpiredCondition(now)) ==> !Expired(row, now)
  {
    MatchesPair(JobRecord(row, id), NotNull("updateState"), BeforeDate("leaseExpires", now));
  }

  /** The names of the states differ. */
  lemma StateNamesDiffer(s: TaskState, t: TaskState)
    ensures StateName(s) == StateName(t) ==> s == t
  {
    var a, b := StateName(s), StateName(t);
    assert a == b ==> |a| == |b| && a[0] == b[0] && a[4] == b[4];
  }

  /** Both stores mark, find and delete exactly the tasks that the protocol's guards allow. */
  lemma TaskGuards(row: TaskRow, expected: TaskState, job: Key)
    ensures var record := TaskRecord(row);
      && (MatchesRecord(record, StateCondition(expected)) <==> row.state == expected)
      && (Selects(ConditionalLink(StateCondition(expected)), record) <==> row.state == expected)
      && (MatchesRecord(record, TasksCondition(job, expected)) <==> row.schedule == job && row.state == expected)
      && (Selects(ConditionalLink(TasksCondition(job, expected)), record) <==>
            row.schedule == job && row.state == expected)
  {
    var record := TaskRecord(row);
    StateNamesDiffer(row.state, expected);
    MatchesPair(record, Equals("schedule", Num(job)), OneOf("state", [Text(StateName(expected))]));
    PlainWhereSelectsMatches(record, StateCondition(expected));
    PlainWhereSelectsMatches(record, TasksCondition(job, expected));
  }

  lemma FinishedGuard(row: TaskRow)
    ensures MatchesRecord(TaskRecord(row), FinishedCondition()) <==> IsFinished(row.state)
    ensures Selects(ConditionalLink(FinishedCondition()), TaskRecord(row)) <==> IsFinished(row.state)
  {
    var state := row.state;
    StateNamesDiffer(state, CompleteError);
    StateNamesDiffer(state, TaskState.Failed);
    StateNamesDiffer(state, FailRestarted);
    StateNamesDiffer(state, StartError);
    StateNamesDiffer(state, Completed);
    PlainWhereSelectsMatches(TaskRecord(row), FinishedCondition());
  }
}
