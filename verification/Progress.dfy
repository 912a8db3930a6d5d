/** Operations end, and expired leases can be repaired, whatever other nodes do or fail to do. */
module Progress {
  import opened Wrappers
  import opened Model
  import opened DbImpl
  import opened Protocol
  import opened LeaseSafety
  import opened Steps

  // ----- operations end ------------------------------------------------------------------

  /** The most calls that an operation can still make. */
  function CallsLeft(pc: Pc): nat {
    match pc
    case CreatingJob(_, _, _) => 3
    case AddingFirstTask(_) => 2
    case Leasing(_, retries) => 12 + retries
    case Reading(_) => 11
    case Queueing(_) => 10
    case CheckingStarted(_) => 9
    case CallingJob(_) => 8
    case Starting(_, _, _) => 7
    case FailingNow(_) => 6
    case CheckingPending(_, follow) => if follow then 5 else 3
    case AddingTask(_, follow) => if follow then 4 else 2
    case Skipping(_) => 4
    case CompletingNow(_) => 4
    case FinishCompleting(_) => 4
    case FinishFailing(_) => 4
    case StartFailing(_, _) => 2
    case Releasing(_, _) => 1
    case MarkingRepair => 1
    case RepairReading => 6
    case RepairTaking(_) => 5
    case RepairLooking => 4
    case RepairChecking => 3
    case RepairReleasing(_, _) => 2
    case RepairReleasingAgain(_) => 1
    case Ended(_) => 0
  }

  lemma CallProgresses(s: Sys, lease: LeaseId, op: Operation, a: Answers)
    requires !op.pc.Ended?
    ensures CallsLeft(Call(s, lease, op, a).pc) < CallsLeft(op.pc)
  {
    if op.job in s.jobs && !InSchedule(op.pc) && !InRepair(op.pc) {
      hide CallsLeft, WorkCall;
      WorkProgresses(s, s.jobs[op.job], op, a);
    } else {
      hide WorkCall, HasTaskIn, Leased, Released, MarkedForRepair, TakenForRepair, NewJob;
    }
  }

  lemma WorkProgresses(s: Sys, row: JobRow, op: Operation, a: Answers)
    requires !InSchedule(op.pc) && !InRepair(op.pc)
    ensures CallsLeft(WorkCall(s, row, op, a).pc) < CallsLeft(op.pc)
  {
    hide HasTaskIn, NewTask, Mark.Marked, Mark.Expects;
  }

  lemma FaultProgresses(pc: Pc)
    requires !pc.Ended?
    ensures CallsLeft(Faulted(pc)) < CallsLeft(pc)
  {
  }

  /** The operation's own events: its calls, and those that break. */
  predicate IsStepOf(s: Sys, e: Event, lease: LeaseId) {
    && lease in s.operations
    && ((e.Act? && e.lease == lease && KeyIsFresh(s, s.operations[lease], e.answers)) || e == Fault(lease))
  }

  function OwnSteps(s: Sys, events: seq<Event>, lease: LeaseId): nat
    decreases |events|
  {
    if events == [] then 0
    else (if IsStepOf(s, events[0], lease) then 1 else 0) + OwnSteps(Next(s, events[0]), events[1..], lease)
  }

  lemma StepProgresses(s: Sys, e: Event, lease: LeaseId)
    requires lease in s.operations
    ensures lease in Next(s, e).operations
    ensures var pc, pc' := s.operations[lease].pc, Next(s, e).operations[lease].pc;
      && CallsLeft(pc') <= CallsLeft(pc)
      && (IsStepOf(s, e, lease) && CallsLeft(pc) > 0 ==> CallsLeft(pc') < CallsLeft(pc))
  {
    hide Call, Faulted;
    var op := s.operations[lease];
    if op.pc.Ended? {
      EndedStays(s, e, lease);
    } else if e.Act? && IsStepOf(s, e, lease) {
      CallProgresses(s, lease, op, e.answers);
    } else if e == Fault(lease) {
      FaultProgresses(op.pc);
    }
  }

  lemma EndedStays(s: Sys, e: Event, lease: LeaseId)
    requires lease in s.operations && s.operations[lease].pc.Ended?
    ensures lease in Next(s, e).operations && Next(s, e).operations[lease].pc == s.operations[lease].pc
  {
    hide WorkCall, RepairCall;
  }

  /** Wait-freedom: an operation ends after at most that many steps of its own, whatever others do. */
  lemma {:induction false} OperationsEnd(s: Sys, events: seq<Event>, lease: LeaseId)
    requires lease in s.operations
    ensures lease in Run(s, events).operations
    ensures CallsLeft(Run(s, events).operations[lease].pc) + OwnSteps(s, events, lease)
      <= CallsLeft(s.operations[lease].pc)
      || Run(s, events).operations[lease].pc.Ended?
    decreases |events|
  {
    hide Next, CallsLeft, IsStepOf;
    if events != [] {
      StepProgresses(s, events[0], lease);
      OperationsEnd(Next(s, events[0]), events[1..], lease);
      OnlyEndedHasNone(Run(s, events).operations[lease].pc);
    }
  }

  lemma OnlyEndedHasNone(pc: Pc)
    ensures CallsLeft(pc) == 0 <==> pc.Ended?
  {
  }

  // ----- expired leases can be repaired --------------------------------------------------------

  predicate PastTaking(pc: Pc) {
    pc.RepairLooking? || pc.RepairChecking? || pc.RepairReleasing? || pc.RepairReleasingAgain?
  }

  /** A repairer that holds the row. */
  predicate Repairing(s: Sys, lease: LeaseId) {
    lease in s.operations && Owns(s, lease, s.operations[lease].job) && PastTaking(s.operations[lease].pc)
  }

  /** Its operation has ended by unlocking the row. */
  predicate Repaired(s: Sys, lease: LeaseId) {
    && lease in s.operations && s.operations[lease].pc == Ended(Unlocked)
    && s.operations[lease].job in s.jobs && s.jobs[s.operations[lease].job].updateState == None
  }

  lemma RepairGoesOn(s: Sys, lease: LeaseId, a: Answers)
    requires LeaseInv(s) && Repairing(s, lease)
    ensures var s' := Next(s, Act(lease, a));
      && (Repairing(s', lease) || Repaired(s', lease))
      && s'.operations[lease].job == s.operations[lease].job
      && CallsLeft(s'.operations[lease].pc) < CallsLeft(s.operations[lease].pc)
  {
    hide Next, RepairCall, CallsLeft, PastTaking;
    var op := s.operations[lease];
    RepairCallGoesOn(s, s.jobs[op.job], lease, op, a);
    RepairCallIsNext(s, lease, op, a);
  }

  lemma RepairCallIsNext(s: Sys, lease: LeaseId, op: Operation, a: Answers)
    requires lease in s.operations && op == s.operations[lease] && op.job in s.jobs && PastTaking(op.pc)
    ensures Next(s, Act(lease, a)) == Apply(s, lease, op, RepairCall(s, s.jobs[op.job], lease, op, a))
  {
    hide RepairCall, WorkCall, ScheduleCall;
  }

  lemma RepairCallGoesOn(s: Sys, row: JobRow, lease: LeaseId, op: Operation, a: Answers)
    requires OwnedBy(row, lease) && PastTaking(op.pc)
    ensures var e := RepairCall(s, row, lease, op, a);
      && CallsLeft(e.pc) < CallsLeft(op.pc) && e.task.None? && e.call.None?
      && if e.job.None? then PastTaking(e.pc) else e.pc == Ended(Unlocked) && e.job.value.updateState == None
  {
    hide HasTaskIn, Interrupted, TakenForRepair;
  }

  lemma RepairedStays(s: Sys, lease: LeaseId, a: Answers)
    requires Repaired(s, lease)
    ensures var s' := Next(s, Act(lease, a));
      Repaired(s', lease) && s'.operations[lease].job == s.operations[lease].job
  {
    hide WorkCall, RepairCall;
  }

  lemma {:induction false} RepairsAlone(s: Sys, lease: LeaseId, a: Answers, calls: nat)
    requires LeaseInv(s) && (Repairing(s, lease) || Repaired(s, lease)) && CallsLeft(s.operations[lease].pc) <= calls
    ensures Repaired(Run(s, Alone(lease, a, calls)), lease)
    ensures Run(s, Alone(lease, a, calls)).operations[lease].job == s.operations[lease].job
    decreases calls
  {
    hide Next, CallsLeft;
    OnlyEndedHasNone(s.operations[lease].pc);
    if calls > 0 {
      if Repaired(s, lease) {
        RepairedStays(s, lease, a);
      } else {
        RepairGoesOn(s, lease, a);
      }
      OnlyEndedHasNone(Next(s, Act(lease, a)).operations[lease].pc);
      LeaseInvStep(s, Act(lease, a));
      assert Alone(lease, a, calls)[1..] == Alone(lease, a, calls - 1);
      RepairsAlone(Next(s, Act(lease, a)), lease, a, calls - 1);
    }
  }

  /**
   A crashed owner does not block its schedule: in every state, a repair of an expired row that is not
   interrupted ends by unlocking it, within six calls.
   */
  lemma ExpiredCanBeRepaired(s: Sys, job: Key, lease: LeaseId, now: int, leaseTime: int, a: Answers)
    requires LeaseInv(s) && job in s.jobs && Expired(s.jobs[job], now) && lease !in s.operations
    ensures var s' := Run(s, [BeginRepair(lease, job, now, leaseTime)] + Alone(lease, a, 6));
      Repaired(s', lease) && s'.operations[lease].job == job
  {
    hide Next, CallsLeft, Run, Alone;
    var e := BeginRepair(lease, job, now, leaseTime);
    var s1 := Next(s, e);
    var s2 := Next(s1, Act(lease, a));
    var s3 := Next(s2, Act(lease, a));
    TakesExpired(s, job, lease, now, leaseTime, a);
    LeaseInvStep(s, e);
    LeaseInvStep(s1, Act(lease, a));
    LeaseInvStep(s2, Act(lease, a));
    RepairsAlone(s3, lease, a, 4);
    RunFirst(s, e, Alone(lease, a, 6));
    AloneFirst(lease, a, 6);
    AloneFirst(lease, a, 5);
    RunFirst(s1, Act(lease, a), Alone(lease, a, 5));
    RunFirst(s2, Act(lease, a), Alone(lease, a, 4));
  }

  lemma TakesExpired(s: Sys, job: Key, lease: LeaseId, now: int, leaseTime: int, a: Answers)
    requires job in s.jobs && Expired(s.jobs[job], now) && lease !in s.operations
    ensures var s3 := Next(Next(Next(s, BeginRepair(lease, job, now, leaseTime)), Act(lease, a)), Act(lease, a));
      Repairing(s3, lease) && s3.operations[lease].job == job && CallsLeft(s3.operations[lease].pc) == 4
  {
    hide WorkCall, ScheduleCall;
    var s1 := Next(s, BeginRepair(lease, job, now, leaseTime));
    var s2 := Next(s1, Act(lease, a));
    assert s2.operations[lease].pc == RepairTaking(Interrupted(s.jobs[job])) && s2.jobs == s.jobs;
  }
}
