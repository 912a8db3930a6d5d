/** Single steps of the transition system, where their guards are known. */
module Steps {
  import opened Wrappers
  import opened Model
  import opened DbImpl
  import opened Protocol

  // ----- marks ------------------------------------------------------------------------

  /** The mark that an operation is about to make, with its time. */
  function MarkOf(op: Operation, a: Answers): Option<(Key, Mark, int)> {
    match op.pc
    case Queueing(task) => Some((task, MarkQueued, op.now))
    case Skipping(task) => Some((task, MarkSkipped, a.time))
    case Starting(task, job, _) => Some((task, MarkStarted(job), a.time))
    case CompletingNow(task) => Some((task, MarkCompleted(a.text), a.time))
    case FailingNow(task) => Some((task, MarkFailed(Queued, TaskState.Failed, a.text), a.time))
    case StartFailing(task, _) => Some((task, MarkStartFailed(a.text), a.time))
    case FinishCompleting(task) => Some((task, MarkCompleted(a.text), op.now))
    case FinishFailing(task) => Some((task, MarkFailed(Started, CompleteError, a.text), op.now))
    case _ => None
  }

  /** Where it goes on once the mark is made. */
  function AfterMarking(op: Operation, creation: Creation, a: Answers): Pc {
    match op.pc
    case Queueing(task) => CheckingStarted(task)
    case Skipping(_) => FollowUp(creation, a)
    case Starting(task, _, after) => StartedThen(task, after, creation, a)
    case CompletingNow(_) => FollowUp(creation, a)
    case FailingNow(_) => RetryUp(creation, op.now, true, a)
    case StartFailing(_, rejected) => if rejected then MarkingRepair else Releasing(false, None)
    case FinishCompleting(_) => FinishUp(creation, true, a)
    case FinishFailing(_) => RetryUp(creation, op.now, false, a)
    case _ => op.pc
  }

  lemma CallMarks(s: Sys, lease: LeaseId, op: Operation, a: Answers)
    requires lease in s.operations && op == s.operations[lease] && op.job in s.jobs && MarkOf(op, a).Some?
    ensures var (k, mark, time) := MarkOf(op, a).value;
      Next(s, Act(lease, a)) ==
      Apply(s, lease, op, MarkTask(s, k, mark, time, AfterMarking(op, s.jobs[op.job].creation, a)))
    ensures Faulted(op.pc) == MarkingRepair
  {
    hide HasTaskIn, ScheduleCall, RepairCall, MarkTask, FollowUp, FinishUp, RetryUp, StartedThen;
  }

  // ----- one call that succeeds -----------------------------------------------------------

  /** The operation is about to make this call, on a stored schedule. */
  predicate At(s: Sys, lease: LeaseId, pc: Pc) {
    lease in s.operations && s.operations[lease].pc == pc && s.operations[lease].job in s.jobs
  }

  function Moved(s: Sys, lease: LeaseId, pc: Pc): Sys
    requires lease in s.operations
  {
    s.(operations := s.operations[lease := s.operations[lease].(pc := pc)])
  }

  lemma LeaseStep(s: Sys, lease: LeaseId, work: Work, retries: nat, a: Answers)
    requires At(s, lease, Leasing(work, retries)) && CanLease(s.jobs[s.operations[lease].job])
    ensures var op := s.operations[lease];
      Next(s, Act(lease, a)) == Moved(s, lease, Reading(work)).(jobs := s.jobs[op.job :=
        Leased(s.jobs[op.job], work.UpdateState(), work.UpdateTask(), lease, op.now + op.leaseTime)])
  {
    hide WorkCall, RepairCall, Leased;
  }

  lemma ReadStep(s: Sys, lease: LeaseId, work: Work, a: Answers)
    requires At(s, lease, Reading(work))
    ensures Next(s, Act(lease, a)) == Moved(s, lease, FirstCall(work))
  {
    hide WorkCall, RepairCall, FirstCall;
  }

  lemma ReleaseStep(s: Sys, lease: LeaseId, pasture: bool, reason: Option<string>, a: Answers)
    requires At(s, lease, Releasing(pasture, reason)) && OwnedBy(s.jobs[s.operations[lease].job], lease)
    ensures var job := s.operations[lease].job;
      Next(s, Act(lease, a)) ==
      Moved(s, lease, Ended(Unlocked)).(jobs := s.jobs[job := Released(s.jobs[job], pasture, reason)])
  {
    hide WorkCall, RepairCall, Released;
  }

  lemma MarkRepairStep(s: Sys, lease: LeaseId, a: Answers)
    requires At(s, lease, MarkingRepair) && OwnedBy(s.jobs[s.operations[lease].job], lease)
    ensures var op := s.operations[lease];
      Next(s, Act(lease, a)) == Moved(s, lease, Ended(LeftForRepair)).(
        jobs := s.jobs[op.job := MarkedForRepair(s.jobs[op.job], op.now, false, None)])
  {
    hide WorkCall, RepairCall, MarkedForRepair;
  }

  lemma EndedStep(s: Sys, lease: LeaseId, a: Answers)
    requires lease in s.operations && s.operations[lease].pc.Ended?
    ensures Next(s, Act(lease, a)) == s
  {
    hide WorkCall, RepairCall;
  }

  /** A mark of a task in another state is refused, and changes nothing. */
  lemma RefusedStep(s: Sys, lease: LeaseId, a: Answers)
    requires lease in s.operations && s.operations[lease].job in s.jobs && MarkOf(s.operations[lease], a).Some?
    requires var (k, mark, time) := MarkOf(s.operations[lease], a).value;
      k in s.tasks ==> s.tasks[k].state != mark.Expects()
    ensures Next(s, Act(lease, a)) == Moved(s, lease, MarkingRepair)
  {
    hide MarkOf, AfterMarking, Mark.Marked, Mark.Expects, Next;
    CallMarks(s, lease, s.operations[lease], a);
  }

  lemma MarkStep(s: Sys, lease: LeaseId, a: Answers)
    requires lease in s.operations && s.operations[lease].job in s.jobs && MarkOf(s.operations[lease], a).Some?
    requires var (k, mark, time) := MarkOf(s.operations[lease], a).value;
      k in s.tasks && k in s.used && s.tasks[k].state == mark.Expects()
    ensures var op, (k, mark, time) := s.operations[lease], MarkOf(s.operations[lease], a).value;
      Next(s, Act(lease, a)) == Moved(s, lease, AfterMarking(op, s.jobs[op.job].creation, a)).(
        tasks := s.tasks[k := mark.Marked(s.tasks[k], time)])
  {
    hide MarkOf, AfterMarking, Mark.Marked, Mark.Expects, Next;
    CallMarks(s, lease, s.operations[lease], a);
    assert s.used + {MarkOf(s.operations[lease], a).value.0} == s.used;
  }

  lemma CheckStartedStep(s: Sys, lease: LeaseId, k: Key, a: Answers)
    requires At(s, lease, CheckingStarted(k)) && !s.jobs[s.operations[lease].job].duplicates.Custom?
    requires !HasTaskIn(s.tasks, s.operations[lease].job, Started)
    ensures Next(s, Act(lease, a)) == Moved(s, lease, CallingJob(k))
  {
    hide ScheduleCall, RepairCall, HasTaskIn;
  }

  lemma CallJobStep(s: Sys, lease: LeaseId, k: Key, a: Answers)
    requires At(s, lease, CallingJob(k))
    ensures Next(s, Act(lease, a)) == Moved(s, lease, JobAnswered(k, a.job)).(calls := s.calls + [k])
  {
    hide ScheduleCall, RepairCall, HasTaskIn;
  }

  lemma CheckPendingStep(s: Sys, lease: LeaseId, at: int, a: Answers)
    requires At(s, lease, CheckingPending(at, false)) && !HasTaskIn(s.tasks, s.operations[lease].job, Pending)
    ensures Next(s, Act(lease, a)) == Moved(s, lease, AddingTask(at, false))
  {
    hide ScheduleCall, RepairCall, HasTaskIn;
  }

  lemma AddTaskStep(s: Sys, lease: LeaseId, at: int, a: Answers)
    requires At(s, lease, AddingTask(at, false)) && a.newKey !in s.used
    ensures var op := s.operations[lease];
      Next(s, Act(lease, a)) == Moved(s, lease, Releasing(false, None)).(
        tasks := s.tasks[a.newKey := NewTask(op.job, op.now, at)], used := s.used + {a.newKey})
  {
    hide ScheduleCall, RepairCall, HasTaskIn, NewTask;
  }

  lemma RepairReadStep(s: Sys, lease: LeaseId, a: Answers)
    requires At(s, lease, RepairReading)
    ensures Next(s, Act(lease, a)) == Moved(s, lease, RepairTaking(Interrupted(s.jobs[s.operations[lease].job])))
  {
    hide ScheduleCall, WorkCall, HasTaskIn, Interrupted;
  }

  lemma TakeStep(s: Sys, lease: LeaseId, interrupted: Option<UpdateState>, a: Answers)
    requires At(s, lease, RepairTaking(interrupted))
    requires Expired(s.jobs[s.operations[lease].job], s.operations[lease].now)
    ensures var op := s.operations[lease];
      Next(s, Act(lease, a)) == Moved(s, lease, RepairLooking).(jobs := s.jobs[op.job :=
        TakenForRepair(s.jobs[op.job], lease, op.now + op.leaseTime, interrupted)])
  {
    hide ScheduleCall, WorkCall, HasTaskIn, TakenForRepair;
  }

  /** A repair that is not implemented rejects, and the row is released with pasture. */
  lemma RejectStep(s: Sys, lease: LeaseId, a: Answers)
    requires At(s, lease, RepairLooking)
    requires var state := s.jobs[s.operations[lease].job].repairState;
      state == Some(StartTask) || state == Some(EndTask) || state == Some(Pasture)
    ensures Next(s, Act(lease, a)) == Moved(s, lease, RepairReleasingAgain(Some(a.text)))
  {
    hide ScheduleCall, WorkCall, HasTaskIn;
  }

  lemma ReleaseAgainStep(s: Sys, lease: LeaseId, reason: Option<string>, a: Answers)
    requires At(s, lease, RepairReleasingAgain(reason)) && OwnedBy(s.jobs[s.operations[lease].job], lease)
    ensures var job := s.operations[lease].job;
      Next(s, Act(lease, a)) ==
      Moved(s, lease, Ended(Unlocked)).(jobs := s.jobs[job := Released(s.jobs[job], true, reason)])
  {
    hide ScheduleCall, WorkCall, HasTaskIn, Released;
  }

  // ----- lists of events ---------------------------------------------------------------------

  lemma RunOne(s: Sys, e: Event)
    ensures Run(s, [e]) == Next(s, e)
  {
    hide Next;
    RunNothing(Next(s, e));
    assert [e][1..] == [];
  }

  lemma RunTwo(s: Sys, d: Event, e: Event)
    ensures Run(s, [d, e]) == Next(Next(s, d), e)
  {
    hide Next;
    RunOne(Next(s, d), e);
    assert [d, e][1..] == [e];
  }

  lemma RunFirst(s: Sys, e: Event, rest: seq<Event>)
    ensures Run(s, [e] + rest) == Run(Next(s, e), rest)
  {
    hide Next;
    assert ([e] + rest)[1..] == rest;
  }

  /** The same call again and again, alone. */
  function Alone(lease: LeaseId, a: Answers, calls: nat): seq<Event> {
    if calls == 0 then [] else [Act(lease, a)] + Alone(lease, a, calls - 1)
  }

  lemma AloneFirst(lease: LeaseId, a: Answers, calls: nat)
    requires calls > 0
    ensures Alone(lease, a, calls) == [Act(lease, a)] + Alone(lease, a, calls - 1)
  {
  }
}
