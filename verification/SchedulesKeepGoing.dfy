/**
 A schedule that creates its next task after the start of the last one never runs dry: whenever it
 is unlocked, exactly one task is pending.
 */
module SchedulesKeepGoing {
  import opened Wrappers
  import opened Model
  import opened DbImpl
  import opened Protocol
  import opened LeaseSafety
  import opened PendingTasks
  import opened Steps
  import T = TaskSafety

  /** Between queueing a task (or creating the schedule) and adding the follow-up task. */
  predicate Outstanding(pc: Pc) {
    || pc.AddingFirstTask? || pc.CheckingStarted? || pc.CallingJob? || pc.Skipping? || pc.Starting?
    || pc.CompletingNow? || pc.FailingNow? || pc.StartFailing? || pc.CheckingPending? || pc.AddingTask?
  }

  /** A creation answers with a date; a start ends skipped, completed or running, and is followed up. */
  predicate GoodAnswers(pc: Pc, a: Answers) {
    && (pc.AddingFirstTask? ==> !a.creation.Throws?)
    && (pc.CallingJob? ==> a.job.JobCompleted? || a.job.JobRunning?)
    && (pc.Skipping? || (pc.Starting? && pc.after.Nothing?) || pc.CompletingNow? ==> a.creation.QueueAt?)
  }

  /** The follow-up is outstanding, and no other task is pending in its place. */
  ghost predicate Owes(s: Sys, lease: LeaseId, job: Key) {
    lease in s.operations && Outstanding(s.operations[lease].pc) && !HasTaskIn(s.tasks, job, Pending)
  }

  /**
   An event of the runs in question, for a schedule that creates its next task after a start: an owner
   that owes a follow-up gets good answers, meets no fault and does not outlive its lease.
   */
  ghost predicate Orderly(s: Sys, e: Event, job: Key) {
    job in s.jobs && s.jobs[job].creation.AfterStart? ==>
      && (e.Act? && e.lease in s.operations && Owns(s, e.lease, job) ==>
            GoodAnswers(s.operations[e.lease].pc, e.answers))
      && (e.Fault? && Owns(s, e.lease, job) ==> !Owes(s, e.lease, job))
      && (TakesOver(s, e, job) && s.jobs[job].leaseOwner.Some? ==> !Owes(s, s.jobs[job].leaseOwner.value, job))
  }

  ghost predicate TakesOver(s: Sys, e: Event, job: Key) {
    && e.Act? && e.lease in s.operations && s.operations[e.lease].job == job && job in s.jobs
    && s.operations[e.lease].pc.RepairTaking? && Expired(s.jobs[job], s.operations[e.lease].now)
  }

  ghost predicate RunsOrderly(s: Sys, events: seq<Event>, job: Key)
    decreases |events|
  {
    events != [] ==> Orderly(s, events[0], job) && RunsOrderly(Next(s, events[0]), events[1..], job)
  }

  /** The task a starting owner works on is still in the state its next mark expects. */
  ghost predicate OnTrack(s: Sys, pc: Pc) {
    match pc
    case CheckingStarted(k) => k in s.tasks && s.tasks[k].state == Queued
    case CallingJob(k) => k in s.tasks && s.tasks[k].state == Queued
    case Skipping(k) => k in s.tasks && s.tasks[k].state == Queued
    case Starting(k, _, after) => k in s.tasks && s.tasks[k].state == Queued && !after.ThenFail?
    case CompletingNow(k) => k in s.tasks && s.tasks[k].state == Started
    case FailingNow(_) => false
    case StartFailing(_, _) => false
    case CheckingPending(_, follow) => !follow
    case AddingTask(_, follow) => !follow
    case _ => true
  }

  /** Unlocked, or locked without a follow-up outstanding, the schedule has a pending task. */
  ghost predicate KeptGoing(s: Sys, job: Key) {
    job in s.jobs && s.jobs[job].creation.AfterStart? ==>
      && (s.jobs[job].leaseOwner.None? ==> HasTaskIn(s.tasks, job, Pending))
      && forall l :: l in s.operations && Owns(s, l, job) ==>
          && (!Outstanding(s.operations[l].pc) ==> HasTaskIn(s.tasks, job, Pending))
          && OnTrack(s, s.operations[l].pc)
  }

  /** A write that takes no pending task away leaves one pending; so does adding one. */
  lemma PendingStays(tasks: map<Key, TaskRow>, job: Key, k: Key, row: TaskRow)
    requires (HasTaskIn(tasks, job, Pending) && (k in tasks ==> tasks[k].state != Pending))
      || (row.schedule == job && row.state == Pending)
    ensures HasTaskIn(tasks[k := row], job, Pending)
  {
    if row.schedule == job && row.state == Pending {
      assert tasks[k := row][k].schedule == job;
    } else {
      var p :| p in tasks && tasks[p].schedule == job && tasks[p].state == Pending;
      assert tasks[k := row][p] == tasks[p];
    }
  }

  function TasksAfter(s: Sys, e: Effect): map<Key, TaskRow> {
    if e.task.Some? then s.tasks[e.task.value.0 := e.task.value.1] else s.tasks
  }

  /** What one call of the owner does to its follow-up. */
  lemma OwnerCall(s: Sys, lease: LeaseId, op: Operation, a: Answers)
    requires Sound(s) && lease in s.operations && op == s.operations[lease]
    requires KeptGoing(s, op.job) && Owns(s, lease, op.job) && s.jobs[op.job].creation.AfterStart?
    requires GoodAnswers(op.pc, a) && KeyIsFresh(s, op, a)
    ensures var e := Call(s, lease, op, a);
      && (!Outstanding(e.pc) ==> HasTaskIn(TasksAfter(s, e), op.job, Pending))
      && OnTrack(Sys(s.jobs, TasksAfter(s, e), s.operations, s.used, s.calls), e.pc)
  {
    var e := Call(s, lease, op, a);
    var w := T.CallMoves(s, lease, op, a);
    OwnerPath(s, lease, op, a);
    if e.task.Some? && (w.Adds? || (HasTaskIn(s.tasks, op.job, Pending) && !w.mark.MarkQueued?)) {
      hide Call;
      PendingStays(s.tasks, op.job, e.task.value.0, e.task.value.1);
    }
  }

  ghost predicate StaysOnPath(s: Sys, op: Operation, e: Effect) {
    && OnTrack(Sys(s.jobs, TasksAfter(s, e), s.operations, s.used, s.calls), e.pc)
    && (!Outstanding(e.pc) ==>
          || (e.task.Some? && (op.pc.AddingTask? || op.pc.AddingFirstTask?))
          || (HasTaskIn(s.tasks, op.job, Pending) && !(e.task.Some? && op.pc.Queueing?)))
  }

  lemma OwnerPath(s: Sys, lease: LeaseId, op: Operation, a: Answers)
    requires Sound(s) && lease in s.operations && op == s.operations[lease]
    requires KeptGoing(s, op.job) && Owns(s, lease, op.job) && s.jobs[op.job].creation.AfterStart?
    requires GoodAnswers(op.pc, a) && KeyIsFresh(s, op, a)
    ensures StaysOnPath(s, op, Call(s, lease, op, a))
  {
    if InSchedule(op.pc) || InRepair(op.pc) {
      hide Leased, Released, MarkedForRepair, TakenForRepair, NewJob, HasTaskIn, WorkCall, T.TaskInv, OwnTasks;
    } else {
      hide StaysOnPath, WorkCall, HasTaskIn, T.Dated, OwnTasks, LeaseInv;
      WorkPath(s, s.jobs[op.job], op, a);
    }
  }

  lemma WorkPath(s: Sys, row: JobRow, op: Operation, a: Answers)
    requires !InSchedule(op.pc) && !InRepair(op.pc) && row.creation.AfterStart? && GoodAnswers(op.pc, a)
    requires OnTrack(s, op.pc) && (op.pc.AddingFirstTask? ==> op.pc.first !in s.tasks)
    requires !Outstanding(op.pc) ==> HasTaskIn(s.tasks, op.job, Pending)
    ensures StaysOnPath(s, op, WorkCall(s, row, op, a))
  {
    hide HasTaskIn, NewTask;
  }

  lemma KeptGoingStep(s: Sys, e: Event, job: Key)
    requires Sound(s) && KeptGoing(s, job) && InLease(s, e, job) && Orderly(s, e, job)
    ensures KeptGoing(Next(s, e), job)
  {
    hide Call, Faulted, T.Dated, T.TaskInv, Outstanding, GoodAnswers;
    if e.Act? && e.lease in s.operations && KeyIsFresh(s, s.operations[e.lease], e.answers) {
      var op := s.operations[e.lease];
      var eff := Call(s, e.lease, op, e.answers);
      var w := T.CallMoves(s, e.lease, op, e.answers);
      var jw := CallWrites(s, e.lease, op, e.answers);
      CallKeepsTask(s, e.lease, op, e.answers);
      if Owns(s, e.lease, job) {
        if s.jobs[job].creation.AfterStart? {
          OwnerCall(s, e.lease, op, e.answers);
        }
        OwnerActs(s, e.lease, op, e.answers, eff, w, jw);
      } else if op.job == job {
        RivalActs(s, e.lease, op, eff, jw);
      } else {
        StrangerWrites(s, e.lease, op, e.answers, job);
        StrangerActs(s, e.lease, op, eff, job);
      }
    } else if e.Fault? && e.lease in s.operations {
      FaultActs(s, e.lease, s.operations[e.lease], job);
    } else if !e.Act? && !e.Fault? {
      NoneActs(s, e, job);
    }
  }

  /** A beginning operation owns nothing, and a deleted task is neither pending, queued nor started. */
  lemma NoneActs(s: Sys, e: Event, job: Key)
    requires Sound(s) && KeptGoing(s, job) && !e.Act? && !e.Fault?
    ensures KeptGoing(Next(s, e), job)
  {
    hide Outstanding, T.TaskInv, OwnTasks;
    if HasTaskIn(s.tasks, job, Pending) {
      var k :| k in s.tasks && s.tasks[k].schedule == job && s.tasks[k].state == Pending;
      assert k in Next(s, e).tasks && Next(s, e).tasks[k] == s.tasks[k];
    }
  }

  lemma FaultSettles(s: Sys, pc: Pc)
    ensures Outstanding(pc) || !Outstanding(Faulted(pc))
    ensures OnTrack(s, Faulted(pc))
  {
  }

  lemma FaultActs(s: Sys, lease: LeaseId, op: Operation, job: Key)
    requires Sound(s) && lease in s.operations && op == s.operations[lease] && KeptGoing(s, job)
    requires job in s.jobs && s.jobs[job].creation.AfterStart? && Owns(s, lease, job) ==> !Owes(s, lease, job)
    ensures KeptGoing(Apply(s, lease, op, Effect(Faulted(op.pc))), job)
  {
    hide Outstanding, Faulted, HasTaskIn;
    FaultSettles(Apply(s, lease, op, Effect(Faulted(op.pc))), op.pc);
  }

  lemma OwnerActs(s: Sys, lease: LeaseId, op: Operation, a: Answers, e: Effect, w: T.TaskWrite, jw: JobWrite)
    requires Sound(s) && lease in s.operations && op == s.operations[lease]
    requires KeptGoing(s, op.job) && Owns(s, lease, op.job)
    requires T.Writes(s, op, a, e, w) && LeaseSafety.Writes(s, lease, op, e, jw)
    requires e.task.Some? ==> e.job.None?
    requires s.jobs[op.job].creation.AfterStart? ==>
      && (!Outstanding(e.pc) ==> HasTaskIn(TasksAfter(s, e), op.job, Pending))
      && OnTrack(Sys(s.jobs, TasksAfter(s, e), s.operations, s.used, s.calls), e.pc)
    ensures KeptGoing(Apply(s, lease, op, e), op.job)
  {
    hide T.TaskInv, OwnTasks, HasTaskIn, T.Writes;
  }

  /** Another operation on the schedule gets hold of it only unlocked, or past its follow-up. */
  lemma RivalActs(s: Sys, lease: LeaseId, op: Operation, e: Effect, jw: JobWrite)
    requires Sound(s) && lease in s.operations && op == s.operations[lease]
    requires KeptGoing(s, op.job) && !Owns(s, lease, op.job)
    requires LeaseSafety.Writes(s, lease, op, e, jw) && e.task.None?
    requires jw.Takes? && s.jobs[op.job].creation.AfterStart? ==> !Owes(s, s.jobs[op.job].leaseOwner.value, op.job)
    ensures KeptGoing(Apply(s, lease, op, e), op.job)
  {
    hide T.TaskInv, OwnTasks, HasTaskIn;
  }

  /** Operations on other schedules do not matter. */
  lemma StrangerActs(s: Sys, lease: LeaseId, op: Operation, e: Effect, job: Key)
    requires Sound(s) && lease in s.operations && op == s.operations[lease] && KeptGoing(s, job) && op.job != job
    requires e.task.Some? ==>
      var (k, row) := e.task.value;
      row.schedule != job && (k in s.tasks ==> s.tasks[k].schedule != job)
    ensures KeptGoing(Apply(s, lease, op, e), job)
  {
    hide T.TaskInv, Outstanding;
    var s' := Apply(s, lease, op, e);
    if HasTaskIn(s.tasks, job, Pending) {
      var k :| k in s.tasks && s.tasks[k].schedule == job && s.tasks[k].state == Pending;
      assert k in s'.tasks && s'.tasks[k] == s.tasks[k];
    }
  }

  /**
   The schedule keeps going: in every orderly run, whenever a schedule that creates its next task
   after a start is unlocked, exactly one of its tasks is pending, even when other starts and finishes
   were refused and repaired.
   */
  lemma {:induction false} KeepsGoing(s: Sys, events: seq<Event>, job: Key)
    requires Sound(s) && PendingOk(s, job) && KeptGoing(s, job)
    requires RunsInLease(s, events, job) && RunsOrderly(s, events, job)
    ensures var s' := Run(s, events);
      job in s'.jobs && s'.jobs[job].creation.AfterStart? && s'.jobs[job].updateState.None? ==>
        exists k :: k in s'.tasks && s'.tasks[k].schedule == job && s'.tasks[k].state == Pending
          && forall m :: m in s'.tasks && s'.tasks[m].schedule == job && s'.tasks[m].state == Pending ==> m == k
    decreases |events|
  {
    if events != [] {
      SoundStep(s, events[0]);
      PendingStep(s, events[0], job);
      KeptGoingStep(s, events[0], job);
      KeepsGoing(Next(s, events[0]), events[1..], job);
    } else if job in s.jobs && s.jobs[job].creation.AfterStart? && s.jobs[job].updateState.None? {
      var k :| k in s.tasks && s.tasks[k].schedule == job && s.tasks[k].state == Pending;
      assert forall m :: m in s.tasks && s.tasks[m].schedule == job && s.tasks[m].state == Pending ==> m == k;
    }
  }

  // ----- no second pending task -------------------------------------------------------------

  predicate OutstandingForSure(pc: Pc) {
    Outstanding(pc) && !pc.CheckingPending?
  }

  /** An owner with a follow-up outstanding has no pending task beside it, but for one that is about to check. */
  ghost predicate NoneBeside(s: Sys, job: Key) {
    job in s.jobs && s.jobs[job].creation.AfterStart? ==>
      forall l :: l in s.operations && Owns(s, l, job) && OutstandingForSure(s.operations[l].pc) ==>
        !HasTaskIn(s.tasks, job, Pending)
  }

  lemma NoneBesideStep(s: Sys, e: Event, job: Key)
    requires Sound(s) && PendingOk(s, job) && KeptGoing(s, job) && NoneBeside(s, job) && InLease(s, e, job)
    ensures NoneBeside(Next(s, e), job)
  {
    hide Call, Faulted, T.TaskInv;
    if e.Act? && e.lease in s.operations && KeyIsFresh(s, s.operations[e.lease], e.answers) {
      hide NoneBeside, LeaseInv, OwnTasks, PendingOk, KeptGoing;
      var op := s.operations[e.lease];
      if op.job == job {
        NoneBesideInside(s, e.lease, op, e.answers);
      } else {
        StrangerWrites(s, e.lease, op, e.answers, job);
        NoneBesideOutside(s, e.lease, op, Call(s, e.lease, op, e.answers), job);
      }
    } else if e.Fault? && e.lease in s.operations {
      hide Outstanding, LeaseInv, OwnTasks, PendingOk, KeptGoing;
      FaultOwesNothing(s.operations[e.lease].pc);
    } else if !e.Act? && !e.Fault? {
      NoneBesideBegin(s, e, job);
    }
  }

  lemma FaultOwesNothing(pc: Pc)
    ensures !Outstanding(Faulted(pc))
  {
  }

  lemma NoneBesideBegin(s: Sys, e: Event, job: Key)
    requires Sound(s) && NoneBeside(s, job) && !e.Act? && !e.Fault?
    ensures NoneBeside(Next(s, e), job)
  {
    hide Outstanding, T.TaskInv, OwnTasks;
  }

  lemma NoneBesideOutside(s: Sys, lease: LeaseId, op: Operation, e: Effect, job: Key)
    requires Sound(s) && NoneBeside(s, job) && lease in s.operations && op == s.operations[lease] && op.job != job
    requires e.task.Some? ==>
      var (k, row) := e.task.value;
      row.schedule != job && (k in s.tasks ==> s.tasks[k].schedule != job)
    ensures NoneBeside(Apply(s, lease, op, e), job)
  {
    hide T.TaskInv, Outstanding;
    var s' := Apply(s, lease, op, e);
    if HasTaskIn(s'.tasks, job, Pending) {
      var k :| k in s'.tasks && s'.tasks[k].schedule == job && s'.tasks[k].state == Pending;
      assert k in s.tasks && s'.tasks[k] == s.tasks[k];
    }
  }

  /** Which calls lead to an outstanding follow-up, and from where. */
  lemma CallOwes(s: Sys, lease: LeaseId, op: Operation, a: Answers)
    ensures var e := Call(s, lease, op, a); OutstandingForSure(e.pc) ==>
      || (OutstandingForSure(op.pc) && !op.pc.AddingTask? && !op.pc.AddingFirstTask?)
      || e.pc.AddingTask?
      || ((op.pc.AddingTask? || op.pc.CheckingPending?) && op.pc.follow)
      || (op.pc.Queueing? && e.task.Some? && e.task.value.0 == op.pc.task
          && op.pc.task in s.tasks && s.tasks[op.pc.task].state == Pending)
      || (op.pc.CreatingJob? && op.job !in s.jobs) || op.pc.FailingNow?
  {
    if op.job in s.jobs && !InSchedule(op.pc) && !InRepair(op.pc) {
      hide ScheduleCall, RepairCall, HasTaskIn, NewTask, Mark.Marked;
    } else {
      hide WorkCall, Leased, Released, MarkedForRepair, TakenForRepair, NewJob, HasTaskIn;
    }
  }

  /** A write of a task that is not pending makes none pending. */
  lemma NoneStays(tasks: map<Key, TaskRow>, job: Key, k: Key, row: TaskRow)
    requires row.state != Pending && AtMostOneIn(tasks, job)
    requires !HasTaskIn(tasks, job, Pending) || (k in tasks && tasks[k].schedule == job && tasks[k].state == Pending)
    ensures !HasTaskIn(tasks[k := row], job, Pending)
  {
  }

  ghost predicate AtMostOneIn(tasks: map<Key, TaskRow>, job: Key) {
    forall k, m |
      && k in tasks && m in tasks && tasks[k].schedule == job && tasks[m].schedule == job
      && tasks[k].state == Pending && tasks[m].state == Pending :: k == m
  }

  lemma OwnerOwes(s: Sys, lease: LeaseId, op: Operation, a: Answers)
    requires Sound(s) && PendingOk(s, op.job) && KeptGoing(s, op.job) && NoneBeside(s, op.job)
    requires lease in s.operations && op == s.operations[lease] && KeyIsFresh(s, op, a)
    requires Owns(s, lease, op.job) && s.jobs[op.job].creation.AfterStart?
    ensures var e := Call(s, lease, op, a);
      OutstandingForSure(e.pc) ==> !HasTaskIn(TasksAfter(s, e), op.job, Pending)
  {
    hide Call, T.TaskInv, HasTaskIn, LeaseInv, T.Moves;
    var e := Call(s, lease, op, a);
    var w := T.CallMoves(s, lease, op, a);
    CallOwes(s, lease, op, a);
    CallAdds(s, lease, op, a);
    CallKeepsTask(s, lease, op, a);
    if OutstandingForSure(e.pc) && e.task.Some? {
      WrittenSchedule(s, op, a, e, w);
      NoneStays(s.tasks, op.job, e.task.value.0, e.task.value.1);
    }
  }

  lemma NoneBesideInside(s: Sys, lease: LeaseId, op: Operation, a: Answers)
    requires Sound(s) && PendingOk(s, op.job) && KeptGoing(s, op.job) && NoneBeside(s, op.job)
    requires lease in s.operations && op == s.operations[lease] && KeyIsFresh(s, op, a)
    requires Call(s, lease, op, a).task.Some? ==> Owns(s, lease, op.job)
    ensures NoneBeside(Apply(s, lease, op, Call(s, lease, op, a)), op.job)
  {
    hide Call, T.TaskInv, HasTaskIn, PendingOk, KeptGoing, OutstandingForSure;
    var e := Call(s, lease, op, a);
    var jw := CallWrites(s, lease, op, a);
    CallKeepsTask(s, lease, op, a);
    if Owns(s, lease, op.job) && s.jobs[op.job].creation.AfterStart? {
      OwnerOwes(s, lease, op, a);
    }
    NewOwnersOweNothing(op.pc);
    if jw.Creates? {
      NoTasksYet(s, op.job);
      NoneInside(s, op.job);
    }
  }

  lemma NewOwnersOweNothing(pc: Pc)
    ensures forall work :: !OutstandingForSure(Reading(work))
    ensures forall how :: !OutstandingForSure(Ended(how))
    ensures !OutstandingForSure(RepairLooking)
  {
  }

  lemma NoneInside(s: Sys, job: Key)
    requires forall k :: k in s.tasks ==> s.tasks[k].schedule != job
    ensures !HasTaskIn(s.tasks, job, Pending)
  {
  }

  // ----- a first run ---------------------------------------------------------------------------

  /** Creating a schedule, without interruption. */
  function Creating(lease: LeaseId, job: Key, first: Key, duplicates: Duplicates, now: int, leaseTime: int, a: Answers)
    : seq<Event>
  {
    [BeginCreate(lease, job, first, AfterStart, duplicates, now, leaseTime),
     Act(lease, a), Act(lease, a), Act(lease, a)]
  }

  lemma Created(s: Sys, lease: LeaseId, job: Key, first: Key, duplicates: Duplicates, now: int, leaseTime: int)
    requires lease !in s.operations && job != first && job !in s.used && first !in s.used
    ensures var e := BeginCreate(lease, job, first, AfterStart, duplicates, now, leaseTime); var s' := Next(s, e);
      && Orderly(s, e, job) && s'.jobs == s.jobs && s'.tasks == s.tasks && lease in s'.operations
      && s'.operations[lease] == Operation(job, now, leaseTime, CreatingJob(first, AfterStart, duplicates))
  {
    hide Call;
  }

  lemma RowAdded(s: Sys, lease: LeaseId, a: Answers)
    requires lease in s.operations && s.operations[lease].pc.CreatingJob? && s.operations[lease].job !in s.jobs
    ensures var op, s' := s.operations[lease], Next(s, Act(lease, a));
      && Orderly(s, Act(lease, a), op.job) && s'.tasks == s.tasks
      && s'.operations == s.operations[lease := op.(pc := AddingFirstTask(op.pc.first))]
      && Owns(s', lease, op.job) && s'.jobs[op.job].updateState.Some?
  {
    hide WorkCall, ScheduleCall, RepairCall, HasTaskIn;
  }

  lemma TaskAdded(s: Sys, lease: LeaseId, a: Answers)
    requires lease in s.operations && s.operations[lease].pc.AddingFirstTask? && !a.creation.Throws?
    requires Owns(s, lease, s.operations[lease].job) && s.operations[lease].pc.first !in s.tasks
    ensures var op, s' := s.operations[lease], Next(s, Act(lease, a));
      && Orderly(s, Act(lease, a), op.job) && s'.jobs == s.jobs
      && s'.operations == s.operations[lease := op.(pc := Releasing(false, None))]
      && s'.tasks == s.tasks[op.pc.first := NewTask(op.job, op.now, a.time)]
  {
    hide ScheduleCall, RepairCall, HasTaskIn;
  }

  lemma LeaseReleased(s: Sys, lease: LeaseId, a: Answers)
    requires lease in s.operations && s.operations[lease].pc == Releasing(false, None)
    requires Owns(s, lease, s.operations[lease].job) && s.jobs[s.operations[lease].job].updateState.Some?
    ensures var op, s' := s.operations[lease], Next(s, Act(lease, a));
      && Orderly(s, Act(lease, a), op.job) && s'.tasks == s.tasks
      && op.job in s'.jobs && s'.jobs[op.job].updateState == None
  {
    hide WorkCall, RepairCall, HasTaskIn;
  }

  lemma OrderlyFrom(s: Sys, events: seq<Event>, i: nat, job: Key)
    requires i < |events| && Orderly(s, events[i], job) && RunsOrderly(Next(s, events[i]), events[i + 1..], job)
    ensures RunsOrderly(s, events[i..], job)
  {
    hide Orderly, Next;
    assert events[i..][1..] == events[i + 1..];
  }

  lemma OrderlyEnd(s: Sys, job: Key)
    ensures RunsOrderly(s, [], job)
  {
  }

  /** From every state, with unused keys and lease id, it is an orderly run that ends unlocked with the task pending. */
  lemma CreationIsOrderly(s: Sys, lease: LeaseId, job: Key, first: Key, duplicates: Duplicates, now: int,
                          leaseTime: int, a: Answers)
    requires T.TaskInv(s) && lease !in s.operations && job != first && job !in s.jobs
    requires job !in s.used && first !in s.used && !a.creation.Throws?
    ensures RunsOrderly(s, Creating(lease, job, first, duplicates, now, leaseTime, a), job)
    ensures var s' := Run(s, Creating(lease, job, first, duplicates, now, leaseTime, a));
      && job in s'.jobs && s'.jobs[job].updateState == None
      && first in s'.tasks && s'.tasks[first].schedule == job && s'.tasks[first].state == Pending
  {
    hide Run, RunsOrderly, Next, Orderly;
    var es := Creating(lease, job, first, duplicates, now, leaseTime, a);
    var s1 := Next(s, es[0]);
    var s2 := Next(s1, es[1]);
    var s3 := Next(s2, es[2]);
    var s4 := Next(s3, es[3]);
    Created(s, lease, job, first, duplicates, now, leaseTime);
    RowAdded(s1, lease, a);
    TaskAdded(s2, lease, a);
    LeaseReleased(s3, lease, a);
    assert es[0..] == es && es[4..] == [];
    OrderlyEnd(s4, job);
    OrderlyFrom(s3, es, 3, job);
    OrderlyFrom(s2, es, 2, job);
    OrderlyFrom(s1, es, 1, job);
    OrderlyFrom(s, es, 0, job);
    RunFrom(s, es, 0);
    RunFrom(s1, es, 1);
    RunFrom(s2, es, 2);
    RunFrom(s3, es, 3);
    RunNothing(s4);
  }
}
