/** How many tasks a schedule has pending or started, in runs that respect its lease. */
module PendingTasks {
  import opened Wrappers
  import opened Model
  import opened DbImpl
  import opened Protocol
  import opened LeaseSafety
  import T = TaskSafety

  // ----- an operation touches only tasks of its schedule ------------------------------

  /** The stored task that an operation works on. */
  function TaskOf(pc: Pc): Option<Key> {
    match pc
    case Leasing(work, _) => work.UpdateTask()
    case Reading(work) => work.UpdateTask()
    case Queueing(task) => Some(task)
    case CheckingStarted(task) => Some(task)
    case CallingJob(task) => Some(task)
    case Skipping(task) => Some(task)
    case Starting(task, _, _) => Some(task)
    case CompletingNow(task) => Some(task)
    case FailingNow(task) => Some(task)
    case StartFailing(task, _) => Some(task)
    case FinishCompleting(task) => Some(task)
    case FinishFailing(task) => Some(task)
    case _ => None
  }

  /** Tasks belong to stored schedules, and operations to the schedule of their task. */
  ghost predicate OwnTasks(s: Sys) {
    && (forall k :: k in s.tasks ==> s.tasks[k].schedule in s.jobs)
    && (forall l :: l in s.operations && TaskOf(s.operations[l].pc).Some? ==>
          var k := TaskOf(s.operations[l].pc).value;
          && k in s.used
          && (k in s.tasks ==> s.tasks[k].schedule == s.operations[l].job)
          && forall m :: m in s.operations ==> T.Reserved(s.operations[m].pc) != Some(k))
  }

  ghost predicate KeepsTask(s: Sys, op: Operation, e: Effect) {
    && (TaskOf(e.pc).Some? ==> TaskOf(op.pc) == TaskOf(e.pc))
    && (e.task.Some? && e.task.value.0 in s.tasks && !op.pc.AddingTask? ==> TaskOf(op.pc) == Some(e.task.value.0))
    && (e.task.Some? ==> op.job in s.jobs && e.job.None?)
  }

  lemma CallKeepsTask(s: Sys, lease: LeaseId, op: Operation, a: Answers)
    ensures KeepsTask(s, op, Call(s, lease, op, a))
  {
    if op.job in s.jobs && !InSchedule(op.pc) && !InRepair(op.pc) {
      hide KeepsTask, WorkCall;
      WorkKeepsTask(s, s.jobs[op.job], op, a);
    } else {
      hide Leased, Released, MarkedForRepair, TakenForRepair, NewJob, HasTaskIn, WorkCall;
    }
  }

  lemma WorkKeepsTask(s: Sys, row: JobRow, op: Operation, a: Answers)
    requires op.job in s.jobs && !InSchedule(op.pc) && !InRepair(op.pc)
    ensures KeepsTask(s, op, WorkCall(s, row, op, a))
  {
    hide HasTaskIn, NewTask, Mark.Marked, Mark.Expects;
  }

  lemma FaultedKeepsTask(pc: Pc)
    ensures TaskOf(Faulted(pc)).Some? ==> TaskOf(pc) == TaskOf(Faulted(pc))
  {
  }

  lemma OwnTasksStep(s: Sys, e: Event)
    requires T.TaskInv(s) && OwnTasks(s)
    ensures OwnTasks(Next(s, e))
  {
    hide Call, Faulted, T.Dated, T.Moves, Mark.Marked, NewTask;
    if e.Act? && e.lease in s.operations && KeyIsFresh(s, s.operations[e.lease], e.answers) {
      var op := s.operations[e.lease];
      var w := T.CallMoves(s, e.lease, op, e.answers);
      CallKeepsTask(s, e.lease, op, e.answers);
      OwnTasksAct(s, e.lease, op, e.answers, Call(s, e.lease, op, e.answers), w);
    } else if e.Fault? && e.lease in s.operations {
      FaultedKeepsTask(s.operations[e.lease].pc);
      T.FaultedReservesNothing(s.operations[e.lease].pc);
    } else if !e.Act? && !e.Fault? {
      OwnTasksBegin(s, e);
    }
  }

  lemma OwnTasksBegin(s: Sys, e: Event)
    requires T.TaskInv(s) && OwnTasks(s) && !e.Act? && !e.Fault?
    ensures OwnTasks(Next(s, e))
  {
    hide T.Dated;
  }

  lemma OwnTasksAct(s: Sys, lease: LeaseId, op: Operation, a: Answers, e: Effect, w: T.TaskWrite)
    requires T.TaskInv(s) && OwnTasks(s) && lease in s.operations && op == s.operations[lease] && KeyIsFresh(s, op, a)
    requires T.Writes(s, op, a, e, w) && T.Moves(op, e, w)
    requires KeepsTask(s, op, e)
    ensures OwnTasks(Apply(s, lease, op, e))
  {
    hide T.Dated, TaskOf, T.Claimed;
    if !w.Keeps? {
      WrittenSchedule(s, op, a, e, w);
    }
  }

  lemma WrittenSchedule(s: Sys, op: Operation, a: Answers, e: Effect, w: T.TaskWrite)
    requires T.Writes(s, op, a, e, w) && e.task.Some?
    ensures w.Adds? ==> e.task.value.1.schedule == op.job && e.task.value.1.state == Pending
    ensures w.Marks? ==> e.task.value.1.schedule == s.tasks[w.key].schedule && e.task.value.1.state != Pending
  {
  }

  /** An operation on another schedule writes only tasks of that schedule. */
  lemma StrangerWrites(s: Sys, lease: LeaseId, op: Operation, a: Answers, job: Key)
    requires T.TaskInv(s) && OwnTasks(s) && lease in s.operations && op == s.operations[lease]
    requires op.job != job && KeyIsFresh(s, op, a)
    ensures var e := Call(s, lease, op, a); e.task.Some? ==>
      var (k, row) := e.task.value;
      row.schedule != job && (k in s.tasks ==> s.tasks[k].schedule != job)
  {
    hide Call, T.Dated;
    var w := T.CallMoves(s, lease, op, a);
    CallKeepsTask(s, lease, op, a);
    if Call(s, lease, op, a).task.Some? {
      WrittenSchedule(s, op, a, Call(s, lease, op, a), w);
    }
  }

  // ----- runs that respect the lease of a schedule --------------------------------------

  /** No operation on the schedule writes a task after losing its lease. */
  ghost predicate InLease(s: Sys, e: Event, job: Key) {
    e.Act? && e.lease in s.operations && s.operations[e.lease].job == job
    && Call(s, e.lease, s.operations[e.lease], e.answers).task.Some?
    ==> Owns(s, e.lease, job)
  }

  ghost predicate RunsInLease(s: Sys, events: seq<Event>, job: Key)
    decreases |events|
  {
    events != [] ==> InLease(s, events[0], job) && RunsInLease(Next(s, events[0]), events[1..], job)
  }

  /** The invariants that every run keeps. */
  ghost predicate Sound(s: Sys) {
    LeaseInv(s) && T.TaskInv(s) && OwnTasks(s)
  }

  lemma SoundStep(s: Sys, e: Event)
    requires Sound(s)
    ensures Sound(Next(s, e))
  {
    hide LeaseInv, T.TaskInv, OwnTasks, Next;
    LeaseInvStep(s, e);
    T.TaskInvStep(s, e);
    OwnTasksStep(s, e);
  }

  ghost predicate AtMostOne(s: Sys, job: Key, state: TaskState) {
    forall k, m |
      && k in s.tasks && m in s.tasks
      && s.tasks[k].schedule == job && s.tasks[m].schedule == job
      && s.tasks[k].state == state && s.tasks[m].state == state :: k == m
  }

  /** The owner about to insert a task has seen that none is pending. */
  ghost predicate PendingOk(s: Sys, job: Key) {
    && AtMostOne(s, job, Pending)
    && forall l :: l in s.operations && Owns(s, l, job) ==>
        && (s.operations[l].pc.AddingTask? ==> !HasTaskIn(s.tasks, job, Pending))
        && (s.operations[l].pc.AddingFirstTask? ==> forall k :: k in s.tasks ==> s.tasks[k].schedule != job)
  }

  lemma CallAdds(s: Sys, lease: LeaseId, op: Operation, a: Answers)
    ensures var e := Call(s, lease, op, a);
      && (e.pc.AddingTask? ==>
            op.pc.CheckingPending? && !HasTaskIn(s.tasks, op.job, Pending) && e.task.None? && e.job.None?)
      && (e.pc.AddingFirstTask? ==> op.pc.CreatingJob? && op.job !in s.jobs && e.task.None?)
  {
    hide Leased, Released, MarkedForRepair, TakenForRepair, NewJob, HasTaskIn, NewTask, Mark.Marked, Mark.Expects;
  }

  /** An event changes the tasks of the schedule only through the operation that owns it. */
  lemma PendingStep(s: Sys, e: Event, job: Key)
    requires OwnersKnown(s) && T.TaskInv(s) && OwnTasks(s) && PendingOk(s, job) && InLease(s, e, job)
    ensures PendingOk(Next(s, e), job)
  {
    hide Call, Faulted, T.TaskInv;
    if e.Act? && e.lease in s.operations && KeyIsFresh(s, s.operations[e.lease], e.answers) {
      hide PendingOk, OwnersKnown, OwnTasks;
      var op := s.operations[e.lease];
      if op.job == job {
        PendingInside(s, e.lease, op, e.answers);
      } else {
        StrangerWrites(s, e.lease, op, e.answers, job);
        PendingOutside(s, e.lease, op, Call(s, e.lease, op, e.answers), job);
      }
    } else if e.Fault? && e.lease in s.operations {
      FaultedAddsNothing(s.operations[e.lease].pc);
    }
  }

  lemma FaultedAddsNothing(pc: Pc)
    ensures !Faulted(pc).AddingTask? && !Faulted(pc).AddingFirstTask?
  {
  }

  lemma PendingInside(s: Sys, lease: LeaseId, op: Operation, a: Answers)
    requires OwnersKnown(s) && T.TaskInv(s) && OwnTasks(s) && PendingOk(s, op.job)
    requires lease in s.operations && op == s.operations[lease] && KeyIsFresh(s, op, a)
    requires Call(s, lease, op, a).task.Some? ==> Owns(s, lease, op.job)
    ensures PendingOk(Apply(s, lease, op, Call(s, lease, op, a)), op.job)
  {
    hide Call, T.TaskInv, T.Dated;
    var e := Call(s, lease, op, a);
    var w := T.CallMoves(s, lease, op, a);
    var jw := CallWrites(s, lease, op, a);
    CallKeepsTask(s, lease, op, a);
    CallAdds(s, lease, op, a);
    if e.task.Some? {
      WrittenSchedule(s, op, a, e, w);
    }
  }

  lemma PendingOutside(s: Sys, lease: LeaseId, op: Operation, e: Effect, job: Key)
    requires OwnersKnown(s) && T.TaskInv(s) && OwnTasks(s) && PendingOk(s, job)
    requires lease in s.operations && op == s.operations[lease] && op.job != job
    requires e.task.Some? ==>
      var (k, row) := e.task.value;
      row.schedule != job && (k in s.tasks ==> s.tasks[k].schedule != job)
    ensures PendingOk(Apply(s, lease, op, e), job)
  {
    hide T.TaskInv;
  }

  /**
   A schedule never has more than one pending task, for any strategies, in every run in which no
   operation writes its tasks after losing its lease.
   */
  lemma {:induction false} AtMostOnePending(s: Sys, events: seq<Event>, job: Key)
    requires Sound(s) && PendingOk(s, job) && RunsInLease(s, events, job)
    ensures Sound(Run(s, events)) && PendingOk(Run(s, events), job) && AtMostOne(Run(s, events), job, Pending)
    decreases |events|
  {
    if events != [] {
      SoundStep(s, events[0]);
      PendingStep(s, events[0], job);
      AtMostOnePending(Next(s, events[0]), events[1..], job);
    }
  }

  // ----- at most one started task --------------------------------------------------------

  /** The owner about to call or start a job of an always-skip schedule has seen that none is started. */
  ghost predicate StartedOk(s: Sys, job: Key) {
    job in s.jobs && s.jobs[job].duplicates.AlwaysSkip? ==>
      && AtMostOne(s, job, Started)
      && forall l :: l in s.operations && Owns(s, l, job)
                     && (s.operations[l].pc.CallingJob? || s.operations[l].pc.Starting?) ==>
          !HasTaskIn(s.tasks, job, Started)
  }

  lemma CallStarts(s: Sys, lease: LeaseId, op: Operation, a: Answers)
    ensures var e := Call(s, lease, op, a);
      && (e.pc.CallingJob? ==>
            && op.job in s.jobs && e.task.None? && e.job.None?
            && (s.jobs[op.job].duplicates.AlwaysSkip? ==> !HasTaskIn(s.tasks, op.job, Started)))
      && (e.pc.Starting? ==> op.pc.CallingJob? && e.task.None? && e.job.None?)
      && (e.task.Some? && e.task.value.1.state == Started ==> op.pc.Starting?)
  {
    hide Leased, Released, MarkedForRepair, TakenForRepair, NewJob, HasTaskIn;
  }

  lemma StartedStep(s: Sys, e: Event, job: Key)
    requires OwnersKnown(s) && T.TaskInv(s) && OwnTasks(s) && StartedOk(s, job) && InLease(s, e, job)
    ensures StartedOk(Next(s, e), job)
  {
    hide Call, Faulted, T.TaskInv;
    if e.Act? && e.lease in s.operations && KeyIsFresh(s, s.operations[e.lease], e.answers) {
      hide StartedOk, OwnersKnown, OwnTasks;
      var op := s.operations[e.lease];
      if op.job == job {
        StartedInside(s, e.lease, op, e.answers);
      } else {
        StrangerWrites(s, e.lease, op, e.answers, job);
        StartedOutside(s, e.lease, op, Call(s, e.lease, op, e.answers), job);
      }
    } else if e.Fault? && e.lease in s.operations {
      FaultedStartsNothing(s.operations[e.lease].pc);
    }
  }

  lemma FaultedStartsNothing(pc: Pc)
    ensures !Faulted(pc).CallingJob? && !Faulted(pc).Starting?
  {
  }

  lemma StartedInside(s: Sys, lease: LeaseId, op: Operation, a: Answers)
    requires OwnersKnown(s) && T.TaskInv(s) && OwnTasks(s) && StartedOk(s, op.job)
    requires lease in s.operations && op == s.operations[lease] && KeyIsFresh(s, op, a)
    requires Call(s, lease, op, a).task.Some? ==> Owns(s, lease, op.job)
    ensures StartedOk(Apply(s, lease, op, Call(s, lease, op, a)), op.job)
  {
    hide Call, T.TaskInv, T.Writes, T.Moves;
    var e := Call(s, lease, op, a);
    var jw := CallWrites(s, lease, op, a);
    CallKeepsTask(s, lease, op, a);
    CallStarts(s, lease, op, a);
    if jw.Creates? {
      NoTasksYet(s, op.job);
    }
  }

  lemma NoTasksYet(s: Sys, job: Key)
    requires OwnTasks(s) && job !in s.jobs
    ensures forall k :: k in s.tasks ==> s.tasks[k].schedule != job
  {
  }

  lemma StartedOutside(s: Sys, lease: LeaseId, op: Operation, e: Effect, job: Key)
    requires OwnersKnown(s) && T.TaskInv(s) && OwnTasks(s) && StartedOk(s, job)
    requires lease in s.operations && op == s.operations[lease] && op.job != job
    requires e.task.Some? ==>
      var (k, row) := e.task.value;
      row.schedule != job && (k in s.tasks ==> s.tasks[k].schedule != job)
    ensures StartedOk(Apply(s, lease, op, e), job)
  {
    hide T.TaskInv;
  }

  /**
   Under the always-skip strategy at most one task of a schedule is started, in every run in which no
   operation writes its tasks after losing its lease.
   */
  lemma {:induction false} AtMostOneStarted(s: Sys, events: seq<Event>, job: Key)
    requires Sound(s) && StartedOk(s, job) && RunsInLease(s, events, job)
    ensures StartedOk(Run(s, events), job)
    decreases |events|
  {
    if events != [] {
      SoundStep(s, events[0]);
      StartedStep(s, events[0], job);
      AtMostOneStarted(Next(s, events[0]), events[1..], job);
    }
  }

  // ----- outside the lease --------------------------------------------------------------------

  /** An insert keeps at most one task pending exactly when none is, whatever the check before it had found. */
  lemma InsertIff(s: Sys, lease: LeaseId, a: Answers)
    requires T.TaskInv(s) && lease in s.operations && s.operations[lease].pc.AddingTask?
    requires s.operations[lease].job in s.jobs && KeyIsFresh(s, s.operations[lease], a)
    ensures AtMostOne(Next(s, Act(lease, a)), s.operations[lease].job, Pending) <==>
      !HasTaskIn(s.tasks, s.operations[lease].job, Pending)
  {
    hide ScheduleCall, RepairCall, T.Dated;
    var job, s' := s.operations[lease].job, Next(s, Act(lease, a));
    assert a.newKey !in s.tasks;
    assert s'.tasks[a.newKey].schedule == job && s'.tasks[a.newKey].state == Pending;
    if HasTaskIn(s.tasks, job, Pending) {
      var k :| k in s.tasks && s.tasks[k].schedule == job && s.tasks[k].state == Pending;
      assert s'.tasks[k] == s.tasks[k] && k != a.newKey;
    }
  }

  /** So does the mark of a queued task as started, for started tasks. */
  lemma StartIff(s: Sys, lease: LeaseId, a: Answers)
    requires lease in s.operations && s.operations[lease].pc.Starting? && s.operations[lease].job in s.jobs
    requires var k := s.operations[lease].pc.task;
      k in s.tasks && s.tasks[k].state == Queued && s.tasks[k].schedule == s.operations[lease].job
    ensures AtMostOne(Next(s, Act(lease, a)), s.operations[lease].job, Started) <==>
      !HasTaskIn(s.tasks, s.operations[lease].job, Started)
  {
    hide ScheduleCall, RepairCall, FollowUp, StartedThen;
    var job, key, s' := s.operations[lease].job, s.operations[lease].pc.task, Next(s, Act(lease, a));
    assert s'.tasks[key].schedule == job && s'.tasks[key].state == Started;
    if HasTaskIn(s.tasks, job, Started) {
      var k :| k in s.tasks && s.tasks[k].schedule == job && s.tasks[k].state == Started;
      assert s'.tasks[k] == s.tasks[k] && k != key;
    }
  }
}
