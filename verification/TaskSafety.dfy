/** What holds of tasks and of the calls to the job framework, over every interleaving. */
module TaskSafety {
  import opened Wrappers
  import opened Model
  import opened DbImpl
  import opened Protocol

  // ----- what a call does to the tasks -----------------------------------------

  /** The key of a task that is not created yet. */
  function Reserved(pc: Pc): Option<Key> {
    match pc
    case CreatingJob(first, _, _) => Some(first)
    case AddingFirstTask(first) => Some(first)
    case _ => None
  }

  /** The task that an operation has queued and may still start. */
  function Claimed(pc: Pc): Option<Key> {
    match pc
    case CheckingStarted(task) => Some(task)
    case CallingJob(task) => Some(task)
    case _ => None
  }

  datatype TaskWrite = Keeps | Adds(key: Key, executeAt: int) | Marks(key: Key, mark: Mark, time: int)

  /** The failures that the controllers mark. */
  predicate InUse(mark: Mark) {
    mark.MarkFailed? ==>
      (mark.expected == Started && mark.failed == CompleteError)
      || (mark.expected == Queued && mark.failed == TaskState.Failed)
  }

  ghost predicate Writes(s: Sys, op: Operation, a: Answers, e: Effect, w: TaskWrite) {
    match w
    case Keeps => e.task.None?
    case Adds(k, at) =>
      && e.task == Some((k, NewTask(op.job, op.now, at))) && Claimed(e.pc).None? && e.call.None?
      && (if op.pc.AddingTask? then k == a.newKey else op.pc == AddingFirstTask(k) && k !in s.tasks)
    case Marks(k, mark, time) =>
      && k in s.tasks && s.tasks[k].state == mark.Expects() && e.task == Some((k, mark.Marked(s.tasks[k], time)))
      && e.call.None?
      && InUse(mark) && !op.pc.AddingTask?
      && (mark.MarkQueued? ==> op.pc == Queueing(k))
  }

  ghost predicate Moves(op: Operation, e: Effect, w: TaskWrite) {
    && (Reserved(e.pc).Some? ==> Reserved(op.pc) == Reserved(e.pc))
    && (Reserved(e.pc).Some? ==> w.Keeps?)
    && (e.call.Some? ==> Claimed(op.pc) == e.call && Claimed(e.pc).None?)
    && (Claimed(e.pc).Some? ==>
          || (Claimed(op.pc) == Claimed(e.pc) && w.Keeps?)
          || (w.Marks? && w.mark.MarkQueued? && Claimed(e.pc) == Some(w.key)))
  }

  lemma CallMoves(s: Sys, lease: LeaseId, op: Operation, a: Answers) returns (w: TaskWrite)
    ensures Writes(s, op, a, Call(s, lease, op, a), w) && Moves(op, Call(s, lease, op, a), w)
  {
    hide WorkCall, Writes, Moves;
    if op.job !in s.jobs || InSchedule(op.pc) || InRepair(op.pc) {
      ElsewhereMoves(s, lease, op, a);
      w := Keeps;
    } else {
      hide ScheduleCall, RepairCall, CallWithoutJob;
      w := WorkMoves(s, s.jobs[op.job], op, a);
    }
  }

  /** Only the in-lease work writes tasks and calls jobs. */
  lemma ElsewhereMoves(s: Sys, lease: LeaseId, op: Operation, a: Answers)
    requires op.job !in s.jobs || InSchedule(op.pc) || InRepair(op.pc)
    ensures Writes(s, op, a, Call(s, lease, op, a), Keeps) && Moves(op, Call(s, lease, op, a), Keeps)
  {
    hide Leased, Released, MarkedForRepair, TakenForRepair, NewJob, HasTaskIn, WorkCall;
  }

  lemma WorkMoves(s: Sys, row: JobRow, op: Operation, a: Answers) returns (w: TaskWrite)
    requires !InSchedule(op.pc) && !InRepair(op.pc)
    ensures Writes(s, op, a, WorkCall(s, row, op, a), w) && Moves(op, WorkCall(s, row, op, a), w)
  {
    hide HasTaskIn, NewTask, Mark.Marked;
    var e := WorkCall(s, row, op, a);
    if e.task.None? {
      w := Keeps;
    } else {
      var k := e.task.value.0;
      match op.pc
      case AddingFirstTask(first) => w := Adds(k, a.time);
      case AddingTask(at, follow) => w := Adds(k, at);
      case Queueing(_) => w := Marks(k, MarkQueued, op.now);
      case Skipping(_) => w := Marks(k, MarkSkipped, a.time);
      case Starting(_, job, _) => w := Marks(k, MarkStarted(job), a.time);
      case CompletingNow(_) => w := Marks(k, MarkCompleted(a.text), a.time);
      case FailingNow(_) => w := Marks(k, MarkFailed(Queued, TaskState.Failed, a.text), a.time);
      case StartFailing(_, _) => w := Marks(k, MarkStartFailed(a.text), a.time);
      case FinishCompleting(_) => w := Marks(k, MarkCompleted(a.text), op.now);
      case FinishFailing(_) => w := Marks(k, MarkFailed(Started, CompleteError, a.text), op.now);
    }
  }

  // ----- tasks only move forward -------------------------------------------------

  /** What the timestamps of a row say about its state. */
  predicate Dated(row: TaskRow) {
    && (row.executionQueued.None? <==> row.state == Pending)
    && (row.executionFinished.Some? <==>
          row.state == Completed || row.state == CompleteError || row.state == TaskState.Failed)
    && (row.state == Started || row.state == StartError || row.state == CompleteError ==> row.executionStarted.Some?)
    && row.state != CompleteQueued && row.state != FailRestarted
  }

  /** Rows, reserved keys and called tasks all use handed-out keys; a reserved key has no row. */
  ghost predicate TaskInv(s: Sys) {
    && (forall k :: k in s.tasks ==> k in s.used && Dated(s.tasks[k]))
    && (forall l :: l in s.operations && Reserved(s.operations[l].pc).Some? ==>
          Reserved(s.operations[l].pc).value in s.used && Reserved(s.operations[l].pc).value !in s.tasks)
    && (forall l, m :: l in s.operations && m in s.operations && l != m && Reserved(s.operations[l].pc).Some? ==>
          Reserved(s.operations[l].pc) != Reserved(s.operations[m].pc))
  }

  lemma TaskInvStep(s: Sys, e: Event)
    requires TaskInv(s)
    ensures TaskInv(Next(s, e))
  {
    hide Call, Faulted, NewTask, Mark.Marked, Mark.Expects, Dated;
    if e.Act? && e.lease in s.operations && KeyIsFresh(s, s.operations[e.lease], e.answers) {
      var op := s.operations[e.lease];
      var w := CallMoves(s, e.lease, op, e.answers);
      if !w.Keeps? {
        WritesAreDated(s, op, e.answers, Call(s, e.lease, op, e.answers), w);
      }
    } else if e.Fault? && e.lease in s.operations {
      FaultedReservesNothing(s.operations[e.lease].pc);
    } else if !e.Act? && !e.Fault? {
      TaskInvBegin(s, e);
    }
  }

  lemma TaskInvBegin(s: Sys, e: Event)
    requires TaskInv(s) && !e.Act? && !e.Fault?
    ensures TaskInv(Next(s, e))
  {
    hide Dated;
  }

  lemma FaultedReservesNothing(pc: Pc)
    ensures Reserved(Faulted(pc)).None? && Claimed(Faulted(pc)).None?
  {
  }

  lemma WritesAreDated(s: Sys, op: Operation, a: Answers, e: Effect, w: TaskWrite)
    requires TaskInv(s) && Writes(s, op, a, e, w) && e.task.Some?
    ensures Dated(e.task.value.1)
  {
  }

  lemma {:induction false} TaskInvRun(s: Sys, events: seq<Event>)
    requires TaskInv(s)
    ensures TaskInv(Run(s, events))
    decreases |events|
  {
    if events != [] {
      TaskInvStep(s, events[0]);
      TaskInvRun(Next(s, events[0]), events[1..]);
    }
  }

  /** The later of two states of one task. */
  predicate MovedForward(before: TaskRow, after: TaskRow) {
    && before.schedule == after.schedule
    && before.createdOn == after.createdOn && before.executeAt == after.executeAt
    && (before == after || Rank(before.state) < Rank(after.state))
    && (IsFinished(before.state) ==> before == after)
  }

  lemma ForwardStep(s: Sys, e: Event, k: Key)
    requires TaskInv(s) && k in s.used
    ensures k in Next(s, e).used
    ensures k in s.tasks && k in Next(s, e).tasks ==> MovedForward(s.tasks[k], Next(s, e).tasks[k])
    ensures k !in s.tasks && (forall l :: l in s.operations ==> Reserved(s.operations[l].pc) != Some(k)) ==>
      && k !in Next(s, e).tasks
      && forall l :: l in Next(s, e).operations ==> Reserved(Next(s, e).operations[l].pc) != Some(k)
  {
    hide Call, Faulted, NewTask;
    if e.Act? && e.lease in s.operations && KeyIsFresh(s, s.operations[e.lease], e.answers) {
      var op := s.operations[e.lease];
      var w := CallMoves(s, e.lease, op, e.answers);
    } else if e.Fault? && e.lease in s.operations {
      FaultedReservesNothing(s.operations[e.lease].pc);
    }
  }

  /**
   In any run a task only moves forward: a changed row has a higher rank, a finished row never
   changes, and a deleted task does not come back.
   */
  lemma {:induction false} ForwardRun(s: Sys, events: seq<Event>, k: Key)
    requires TaskInv(s) && k in s.used
    ensures k in s.tasks && k in Run(s, events).tasks ==> MovedForward(s.tasks[k], Run(s, events).tasks[k])
    ensures k !in s.tasks && (forall l :: l in s.operations ==> Reserved(s.operations[l].pc) != Some(k)) ==>
      k !in Run(s, events).tasks
    decreases |events|
  {
    if events != [] {
      TaskInvStep(s, events[0]);
      ForwardStep(s, events[0], k);
      ForwardRun(Next(s, events[0]), events[1..], k);
    }
  }

  // ----- each job is called at most once ---------------------------------------------

  ghost predicate NoRepeats(keys: seq<Key>) {
    forall i, j :: 0 <= i < j < |keys| ==> keys[i] != keys[j]
  }

  /** A called or claimed task is not pending, and a claim is exclusive and not called yet. */
  ghost predicate OnceInv(s: Sys) {
    && NoRepeats(s.calls)
    && (forall k :: k in s.calls ==> k in s.used && (k in s.tasks ==> s.tasks[k].state != Pending))
    && (forall l :: l in s.operations && Claimed(s.operations[l].pc).Some? ==>
          var k := Claimed(s.operations[l].pc).value;
          k in s.used && k !in s.calls && (k in s.tasks ==> s.tasks[k].state != Pending))
    && (forall l, m :: l in s.operations && m in s.operations && l != m && Claimed(s.operations[l].pc).Some? ==>
          Claimed(s.operations[l].pc) != Claimed(s.operations[m].pc))
    && (forall l :: l in s.operations && Reserved(s.operations[l].pc).Some? ==>
          var k := Reserved(s.operations[l].pc).value;
          k !in s.calls && forall m :: m in s.operations ==> Claimed(s.operations[m].pc) != Some(k))
  }

  lemma OnceInvStep(s: Sys, e: Event)
    requires TaskInv(s) && OnceInv(s)
    ensures OnceInv(Next(s, e))
  {
    hide Call, Faulted, Dated;
    if e.Act? && e.lease in s.operations && KeyIsFresh(s, s.operations[e.lease], e.answers) {
      var op := s.operations[e.lease];
      var w := CallMoves(s, e.lease, op, e.answers);
      OnceInvAct(s, e.lease, op, e.answers, Call(s, e.lease, op, e.answers), w);
    } else if e.Fault? && e.lease in s.operations {
      FaultedReservesNothing(s.operations[e.lease].pc);
    } else if !e.Act? && !e.Fault? {
      OnceInvBegin(s, e);
    }
  }

  lemma OnceInvBegin(s: Sys, e: Event)
    requires TaskInv(s) && OnceInv(s) && !e.Act? && !e.Fault?
    ensures OnceInv(Next(s, e))
  {
    hide TaskInv, Begin;
    match e
    case BeginCreate(lease, job, first, creation, duplicates, now, leaseTime) =>
      if job !in s.used && first !in s.used && lease !in s.operations {
        var op := Operation(job, now, leaseTime, CreatingJob(first, creation, duplicates));
        BeginKeepsOnce(s, lease, op, {job, first});
      }
    case BeginTask(lease, work, now, leaseTime, retries) =>
      if work.UpdateTask().Some? && work.task in s.tasks {
        BeginKeepsOnce(s, lease, Operation(s.tasks[work.task].schedule, now, leaseTime, Leasing(work, retries)), {});
        assert s.used + {} == s.used;
      }
    case BeginDisable(lease, job, reason, now, leaseTime, retries) =>
      BeginKeepsOnce(s, lease, Operation(job, now, leaseTime, Leasing(DisableJob(reason), retries)), {});
      assert s.used + {} == s.used;
    case BeginRepair(lease, job, now, leaseTime) =>
      BeginKeepsOnce(s, lease, Operation(job, now, leaseTime, RepairReading), {});
      assert s.used + {} == s.used;
    case DeleteFinished(task) => FewerTasksKeepOnce(s, task);
  }

  lemma BeginKeepsOnce(s: Sys, lease: LeaseId, op: Operation, keys: set<Key>)
    requires TaskInv(s) && OnceInv(s) && Claimed(op.pc).None?
    requires Reserved(op.pc).Some? ==> Reserved(op.pc).value in keys && Reserved(op.pc).value !in s.used
    ensures OnceInv(Begin(s.(used := s.used + keys), lease, op))
  {
    hide Dated, Reserved, Claimed;
    if lease !in s.operations {
      var s' := Begin(s.(used := s.used + keys), lease, op);
      assert forall l :: l in s'.operations && Claimed(s'.operations[l].pc).Some? ==>
        l in s.operations && s'.operations[l] == s.operations[l];
    }
  }

  lemma FewerTasksKeepOnce(s: Sys, task: Key)
    requires OnceInv(s)
    ensures OnceInv(s.(tasks := s.tasks - {task}))
  {
    hide Reserved, Claimed;
  }

  lemma OnceInvAct(s: Sys, lease: LeaseId, op: Operation, a: Answers, e: Effect, w: TaskWrite)
    requires TaskInv(s) && OnceInv(s) && lease in s.operations && op == s.operations[lease]
    requires KeyIsFresh(s, op, a) && Writes(s, op, a, e, w) && Moves(op, e, w)
    ensures OnceInv(Apply(s, lease, op, e))
  {
    hide Dated, Mark.Marked, Mark.Expects, NewTask;
    match w
    case Keeps =>
    case Adds(k, at) =>
      AddedIsPending(op, at);
      assert k !in s.calls;
    case Marks(k, mark, time) =>
      MarkedIsNotPending(s.tasks[k], mark, time);
      assert mark.MarkQueued? ==> s.tasks[k].state == Pending by {
        if mark.MarkQueued? {
          QueuedWasPending(mark);
        }
      }
  }

  lemma AddedIsPending(op: Operation, at: int)
    ensures NewTask(op.job, op.now, at).state == Pending
  {
  }

  lemma MarkedIsNotPending(row: TaskRow, mark: Mark, time: int)
    requires InUse(mark)
    ensures mark.Marked(row, time).state != Pending
  {
  }

  lemma QueuedWasPending(mark: Mark)
    requires mark.MarkQueued?
    ensures mark.Expects() == Pending
  {
  }

  /**
   `startJob` is called at most once for any task, over every interleaving of any number of
   operations, whatever leases expire and are taken.
   */
  lemma {:induction false} JobsStartAtMostOnce(s: Sys, events: seq<Event>)
    requires TaskInv(s) && OnceInv(s)
    ensures OnceInv(Run(s, events)) && NoRepeats(Run(s, events).calls)
    decreases |events|
  {
    if events != [] {
      TaskInvStep(s, events[0]);
      OnceInvStep(s, events[0]);
      JobsStartAtMostOnce(Next(s, events[0]), events[1..]);
    }
  }
}
