/** What becomes of a schedule whose job fails at once, or does not start. */
module FailedStarts {
  import opened Wrappers
  import opened Model
  import opened DbImpl
  import opened Protocol
  import opened LeaseSafety
  import opened PendingTasks
  import T = TaskSafety

  // ----- a job that fails at once ---------------------------------------------------

  /** A task whose failure is about to be marked has left the queue for good. */
  ghost predicate LeftQueue(s: Sys) {
    forall l :: l in s.operations && s.operations[l].pc.FailingNow? ==>
      var k := s.operations[l].pc.task;
      && k in s.used
      && (k in s.tasks ==> Rank(s.tasks[k].state) >= Rank(Started))
      && forall m :: m in s.operations ==> T.Reserved(s.operations[m].pc) != Some(k)
  }

  lemma CallFails(s: Sys, lease: LeaseId, op: Operation, a: Answers)
    ensures var e := Call(s, lease, op, a); e.pc.FailingNow? ==>
      && TaskOf(op.pc) == Some(e.pc.task) && e.task.Some? && e.task.value.0 == e.pc.task
      && e.task.value.1.state == Started && e.pc.task in s.tasks
  {
    hide Leased, Released, MarkedForRepair, TakenForRepair, NewJob, HasTaskIn;
  }

  lemma FaultedFailsNothing(pc: Pc)
    ensures !Faulted(pc).FailingNow?
  {
  }

  lemma LeftQueueStep(s: Sys, e: Event)
    requires T.TaskInv(s) && LeftQueue(s)
    ensures LeftQueue(Next(s, e))
  {
    hide Call, Faulted, T.TaskInv, T.Reserved;
    var s' := Next(s, e);
    T.TaskInvStep(s, e);
    forall l | l in s'.operations && s'.operations[l].pc.FailingNow?
      ensures var k := s'.operations[l].pc.task;
        && k in s'.used && (k in s'.tasks ==> Rank(s'.tasks[k].state) >= Rank(Started))
        && forall m :: m in s'.operations ==> T.Reserved(s'.operations[m].pc) != Some(k)
    {
      var k := s'.operations[l].pc.task;
      if e.Act? && e.lease in s.operations && KeyIsFresh(s, s.operations[e.lease], e.answers) {
        CallFails(s, e.lease, s.operations[e.lease], e.answers);
      } else if e.Fault? && e.lease in s.operations {
        FaultedFailsNothing(s.operations[e.lease].pc);
      }
      StoredIsNotReserved(s, k);
      T.ForwardStep(s, e, k);
      StoredIsNotReserved(s', k);
    }
  }

  lemma StoredIsNotReserved(s: Sys, k: Key)
    requires T.TaskInv(s)
    ensures k in s.tasks ==> k in s.used && forall m :: m in s.operations ==> T.Reserved(s.operations[m].pc) != Some(k)
  {
  }

  /**
   In every state that a run reaches, marking an immediate failure is refused: the mark expects a
   queued task, and the task was marked started before. It changes nothing and leads to repair.
   */
  lemma FailureIsRefused(s: Sys, lease: LeaseId, a: Answers)
    requires LeftQueue(s) && lease in s.operations && s.operations[lease].pc.FailingNow?
    requires s.operations[lease].job in s.jobs
    ensures var s' := Next(s, Act(lease, a));
      && s'.operations[lease].pc == MarkingRepair
      && s'.jobs == s.jobs && s'.tasks == s.tasks && s'.calls == s.calls
  {
    hide HasTaskIn, ScheduleCall, RepairCall;
  }

  // ----- a schedule that has run dry --------------------------------------------------

  /** Calls that write no task when all tasks of the schedule are finished. */
  predicate Harmless(pc: Pc) {
    || InSchedule(pc) || InRepair(pc)
    || pc.Queueing? || pc.FinishCompleting? || pc.FinishFailing?
  }

  ghost predicate AllFinished(s: Sys, job: Key) {
    forall k :: k in s.tasks && s.tasks[k].schedule == job ==> IsFinished(s.tasks[k].state)
  }

  /** All tasks of a stored schedule are finished, and no operation is about to add one. */
  ghost predicate Dry(s: Sys, job: Key) {
    && job in s.jobs
    && AllFinished(s, job)
    && forall l :: l in s.operations && s.operations[l].job == job ==> Harmless(s.operations[l].pc)
  }

  lemma DryCall(s: Sys, lease: LeaseId, op: Operation, a: Answers)
    requires OwnTasks(s) && Dry(s, op.job) && lease in s.operations && op == s.operations[lease]
    ensures var e := Call(s, lease, op, a); e.task.None? && e.call.None? && Harmless(e.pc)
  {
    hide Leased, Released, MarkedForRepair, TakenForRepair, NewJob, HasTaskIn, NewTask, Mark.Marked;
  }

  lemma FaultedIsHarmless(pc: Pc)
    ensures Harmless(Faulted(pc))
  {
  }

  lemma DryStep(s: Sys, e: Event, job: Key)
    requires Sound(s) && Dry(s, job)
    ensures Dry(Next(s, e), job)
    ensures Next(s, e).calls == s.calls ||
      exists k :: Next(s, e).calls == s.calls + [k] && (k in s.tasks ==> s.tasks[k].schedule != job)
  {
    hide Call, Faulted, T.TaskInv, LeaseInv;
    if e.Act? && e.lease in s.operations && KeyIsFresh(s, s.operations[e.lease], e.answers) {
      var op := s.operations[e.lease];
      var w := CallWrites(s, e.lease, op, e.answers);
      if op.job == job {
        DryCall(s, e.lease, op, e.answers);
      } else {
        StrangerWrites(s, e.lease, op, e.answers, job);
        var _ := T.CallMoves(s, e.lease, op, e.answers);
      }
    } else if e.Fault? && e.lease in s.operations {
      FaultedIsHarmless(s.operations[e.lease].pc);
    }
  }

  /** A dry schedule stays dry: in no run does it ever have a task to run again. */
  lemma {:induction false} DryForEver(s: Sys, events: seq<Event>, job: Key)
    requires Sound(s) && Dry(s, job)
    ensures Dry(Run(s, events), job) && !HasTaskIn(Run(s, events).tasks, job, Pending)
    decreases |events|
  {
    if events != [] {
      SoundStep(s, events[0]);
      DryStep(s, events[0], job);
      DryForEver(Next(s, events[0]), events[1..], job);
    }
  }

  /**
   A job that did not start ends its schedule: it is unlocked, not put out to pasture, and, when its
   other tasks are finished, it has run dry.
   */
  lemma NotStartedRunsDry(s: Sys, lease: LeaseId, a: Answers, b: Answers)
    requires Sound(s) && lease in s.operations
    requires s.operations[lease].pc.StartFailing? && !s.operations[lease].pc.rejected
    requires var job, task := s.operations[lease].job, s.operations[lease].pc.task;
      && Owns(s, lease, job) && task in s.tasks && s.tasks[task].state == Queued
      && (forall k :: k in s.tasks && s.tasks[k].schedule == job && k != task ==> IsFinished(s.tasks[k].state))
      && (forall l :: l in s.operations && s.operations[l].job == job && l != lease ==> Harmless(s.operations[l].pc))
    ensures var job, s' := s.operations[lease].job, Next(Next(s, Act(lease, a)), Act(lease, b));
      && Dry(s', job) && s'.jobs[job].updateState == None && !s'.jobs[job].pasture
      && s'.operations[lease].pc == Ended(Unlocked)
  {
    hide Next;
    var s1 := Next(s, Act(lease, a));
    StartErrorIsMarked(s, lease, a);
    SoundStep(s, Act(lease, a));
    ReleasedRunsDry(s1, lease, b);
  }

  lemma StartErrorIsMarked(s: Sys, lease: LeaseId, a: Answers)
    requires lease in s.operations && s.operations[lease].pc.StartFailing? && !s.operations[lease].pc.rejected
    requires s.operations[lease].job in s.jobs
    requires var task := s.operations[lease].pc.task; task in s.tasks && s.tasks[task].state == Queued
    ensures var op, task, s' := s.operations[lease], s.operations[lease].pc.task, Next(s, Act(lease, a));
      && s'.operations == s.operations[lease := op.(pc := Releasing(false, None))] && s'.jobs == s.jobs
      && task in s'.tasks && IsFinished(s'.tasks[task].state)
      && s'.tasks == s.tasks[task := s'.tasks[task]] && s'.tasks[task].schedule == s.tasks[task].schedule
  {
    hide ScheduleCall, RepairCall, HasTaskIn;
  }

  /**
   So does a job that completes within its start call, when the schedule creates its tasks after a
   finish: nothing follows up.
   */
  lemma CompletedAtOnceRunsDry(s: Sys, lease: LeaseId, a: Answers, b: Answers)
    requires Sound(s) && lease in s.operations && s.operations[lease].pc.CompletingNow?
    requires var job, task := s.operations[lease].job, s.operations[lease].pc.task;
      && Owns(s, lease, job) && s.jobs[job].creation.AfterFinish? && task in s.tasks && s.tasks[task].state == Started
      && (forall k :: k in s.tasks && s.tasks[k].schedule == job && k != task ==> IsFinished(s.tasks[k].state))
      && (forall l :: l in s.operations && s.operations[l].job == job && l != lease ==> Harmless(s.operations[l].pc))
    ensures var job, s' := s.operations[lease].job, Next(Next(s, Act(lease, a)), Act(lease, b));
      && Dry(s', job) && s'.jobs[job].updateState == None && !s'.jobs[job].pasture
      && s'.operations[lease].pc == Ended(Unlocked)
  {
    hide Next;
    var s1 := Next(s, Act(lease, a));
    CompletionIsMarked(s, lease, a);
    SoundStep(s, Act(lease, a));
    ReleasedRunsDry(s1, lease, b);
  }

  lemma CompletionIsMarked(s: Sys, lease: LeaseId, a: Answers)
    requires lease in s.operations && s.operations[lease].pc.CompletingNow?
    requires s.operations[lease].job in s.jobs && s.jobs[s.operations[lease].job].creation.AfterFinish?
    requires var task := s.operations[lease].pc.task; task in s.tasks && s.tasks[task].state == Started
    ensures var op, task, s' := s.operations[lease], s.operations[lease].pc.task, Next(s, Act(lease, a));
      && s'.operations == s.operations[lease := op.(pc := Releasing(false, None))] && s'.jobs == s.jobs
      && task in s'.tasks && IsFinished(s'.tasks[task].state)
      && s'.tasks == s.tasks[task := s'.tasks[task]] && s'.tasks[task].schedule == s.tasks[task].schedule
  {
    hide ScheduleCall, RepairCall, HasTaskIn;
  }

  lemma ReleasedRunsDry(s: Sys, lease: LeaseId, b: Answers)
    requires Sound(s) && lease in s.operations && s.operations[lease].pc == Releasing(false, None)
    requires Owns(s, lease, s.operations[lease].job) && AllFinished(s, s.operations[lease].job)
    requires forall l :: l in s.operations && s.operations[l].job == s.operations[lease].job ==>
      Harmless(s.operations[l].pc)
    ensures var job, s' := s.operations[lease].job, Next(s, Act(lease, b));
      && Dry(s', job) && s'.jobs[job].updateState == None && !s'.jobs[job].pasture
      && s'.operations[lease].pc == Ended(Unlocked)
  {
    hide WorkCall, RepairCall, T.TaskInv, OwnTasks;
  }
}
