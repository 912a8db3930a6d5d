/**
 The programs of controller/combined.ts, controller/schedule.ts and controller/repair.ts.

 Between any two store calls of a program the other nodes act, and any store call may break. Each
 program is proved to take exactly the steps of its operation in the transition system, so all that
 holds of runs holds of it.
 */
module Controllers {
  import opened Wrappers
  import opened Model
  import opened DbImpl
  import opened Protocol
  import opened DataStore
  import opened Cluster
  import opened Steps
  import FailedStarts
  import Guarantees

  // ----- calls that a program waits for ------------------------------------------------

  /** What the outside world will answer until the program waits again. */
  method Outside() returns (a: Answers) {
    a := *;
  }

  method AwaitMark(c: Cluster, lease: LeaseId, ghost op: Operation, sched: JobRow, a: Answers,
                   task: Key, mark: Mark, time: int)
    returns (ok: bool)
    requires c.At(lease, op, sched) && MarkOf(op, a) == Some((task, mark, time))
    modifies c, c.store
    ensures old(c.trace) <= c.trace
    ensures c.At(lease, op.(pc := if ok then AfterMarking(op, sched.creation, a) else MarkingRepair), sched)
  {
    hide Next, Run, Faulted, AfterMarking, MarkOf, Mark.Marked, Mark.Expects;
    c.OtherNodes(lease);
    CallMarks(c.State(), lease, op, a);
    var broken: bool := *;
    if broken {
      c.Break(lease, op);
      return false;
    }
    var before := c.State();
    ok := c.store.MarkTask(task, mark, time);
    c.Record(Act(lease, a), before);
  }

  /** `shouldSkipTask`. None when the call broke. */
  method AwaitShouldSkip(c: Cluster, lease: LeaseId, ghost op: Operation, sched: JobRow, task: Key)
    returns (skip: Option<bool>)
    requires c.At(lease, op, sched) && op.pc == CheckingStarted(task)
    modifies c, c.store
    ensures old(c.trace) <= c.trace
    ensures c.At(lease, op.(pc := match skip
                                  case Some(true) => Skipping(task)
                                  case Some(false) => CallingJob(task)
                                  case None => MarkingRepair), sched)
  {
    hide Next, Run, ScheduleCall, RepairCall;
    var a := Outside();
    c.OtherNodes(lease);
    var broken: bool := *;
    if broken {
      c.Break(lease, op);
      return None;
    }
    var before := c.State();
    var running := c.store.AnyTaskForScheduledJob(before.operations[lease].job, Started);
    var answer := match sched.duplicates
      case AlwaysSkip => running
      case AlwaysRun => false
      case Custom => a.skip;
    ActIs(before, lease, a);
    c.Record(Act(lease, a), before);
    skip := Some(answer);
  }

  /** `startJob`, the one call to another system. None when the call broke before it was made. */
  method AwaitStartJob(c: Cluster, lease: LeaseId, ghost op: Operation, sched: JobRow, task: Key)
    returns (answer: Option<JobAnswer>)
    requires c.At(lease, op, sched) && op.pc == CallingJob(task)
    modifies c, c.store
    ensures old(c.trace) <= c.trace
    ensures c.At(lease, op.(pc := if answer.Some? then JobAnswered(task, answer.value) else MarkingRepair), sched)
  {
    hide Next, Run, ScheduleCall, RepairCall, JobAnswered;
    var a := Outside();
    c.OtherNodes(lease);
    var broken: bool := *;
    if broken {
      c.Break(lease, op);
      return None;
    }
    ActIs(c.State(), lease, a);
    c.Record(Act(lease, a), c.State());
    answer := Some(a.job);
  }

  /** Whether the schedule has a pending task. None when the call broke. */
  method AwaitPending(c: Cluster, lease: LeaseId, ghost op: Operation, sched: JobRow, a: Answers)
    returns (found: Option<bool>)
    requires c.At(lease, op, sched) && op.pc.CheckingPending?
    modifies c, c.store
    ensures old(c.trace) <= c.trace
    ensures c.At(lease, op.(pc :=
      match found
      case Some(true) => if op.pc.follow then FollowUp(sched.creation, a) else Releasing(false, None)
      case Some(false) => AddingTask(op.pc.executeAt, op.pc.follow)
      case None => MarkingRepair), sched)
  {
    hide Next, Run, ScheduleCall, RepairCall, FollowUp;
    c.OtherNodes(lease);
    var broken: bool := *;
    if broken {
      c.Break(lease, op);
      return None;
    }
    var before := c.State();
    var pending := c.store.AnyTaskForScheduledJob(before.operations[lease].job, Pending);
    ActIs(before, lease, a);
    c.Record(Act(lease, a), before);
    found := Some(pending);
  }

  /** A key that was never handed out. */
  method CreatePrimaryKey(used: set<Key>) returns (k: Key)
    ensures k !in used
  {
    var larger := used;
    k := 0;
    while k in larger
      invariant larger <= used && forall j :: j in used && j !in larger ==> j < k
      decreases |larger|
    {
      larger, k := larger - {k}, k + 1;
    }
  }

  method AwaitAddTask(c: Cluster, lease: LeaseId, ghost op: Operation, sched: JobRow, a: Answers, now: int,
                      executeAt: int)
    returns (ok: bool)
    requires c.At(lease, op, sched) && op.pc.AddingTask? && op.pc.executeAt == executeAt && op.now == now
    modifies c, c.store
    ensures old(c.trace) <= c.trace
    ensures c.At(lease, op.(pc :=
      if !ok then MarkingRepair
      else if op.pc.follow then FollowUp(sched.creation, a)
      else Releasing(false, None)), sched)
  {
    hide Next, Run, ScheduleCall, RepairCall, FollowUp;
    c.OtherNodes(lease);
    var broken: bool := *;
    if broken {
      c.Break(lease, op);
      return false;
    }
    var before := c.State();
    var pk := CreatePrimaryKey(before.used);
    NeverStored(c, pk);
    var job := before.operations[lease].job;
    ok := c.store.AddTask(pk, TaskRow(job, Pending, now, executeAt, None, None, None, None, None));
    var asked := a.(newKey := pk);
    ActIs(before, lease, asked);
    SameFollowUp(sched.creation, a, asked);
    c.Record(Act(lease, asked), before);
  }

  lemma SameFollowUp(creation: Creation, a: Answers, asked: Answers)
    requires asked == a.(newKey := asked.newKey)
    ensures FollowUp(creation, asked) == FollowUp(creation, a)
  {
  }

  lemma NeverStored(c: Cluster, k: Key)
    requires c.Valid() && k !in c.used
    ensures k !in c.store.tasks
  {
    Guarantees.InitSound(0);
    Guarantees.SoundRun(Init(), c.trace);
  }

  // ----- the work inside a lease: controller/combined.ts ----------------------------------

  /** How the work inside a lease ends. */
  datatype LeaseExit = Value(pasture: bool, reason: Option<string>) | Error(invalid: bool, text: string)
  {
    /** What `runUpdateInLease` does then. */
    function Leads(): Pc {
      match this
      case Value(pasture, reason) => Releasing(pasture, reason)
      case Error(invalid, text) => if invalid then Releasing(true, Some(text)) else MarkingRepair
    }
  }

  /** Adds a task unless one is pending. False when a call failed. */
  method AddTaskDuplicateCheck(c: Cluster, lease: LeaseId, ghost op: Operation, sched: JobRow, a: Answers,
                               now: int, executeAt: int)
    returns (ok: bool)
    requires c.At(lease, op, sched) && op.pc.CheckingPending? && op.pc.executeAt == executeAt && op.now == now
    modifies c, c.store
    ensures old(c.trace) <= c.trace
    ensures c.At(lease, op.(pc :=
      if !ok then MarkingRepair
      else if op.pc.follow then FollowUp(sched.creation, a)
      else Releasing(false, None)), sched)
  {
    hide Next, Run, FollowUp;
    var found := AwaitPending(c, lease, op, sched, a);
    match found
    case None => ok := false;
    case Some(true) => ok := true;
    case Some(false) =>
      ok := AwaitAddTask(c, lease, op.(pc := AddingTask(executeAt, op.pc.follow)), sched, a, now, executeAt);
  }

  /** The last part of `startTask`. A disabling answer is dropped there. */
  method CreateAfterStart(c: Cluster, lease: LeaseId, ghost op: Operation, sched: JobRow, a: Answers, now: int)
    returns (exit: LeaseExit)
    requires c.At(lease, op, sched) && op.pc == FollowUp(sched.creation, a) && op.now == now
    modifies c, c.store
    ensures old(c.trace) <= c.trace
    ensures c.At(lease, op.(pc := exit.Leads()), sched)
  {
    hide Next, Run;
    exit := Value(false, None);
    if sched.creation.AfterStart? {
      match a.creation
      case Throws => exit := Error(a.invalid, a.text);
      case Disable =>
      case QueueAt(runAt) =>
        var ok := AddTaskDuplicateCheck(c, lease, op, sched, a, now, runAt);
        if !ok {
          exit := Error(false, "");
        }
    }
  }

  /** The last part of `taskFinished` and of `retryTask`. */
  method CreateAfterFinish(c: Cluster, lease: LeaseId, ghost op: Operation, sched: JobRow, a: Answers, now: int)
    returns (exit: LeaseExit)
    requires c.At(lease, op, sched) && op.pc == FinishUp(sched.creation, true, a) && op.now == now
    modifies c, c.store
    ensures old(c.trace) <= c.trace
    ensures c.At(lease, op.(pc := exit.Leads()), sched)
  {
    hide Next, Run;
    exit := Value(false, None);
    if sched.creation.AfterFinish? {
      match a.creation
      case Throws => exit := Error(a.invalid, a.text);
      case Disable => exit := Value(true, None);
      case QueueAt(runAt) =>
        var ok := AddTaskDuplicateCheck(c, lease, op, sched, a, now, runAt);
        if !ok {
          exit := Error(false, "");
        }
    }
  }

  method RetryTask(c: Cluster, lease: LeaseId, ghost op: Operation, sched: JobRow, a: Answers, now: int)
    returns (exit: LeaseExit)
    requires c.At(lease, op, sched) && op.pc == RetryUp(sched.creation, now, false, a) && op.now == now
    modifies c, c.store
    ensures old(c.trace) <= c.trace
    ensures c.At(lease, op.(pc := exit.Leads()), sched)
  {
    hide Next, Run;
    match a.retry
    case None => exit := CreateAfterFinish(c, lease, op, sched, a, now);
    case Some(seconds) =>
      var ok := AddTaskDuplicateCheck(c, lease, op, sched, a, now, now + 1000 * seconds);
      exit := if ok then Value(false, None) else Error(false, "");
  }

  /** What `startTask` does inside the lease. */
  method StartTaskInLease(c: Cluster, lease: LeaseId, ghost op: Operation, sched: JobRow, task: Key, now: int)
    returns (exit: LeaseExit)
    requires c.At(lease, op, sched) && op.pc == Queueing(task) && op.now == now
    modifies c, c.store
    ensures old(c.trace) <= c.trace
    ensures c.At(lease, op.(pc := exit.Leads()), sched)
  {
    hide Next, Run;
    exit := Error(false, "");
    var a := Outside();
    var ok := AwaitMark(c, lease, op, sched, a, task, MarkQueued, now);
    if ok {
      var skip := AwaitShouldSkip(c, lease, op.(pc := CheckingStarted(task)), sched, task);
      match skip
      case None =>
      case Some(true) => exit := SkipTask(c, lease, op.(pc := Skipping(task)), sched, task, now);
      case Some(false) =>
        var answer := AwaitStartJob(c, lease, op.(pc := CallingJob(task)), sched, task);
        if answer.Some? {
          exit := StartAnswered(c, lease, op.(pc := JobAnswered(task, answer.value)), sched, task, answer.value, now);
        }
    }
  }

  method SkipTask(c: Cluster, lease: LeaseId, ghost op: Operation, sched: JobRow, task: Key, now: int)
    returns (exit: LeaseExit)
    requires c.At(lease, op, sched) && op.pc == Skipping(task) && op.now == now
    modifies c, c.store
    ensures old(c.trace) <= c.trace
    ensures c.At(lease, op.(pc := exit.Leads()), sched)
  {
    hide Next, Run, FollowUp;
    exit := Error(false, "");
    var a := Outside();
    var ok := AwaitMark(c, lease, op, sched, a, task, MarkSkipped, a.time);
    if ok {
      exit := CreateAfterStart(c, lease, op.(pc := FollowUp(sched.creation, a)), sched, a, now);
    }
  }

  /** What it does with the job framework's answer. */
  method StartAnswered(c: Cluster, lease: LeaseId, ghost op: Operation, sched: JobRow, task: Key, answer: JobAnswer,
                       now: int)
    returns (exit: LeaseExit)
    requires c.At(lease, op, sched) && op.pc == JobAnswered(task, answer) && op.now == now
    modifies c, c.store
    ensures old(c.trace) <= c.trace
    ensures c.At(lease, op.(pc := exit.Leads()), sched)
  {
    hide Next, Run;
    exit := Error(false, "");
    var a := Outside();
    match answer
    case JobCompleted(job) =>
      var ok := AwaitMark(c, lease, op, sched, a, task, MarkStarted(job), a.time);
      if ok {
        a := Outside();
        ok := AwaitMark(c, lease, op.(pc := CompletingNow(task)), sched, a, task, MarkCompleted(a.text), a.time);
        if ok {
          exit := CreateAfterStart(c, lease, op.(pc := FollowUp(sched.creation, a)), sched, a, now);
        }
      }
    case JobDidNotStart =>
      var ok := AwaitMark(c, lease, op, sched, a, task, MarkStartFailed(a.text), a.time);
      if ok {
        exit := Value(false, None);
      }
    case JobFailed(job) =>
      var ok := AwaitMark(c, lease, op, sched, a, task, MarkStarted(job), a.time);
      if ok {
        // The task is marked started by now, so this mark is refused and no retry follows.
        FailNow(c, lease, op.(pc := FailingNow(task)), sched, task);
      }
    case JobRunning(job) =>
      var ok := AwaitMark(c, lease, op, sched, a, task, MarkStarted(job), a.time);
      if ok {
        exit := CreateAfterStart(c, lease, op.(pc := FollowUp(sched.creation, a)), sched, a, now);
      }
    case JobUnknown =>
    case JobRejected =>
      var _ := AwaitMark(c, lease, op, sched, a, task, MarkStartFailed(a.text), a.time);
  }

  method FailNow(c: Cluster, lease: LeaseId, ghost op: Operation, sched: JobRow, task: Key)
    requires c.At(lease, op, sched) && op.pc == FailingNow(task)
    modifies c, c.store
    ensures old(c.trace) <= c.trace
    ensures c.At(lease, op.(pc := MarkingRepair), sched)
  {
    hide Next, Run, ScheduleCall, RepairCall, RetryUp;
    var a := Outside();
    c.OtherNodes(lease);
    var broken: bool := *;
    if broken {
      c.Break(lease, op);
      return;
    }
    var before := c.State();
    Guarantees.ImmediateFailuresGoToRepair(c.trace, lease, a);
    var ok := c.store.MarkTask(task, MarkFailed(Queued, TaskState.Failed, a.text), a.time);
    ActIs(before, lease, a);
    c.Record(Act(lease, a), before);
  }

  /** What `taskFinished` does inside the lease. */
  method FinishTaskInLease(c: Cluster, lease: LeaseId, ghost op: Operation, sched: JobRow, task: Key, report: JobReport,
                           now: int)
    returns (exit: LeaseExit)
    requires c.At(lease, op, sched) && op.pc == FirstCall(Finish(task, report)) && op.now == now
    modifies c, c.store
    ensures old(c.trace) <= c.trace
    ensures c.At(lease, op.(pc := exit.Leads()), sched)
  {
    hide Next, Run;
    exit := Error(false, "");
    var a := Outside();
    match report
    case Failing =>
      var ok := AwaitMark(c, lease, op, sched, a, task, MarkFailed(Started, CompleteError, a.text), now);
      if ok {
        exit := RetryTask(c, lease, op.(pc := RetryUp(sched.creation, now, false, a)), sched, a, now);
      }
    case Succeeded =>
      var ok := AwaitMark(c, lease, op, sched, a, task, MarkCompleted(a.text), now);
      if ok {
        exit := CreateAfterFinish(c, lease, op.(pc := FinishUp(sched.creation, true, a)), sched, a, now);
      }
    case Unreadable =>
  }
}
