/**
 When a schedule that creates its next task after a finish stops: it is unlocked while none of its tasks
 is pending or started. In runs with task writes under the lease that is so exactly if they are not orderly.
 */
module StoppedSchedules {
  import opened Wrappers
  import opened Model
  import opened DbImpl
  import opened Protocol
  import opened LeaseSafety
  import opened PendingTasks
  import opened Steps
  import K = SchedulesKeepGoing
  import T = TaskSafety

  predicate IsLive(row: TaskRow, job: Key) {
    row.schedule == job && (row.state == Pending || row.state == Started)
  }

  /** A task of the schedule is pending or started. */
  ghost predicate Live(tasks: map<Key, TaskRow>, job: Key) {
    exists k :: k in tasks && IsLive(tasks[k], job)
  }

  /** And not only this one. */
  ghost predicate LiveBeside(tasks: map<Key, TaskRow>, job: Key, k: Key) {
    exists m :: m in tasks && m != k && IsLive(tasks[m], job)
  }

  ghost predicate AfterFinished(s: Sys, job: Key) {
    job in s.jobs && s.jobs[job].creation.AfterFinish?
  }

  ghost predicate Stopped(s: Sys, job: Key) {
    AfterFinished(s, job) && s.jobs[job].updateState.None? && !Live(s.tasks, job)
  }

  ghost predicate NeverStopped(s: Sys, events: seq<Event>, job: Key)
    decreases |events|
  {
    !Stopped(s, job) && (events != [] ==> NeverStopped(Next(s, events[0]), events[1..], job))
  }

  // ----- orderly runs -----------------------------------------------------------------------------

  /** The owner is on the way to a task that is pending or started. */
  predicate Bringing(pc: Pc) {
    || pc.AddingFirstTask? || pc.CheckingStarted? || pc.CallingJob? || pc.Starting?
    || pc.CheckingPending? || pc.AddingTask?
  }

  /** The task is started, and no other is pending or started: with it the schedule would stop. */
  ghost predicate LastLive(tasks: map<Key, TaskRow>, job: Key, k: Key) {
    k in tasks && tasks[k].state == Started && !LiveBeside(tasks, job, k)
  }

  /**
   What the owner is answered. While nothing is pending or started, a creation gets a date, and a start is
   neither skipped nor refused. The last task that is started does not complete within its start, and its
   finish is followed by a retry or a date.
   */
  ghost predicate Answered(s: Sys, op: Operation, a: Answers)
    requires op.job in s.jobs
  {
    match op.pc
    case AddingFirstTask(_) => !a.creation.Throws? || Live(s.tasks, op.job)
    case CheckingStarted(_) => s.jobs[op.job].duplicates.Custom? && a.skip ==> Live(s.tasks, op.job)
    case CallingJob(_) => a.job.JobCompleted? || a.job.JobRunning? || a.job.JobFailed? || Live(s.tasks, op.job)
    case CompletingNow(k) => !LastLive(s.tasks, op.job, k)
    case FinishCompleting(k) => LastLive(s.tasks, op.job, k) ==> a.creation.QueueAt?
    case FinishFailing(k) => LastLive(s.tasks, op.job, k) ==> a.retry.Some? || a.creation.QueueAt?
    case _ => true
  }

  ghost predicate Owes(s: Sys, lease: LeaseId, job: Key) {
    lease in s.operations && Bringing(s.operations[lease].pc) && !Live(s.tasks, job)
  }

  /** Nor does an owner on the way to such a task, while there is none, break or outlive its lease. */
  ghost predicate Orderly(s: Sys, e: Event, job: Key) {
    AfterFinished(s, job) ==>
      && (e.Act? && e.lease in s.operations && Owns(s, e.lease, job) && s.operations[e.lease].job == job ==>
            Answered(s, s.operations[e.lease], e.answers))
      && (e.Fault? && Owns(s, e.lease, job) ==> !Owes(s, e.lease, job))
      && (K.TakesOver(s, e, job) && s.jobs[job].leaseOwner.Some? ==> !Owes(s, s.jobs[job].leaseOwner.value, job))
  }

  ghost predicate RunsOrderly(s: Sys, events: seq<Event>, job: Key)
    decreases |events|
  {
    events != [] ==> Orderly(s, events[0], job) && RunsOrderly(Next(s, events[0]), events[1..], job)
  }

  // ----- what they keep ------------------------------------------------------------------------------

  /** The task of a start is still queued. */
  ghost predicate OnTrack(tasks: map<Key, TaskRow>, pc: Pc) {
    match pc
    case CheckingStarted(k) => k in tasks && tasks[k].state == Queued
    case CallingJob(k) => k in tasks && tasks[k].state == Queued
    case Starting(k, _, _) => k in tasks && tasks[k].state == Queued
    case _ => true
  }

  ghost predicate GoesOn(s: Sys, job: Key) {
    AfterFinished(s, job) ==>
      && (s.jobs[job].updateState.None? ==> Live(s.tasks, job))
      && forall l :: l in s.operations && Owns(s, l, job) ==>
          (Bringing(s.operations[l].pc) || Live(s.tasks, job)) && OnTrack(s.tasks, s.operations[l].pc)
  }

  /** A write of a task brings one to life, or takes the only one away, or changes nothing about that. */
  lemma LiveAfter(tasks: map<Key, TaskRow>, job: Key, k: Key, row: TaskRow)
    ensures Live(tasks[k := row], job) <==> LiveBeside(tasks, job, k) || IsLive(row, job)
    ensures Live(tasks, job) <==> LiveBeside(tasks, job, k) || (k in tasks && IsLive(tasks[k], job))
  {
    assert forall m :: m in tasks && m != k ==> tasks[k := row][m] == tasks[m];
    if LiveBeside(tasks, job, k) {
      var m :| m in tasks && m != k && IsLive(tasks[m], job);
      assert tasks[k := row][m] == tasks[m];
    }
    if IsLive(row, job) {
      assert tasks[k := row][k] == row;
    }
  }

  /** On the way out, nothing more will be pending or started. */
  predicate Leaving(pc: Pc) {
    || pc.Releasing? || pc.MarkingRepair? || pc.Ended? || pc.RepairLooking? || pc.RepairChecking?
    || pc.RepairReleasing? || pc.RepairReleasingAgain? || pc.StartFailing? || pc.Skipping?
  }

  /** Where one call of the owner leads. */
  ghost predicate WellLed(s: Sys, op: Operation, e: Effect) {
    && OnTrack(K.TasksAfter(s, e), e.pc)
    && (Bringing(e.pc) || Live(K.TasksAfter(s, e), op.job))
  }

  ghost predicate BadlyLed(s: Sys, op: Operation, e: Effect) {
    Leaving(e.pc) && !Live(K.TasksAfter(s, e), op.job)
  }

  lemma WorkLeads(s: Sys, row: JobRow, op: Operation, a: Answers)
    requires op.job in s.jobs && row == s.jobs[op.job] && row.creation.AfterFinish?
    requires !InSchedule(op.pc) && !InRepair(op.pc)
    requires (Bringing(op.pc) || Live(s.tasks, op.job)) && OnTrack(s.tasks, op.pc)
    requires TaskOf(op.pc).Some? && TaskOf(op.pc).value in s.tasks ==> s.tasks[TaskOf(op.pc).value].schedule == op.job
    requires op.pc.AddingFirstTask? ==> op.pc.first !in s.tasks
    requires op.pc.AddingTask? ==> a.newKey !in s.tasks
    ensures var e := WorkCall(s, row, op, a);
      if Answered(s, op, a) then WellLed(s, op, e) else BadlyLed(s, op, e)
  {
    hide HasTaskIn, Live, LiveBeside;
    var e := WorkCall(s, row, op, a);
    if e.task.Some? {
      LiveAfter(s.tasks, op.job, e.task.value.0, e.task.value.1);
    }
    FoundIsLive(s.tasks, op.job);
  }

  lemma FoundIsLive(tasks: map<Key, TaskRow>, job: Key)
    ensures HasTaskIn(tasks, job, Pending) || HasTaskIn(tasks, job, Started) ==> Live(tasks, job)
  {
    if HasTaskIn(tasks, job, Pending) {
      var k :| k in tasks && tasks[k].schedule == job && tasks[k].state == Pending;
      assert IsLive(tasks[k], job);
    }
    if HasTaskIn(tasks, job, Started) {
      var k :| k in tasks && tasks[k].schedule == job && tasks[k].state == Started;
      assert IsLive(tasks[k], job);
    }
  }

  /** The calls around the work leave the tasks alone. */
  lemma OtherLeads(s: Sys, lease: LeaseId, op: Operation, a: Answers)
    requires Sound(s) && lease in s.operations && op == s.operations[lease] && Owns(s, lease, op.job)
    requires InSchedule(op.pc) || InRepair(op.pc)
    ensures var e := Call(s, lease, op, a);
      e.task.None? && !Bringing(e.pc) && OnTrack(s.tasks, e.pc) && Answered(s, op, a)
  {
    hide Leased, Released, MarkedForRepair, TakenForRepair, NewJob, HasTaskIn, WorkCall, T.TaskInv, OwnTasks;
  }

  /** What one call of the owner leads to. */
  lemma OwnerLeads(s: Sys, lease: LeaseId, op: Operation, a: Answers)
    requires Sound(s) && lease in s.operations && op == s.operations[lease] && KeyIsFresh(s, op, a)
    requires Owns(s, lease, op.job) && AfterFinished(s, op.job) && GoesOn(s, op.job)
    ensures var e := Call(s, lease, op, a);
      if Answered(s, op, a) then WellLed(s, op, e) else BadlyLed(s, op, e)
  {
    hide WorkCall, HasTaskIn, Live, LiveBeside, LeaseInv, T.Dated, WellLed, BadlyLed, Answered;
    if InSchedule(op.pc) || InRepair(op.pc) {
      hide Call;
      OtherLeads(s, lease, op, a);
      OtherIsLive(s, op, Call(s, lease, op, a));
    } else {
      WorkLeads(s, s.jobs[op.job], op, a);
    }
  }

  lemma OtherIsLive(s: Sys, op: Operation, e: Effect)
    requires (Bringing(op.pc) || Live(s.tasks, op.job)) && (InSchedule(op.pc) || InRepair(op.pc))
    requires e.task.None? && OnTrack(s.tasks, e.pc)
    ensures WellLed(s, op, e)
  {
  }

  // ----- one event --------------------------------------------------------------------------------------

  lemma LiveStays(before: map<Key, TaskRow>, after: map<Key, TaskRow>, job: Key)
    requires forall k :: k in before && IsLive(before[k], job) ==> k in after && after[k] == before[k]
    ensures Live(before, job) ==> Live(after, job)
  {
    if Live(before, job) {
      var k :| k in before && IsLive(before[k], job);
      assert IsLive(after[k], job);
    }
  }

  /** A run of an operation on another schedule, or of one without the lease, changes nothing that is live. */
  lemma OutsideLeads(s: Sys, lease: LeaseId, op: Operation, e: Effect, job: Key)
    requires e.task.Some? ==>
      var (k, row) := e.task.value;
      row.schedule != job && (k in s.tasks ==> s.tasks[k].schedule != job)
    ensures Live(K.TasksAfter(s, e), job) <==> Live(s.tasks, job)
  {
    LiveStays(s.tasks, K.TasksAfter(s, e), job);
    LiveStays(K.TasksAfter(s, e), s.tasks, job);
  }

  lemma GoesOnStep(s: Sys, e: Event, job: Key)
    requires Sound(s) && GoesOn(s, job) && InLease(s, e, job) && Orderly(s, e, job)
    ensures GoesOn(Next(s, e), job)
  {
    hide Call, Faulted, T.TaskInv, Bringing, Answered, Live;
    if e.Act? && e.lease in s.operations && KeyIsFresh(s, s.operations[e.lease], e.answers) {
      var op := s.operations[e.lease];
      var eff := Call(s, e.lease, op, e.answers);
      var jw := CallWrites(s, e.lease, op, e.answers);
      CallKeepsTask(s, e.lease, op, e.answers);
      if op.job != job {
        StrangerWrites(s, e.lease, op, e.answers, job);
        StrangerGoesOn(s, e.lease, op, eff, job);
      } else if Owns(s, e.lease, job) {
        if AfterFinished(s, job) {
          OwnerLeads(s, e.lease, op, e.answers);
        }
        OwnerGoesOn(s, e.lease, op, eff, jw);
      } else {
        RivalGoesOn(s, e.lease, op, eff, jw);
      }
    } else if e.Fault? && e.lease in s.operations {
      FaultGoesOn(s, e.lease, s.operations[e.lease], job);
    } else if !e.Act? && !e.Fault? {
      BeginGoesOn(s, e, job);
    }
  }

  lemma StrangerGoesOn(s: Sys, lease: LeaseId, op: Operation, e: Effect, job: Key)
    requires Sound(s) && GoesOn(s, job) && lease in s.operations && op == s.operations[lease] && op.job != job
    requires e.task.Some? ==>
      var (k, row) := e.task.value;
      row.schedule != job && (k in s.tasks ==> s.tasks[k].schedule != job)
    ensures GoesOn(Apply(s, lease, op, e), job)
  {
    hide T.TaskInv, Bringing, Live;
    OutsideLeads(s, lease, op, e, job);
    assert Apply(s, lease, op, e).tasks == K.TasksAfter(s, e);
  }

  lemma OwnerGoesOn(s: Sys, lease: LeaseId, op: Operation, e: Effect, jw: JobWrite)
    requires Sound(s) && lease in s.operations && op == s.operations[lease]
    requires GoesOn(s, op.job) && Owns(s, lease, op.job) && LeaseSafety.Writes(s, lease, op, e, jw)
    requires AfterFinished(s, op.job) ==> WellLed(s, op, e)
    ensures GoesOn(Apply(s, lease, op, e), op.job)
  {
    hide T.TaskInv, OwnTasks, Live;
    assert Apply(s, lease, op, e).tasks == K.TasksAfter(s, e);
  }

  lemma RivalGoesOn(s: Sys, lease: LeaseId, op: Operation, e: Effect, jw: JobWrite)
    requires Sound(s) && lease in s.operations && op == s.operations[lease]
    requires GoesOn(s, op.job) && !Owns(s, lease, op.job) && LeaseSafety.Writes(s, lease, op, e, jw) && e.task.None?
    requires jw.Takes? && AfterFinished(s, op.job) ==> !Owes(s, s.jobs[op.job].leaseOwner.value, op.job)
    ensures GoesOn(Apply(s, lease, op, e), op.job)
  {
    hide T.TaskInv, OwnTasks, Live;
  }

  lemma FaultLeaves(pc: Pc)
    ensures !Bringing(Faulted(pc)) && (Bringing(pc) || Leaving(pc) ==> Leaving(Faulted(pc)))
    ensures forall tasks: map<Key, TaskRow> :: OnTrack(tasks, Faulted(pc))
  {
  }

  lemma FaultGoesOn(s: Sys, lease: LeaseId, op: Operation, job: Key)
    requires Sound(s) && lease in s.operations && op == s.operations[lease] && GoesOn(s, job)
    requires AfterFinished(s, job) && Owns(s, lease, job) ==> !Owes(s, lease, job)
    ensures GoesOn(Apply(s, lease, op, Effect(Faulted(op.pc))), job)
  {
    hide Bringing, Faulted, Live, Leaving;
    FaultLeaves(op.pc);
  }

  lemma BeginGoesOn(s: Sys, e: Event, job: Key)
    requires Sound(s) && GoesOn(s, job) && !e.Act? && !e.Fault?
    ensures GoesOn(Next(s, e), job)
  {
    hide Bringing, Live, T.TaskInv, OwnTasks;
    LiveStays(s.tasks, Next(s, e).tasks, job);
  }

  // ----- an event that is not orderly dooms the schedule -----------------------------------------------------

  /** Still locked, with nothing pending or started, and its owner changes that no more. */
  ghost predicate Doomed(s: Sys, job: Key) {
    && AfterFinished(s, job) && s.jobs[job].updateState.Some? && !Live(s.tasks, job)
    && exists l :: l in s.operations && Owns(s, l, job) && Leaving(s.operations[l].pc)
  }

  lemma BadFault(s: Sys, lease: LeaseId, job: Key)
    requires Sound(s) && AfterFinished(s, job) && Owns(s, lease, job) && Owes(s, lease, job)
    ensures Doomed(Next(s, Fault(lease)), job)
  {
    hide Faulted, Live, T.TaskInv, OwnTasks, Bringing, Leaving;
    FaultLeaves(s.operations[lease].pc);
    assert Owns(Next(s, Fault(lease)), lease, job);
  }

  lemma BadTakeOver(s: Sys, e: Event, job: Key)
    requires Sound(s) && K.TakesOver(s, e, job) && AfterFinished(s, job)
    requires s.jobs[job].leaseOwner.Some? && Owes(s, s.jobs[job].leaseOwner.value, job)
    ensures Doomed(Next(s, e), job)
  {
    hide Next, Live, T.TaskInv, OwnTasks, LeaseInv;
    TakeStep(s, e.lease, s.operations[e.lease].pc.interrupted, e.answers);
    assert Owns(Next(s, e), e.lease, job);
  }

  lemma BadAnswer(s: Sys, lease: LeaseId, a: Answers, job: Key)
    requires Sound(s) && GoesOn(s, job) && AfterFinished(s, job)
    requires lease in s.operations && Owns(s, lease, job) && s.operations[lease].job == job
    requires !Answered(s, s.operations[lease], a)
    ensures Doomed(Next(s, Act(lease, a)), job)
  {
    hide Call, Live, T.TaskInv, OwnTasks, Bringing, Leaving, GoesOn;
    var op := s.operations[lease];
    var e := Call(s, lease, op, a);
    var jw := CallWrites(s, lease, op, a);
    NotAnswered(s, op, a);
    OwnerLeads(s, lease, op, a);
    assert Next(s, Act(lease, a)).tasks == K.TasksAfter(s, e);
    WorkWritesNoRow(s, lease, op, a);
    assert Owns(Next(s, Act(lease, a)), lease, job);
  }

  lemma NotAnswered(s: Sys, op: Operation, a: Answers)
    requires op.job in s.jobs && !Answered(s, op, a)
    ensures KeyIsFresh(s, op, a) && !InSchedule(op.pc) && !InRepair(op.pc)
  {
    hide Live, LiveBeside;
  }

  lemma WorkWritesNoRow(s: Sys, lease: LeaseId, op: Operation, a: Answers)
    requires op.job in s.jobs && !InSchedule(op.pc) && !InRepair(op.pc)
    ensures Call(s, lease, op, a).job.None?
  {
    hide HasTaskIn, NewTask, Mark.Marked, Mark.Expects;
  }

  lemma BadEvent(s: Sys, e: Event, job: Key)
    requires Sound(s) && GoesOn(s, job) && !Orderly(s, e, job)
    ensures Doomed(Next(s, e), job)
  {
    hide Next, GoesOn, LeaseInv, T.TaskInv, OwnTasks, Answered, Owes, K.TakesOver, Doomed;
    if e.Act? && e.lease in s.operations && Owns(s, e.lease, job) && s.operations[e.lease].job == job
       && !Answered(s, s.operations[e.lease], e.answers) {
      BadAnswer(s, e.lease, e.answers, job);
    } else if e.Fault? && Owns(s, e.lease, job) && Owes(s, e.lease, job) {
      BadFault(s, e.lease, job);
    } else {
      BadTakeOver(s, e, job);
    }
  }

  // ----- a doomed schedule stays so until it stops -------------------------------------------------------------

  lemma LeavingCall(s: Sys, lease: LeaseId, op: Operation, a: Answers)
    requires lease in s.operations && op == s.operations[lease] && AfterFinished(s, op.job)
    requires Leaving(op.pc) && !Live(s.tasks, op.job)
    ensures var e := Call(s, lease, op, a);
      Leaving(e.pc) && !Live(K.TasksAfter(s, e), op.job)
  {
    hide Leased, Released, MarkedForRepair, TakenForRepair, NewJob, HasTaskIn, Live, LiveBeside;
    var e := Call(s, lease, op, a);
    if e.task.Some? {
      LiveAfter(s.tasks, op.job, e.task.value.0, e.task.value.1);
    }
  }

  lemma DoomedStep(s: Sys, e: Event, job: Key)
    requires Sound(s) && Doomed(s, job) && InLease(s, e, job)
    ensures Doomed(Next(s, e), job) || Stopped(Next(s, e), job)
  {
    hide Call, Faulted, T.TaskInv, Leaving, Live;
    var owner :| owner in s.operations && Owns(s, owner, job) && Leaving(s.operations[owner].pc);
    if e.Act? && e.lease in s.operations && KeyIsFresh(s, s.operations[e.lease], e.answers) {
      var op := s.operations[e.lease];
      var eff := Call(s, e.lease, op, e.answers);
      var jw := CallWrites(s, e.lease, op, e.answers);
      CallKeepsTask(s, e.lease, op, e.answers);
      if op.job != job {
        StrangerWrites(s, e.lease, op, e.answers, job);
        DoomedOutside(s, e.lease, op, eff, owner, job);
      } else {
        if e.lease == owner {
          LeavingCall(s, e.lease, op, e.answers);
        }
        DoomedInside(s, e.lease, op, eff, jw, owner);
      }
    } else if e.Fault? && e.lease in s.operations {
      FaultLeaves(s.operations[e.lease].pc);
      assert Owns(Next(s, e), owner, job);
    } else if !e.Act? && !e.Fault? {
      DoomedBegin(s, e, owner, job);
    }
  }

  lemma DoomedBegin(s: Sys, e: Event, owner: LeaseId, job: Key)
    requires Doomed(s, job) && owner in s.operations && Owns(s, owner, job) && Leaving(s.operations[owner].pc)
    requires !e.Act? && !e.Fault?
    ensures Doomed(Next(s, e), job)
  {
    hide Leaving, Live;
    LiveStays(Next(s, e).tasks, s.tasks, job);
    assert Owns(Next(s, e), owner, job);
  }

  lemma DoomedOutside(s: Sys, lease: LeaseId, op: Operation, e: Effect, owner: LeaseId, job: Key)
    requires LeaseInv(s) && Doomed(s, job) && lease in s.operations && op == s.operations[lease] && op.job != job
    requires owner in s.operations && Owns(s, owner, job) && Leaving(s.operations[owner].pc)
    requires e.task.Some? ==>
      var (k, row) := e.task.value;
      row.schedule != job && (k in s.tasks ==> s.tasks[k].schedule != job)
    ensures Doomed(Apply(s, lease, op, e), job)
  {
    hide Leaving, Live;
    OutsideLeads(s, lease, op, e, job);
    assert Apply(s, lease, op, e).tasks == K.TasksAfter(s, e);
    assert Owns(Apply(s, lease, op, e), owner, job);
  }

  lemma DoomedInside(s: Sys, lease: LeaseId, op: Operation, e: Effect, jw: JobWrite, owner: LeaseId)
    requires LeaseInv(s) && Doomed(s, op.job) && lease in s.operations && op == s.operations[lease]
    requires owner in s.operations && Owns(s, owner, op.job) && Leaving(s.operations[owner].pc)
    requires LeaseSafety.Writes(s, lease, op, e, jw) && (e.task.Some? ==> lease == owner && e.job.None?)
    requires lease == owner ==> Leaving(e.pc) && !Live(K.TasksAfter(s, e), op.job)
    ensures Doomed(Apply(s, lease, op, e), op.job) || Stopped(Apply(s, lease, op, e), op.job)
  {
    hide Live;
    var s' := Apply(s, lease, op, e);
    assert s'.tasks == K.TasksAfter(s, e);
    assert jw.Takes? ==> Owns(s', lease, op.job) && Leaving(e.pc);
    assert jw.Keeps? || jw.Marks? ==> Owns(s', owner, op.job);
  }

  lemma {:induction false} DoomedRun(s: Sys, events: seq<Event>, job: Key)
    requires Sound(s) && Doomed(s, job) && RunsInLease(s, events, job)
    ensures Doomed(Run(s, events), job) || !NeverStopped(s, events, job)
    decreases |events|
  {
    hide Next, LeaseInv, T.TaskInv, OwnTasks, Doomed, Stopped, InLease;
    if events != [] {
      SoundStep(s, events[0]);
      DoomedStep(s, events[0], job);
      if Doomed(Next(s, events[0]), job) {
        DoomedRun(Next(s, events[0]), events[1..], job);
      }
    }
  }

  // ----- exactly the orderly runs do not stop ----------------------------------------------------------------------

  lemma GoingIsNotDoomed(s: Sys, job: Key)
    requires GoesOn(s, job)
    ensures !Doomed(s, job) && !Stopped(s, job)
  {
    hide Live, OnTrack;
  }

  /**
   A run under the lease is orderly if and only if the schedule is not stopped in any state of it, nor doomed to
   stop in the last one. A run that ends with the schedule unlocked is not doomed.
   */
  lemma {:induction false} NeverStoppedIff(s: Sys, events: seq<Event>, job: Key)
    requires Sound(s) && GoesOn(s, job) && RunsInLease(s, events, job)
    ensures RunsOrderly(s, events, job) <==> NeverStopped(s, events, job) && !Doomed(Run(s, events), job)
    decreases |events|
  {
    hide Next, GoesOn, LeaseInv, T.TaskInv, OwnTasks, Orderly, InLease, Stopped, Doomed;
    GoingIsNotDoomed(s, job);
    if events != [] {
      SoundStep(s, events[0]);
      if Orderly(s, events[0], job) {
        GoesOnStep(s, events[0], job);
        NeverStoppedIff(Next(s, events[0]), events[1..], job);
      } else {
        BadEvent(s, events[0], job);
        DoomedRun(Next(s, events[0]), events[1..], job);
      }
    }
  }

  lemma {:induction false} NeverStoppedAtEnd(s: Sys, events: seq<Event>, job: Key)
    requires NeverStopped(s, events, job)
    ensures !Stopped(Run(s, events), job)
    decreases |events|
  {
    hide Next, Stopped;
    if events != [] {
      NeverStoppedAtEnd(Next(s, events[0]), events[1..], job);
    }
  }
}
