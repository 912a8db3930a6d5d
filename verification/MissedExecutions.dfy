/**
 When an execution is missed: a schedule that creates its next task after a start is unlocked while
 none of its tasks is pending. In runs with task writes under the lease that is so exactly if they are
 not orderly.
 */
module MissedExecutions {
  import opened Wrappers
  import opened Model
  import opened DbImpl
  import opened Protocol
  import opened LeaseSafety
  import opened PendingTasks
  import opened Steps
  import opened SchedulesKeepGoing
  import opened FailedStarts
  import T = TaskSafety

  /** Nothing is left that would start the schedule again. */
  ghost predicate Missed(s: Sys, job: Key) {
    && job in s.jobs && s.jobs[job].creation.AfterStart? && s.jobs[job].updateState.None?
    && !HasTaskIn(s.tasks, job, Pending)
  }

  ghost predicate NeverMissed(s: Sys, events: seq<Event>, job: Key)
    decreases |events|
  {
    !Missed(s, job) && (events != [] ==> NeverMissed(Next(s, events[0]), events[1..], job))
  }

  /** On the way out of a lease, with nothing more to add. */
  predicate Leaving(pc: Pc) {
    || pc.Releasing? || pc.MarkingRepair? || pc.Ended? || pc.RepairLooking? || pc.RepairChecking?
    || pc.RepairReleasing? || pc.RepairReleasingAgain? || pc.StartFailing? || pc.FailingNow?
    || (pc.Starting? && pc.after.ThenFail?)
  }

  /** Still locked, without a pending task, and its owner adds none any more. */
  ghost predicate Doomed(s: Sys, job: Key) {
    && job in s.jobs && s.jobs[job].creation.AfterStart? && s.jobs[job].updateState.Some?
    && !HasTaskIn(s.tasks, job, Pending)
    && exists l :: l in s.operations && Owns(s, l, job) && Leaving(s.operations[l].pc)
  }

  // ----- a doomed schedule stays so until it misses an execution -------------------------------

  lemma LeavingCall(s: Sys, lease: LeaseId, op: Operation, a: Answers)
    requires LeftQueue(s) && lease in s.operations && op == s.operations[lease] && op.job in s.jobs
    requires Leaving(op.pc) && !HasTaskIn(s.tasks, op.job, Pending)
    ensures var e := Call(s, lease, op, a);
      && Leaving(e.pc) && (e.task.Some? ==> e.task.value.1.state != Pending)
  {
    hide Leased, Released, MarkedForRepair, TakenForRepair, NewJob, HasTaskIn, NewTask;
  }

  lemma FaultedLeaves(pc: Pc)
    ensures Leaving(pc) || Outstanding(pc) ==> Leaving(Faulted(pc))
  {
  }

  lemma DoomedStep(s: Sys, e: Event, job: Key)
    requires Sound(s) && LeftQueue(s) && Doomed(s, job) && InLease(s, e, job)
    ensures Doomed(Next(s, e), job) || Missed(Next(s, e), job)
  {
    hide Call, Faulted, LeftQueue, T.TaskInv, Leaving;
    var owner :| owner in s.operations && Owns(s, owner, job) && Leaving(s.operations[owner].pc);
    if e.Act? && e.lease in s.operations && KeyIsFresh(s, s.operations[e.lease], e.answers) {
      var op := s.operations[e.lease];
      var eff := Call(s, e.lease, op, e.answers);
      var jw := CallWrites(s, e.lease, op, e.answers);
      CallKeepsTask(s, e.lease, op, e.answers);
      if op.job != job {
        StrangerWrites(s, e.lease, op, e.answers, job);
        DoomedOutside(s, e.lease, op, eff, owner, job);
      } else {
        if e.lease == owner {
          LeavingCall(s, e.lease, op, e.answers);
        }
        DoomedInside(s, e.lease, op, eff, jw, owner);
      }
    } else if e.Fault? && e.lease in s.operations {
      FaultedLeaves(s.operations[e.lease].pc);
      assert Owns(Next(s, e), owner, job);
    } else if !e.Act? && !e.Fault? {
      DoomedBegin(s, e, owner, job);
    }
  }

  lemma DoomedBegin(s: Sys, e: Event, owner: LeaseId, job: Key)
    requires Doomed(s, job) && owner in s.operations && Owns(s, owner, job) && Leaving(s.operations[owner].pc)
    requires !e.Act? && !e.Fault?
    ensures Doomed(Next(s, e), job)
  {
    hide Leaving;
    assert Owns(Next(s, e), owner, job);
  }

  lemma DoomedOutside(s: Sys, lease: LeaseId, op: Operation, e: Effect, owner: LeaseId, job: Key)
    requires LeaseInv(s) && Doomed(s, job) && lease in s.operations && op == s.operations[lease] && op.job != job
    requires owner in s.operations && Owns(s, owner, job) && Leaving(s.operations[owner].pc)
    requires e.task.Some? ==>
      var (k, row) := e.task.value;
      row.schedule != job && (k in s.tasks ==> s.tasks[k].schedule != job)
    ensures Doomed(Apply(s, lease, op, e), job)
  {
    hide Leaving;
    assert Owns(Apply(s, lease, op, e), owner, job);
  }

  lemma DoomedInside(s: Sys, lease: LeaseId, op: Operation, e: Effect, jw: JobWrite, owner: LeaseId)
    requires LeaseInv(s) && Doomed(s, op.job) && lease in s.operations && op == s.operations[lease]
    requires owner in s.operations && Owns(s, owner, op.job) && Leaving(s.operations[owner].pc)
    requires LeaseSafety.Writes(s, lease, op, e, jw) && (e.task.Some? ==> lease == owner && e.job.None?)
    requires lease == owner ==> Leaving(e.pc) && (e.task.Some? ==> e.task.value.1.state != Pending)
    ensures Doomed(Apply(s, lease, op, e), op.job) || Missed(Apply(s, lease, op, e), op.job)
  {
    var s' := Apply(s, lease, op, e);
    assert jw.Takes? ==> Owns(s', lease, op.job) && Leaving(e.pc);
    assert jw.Keeps? || jw.Marks? ==> Owns(s', owner, op.job);
  }

  lemma {:induction false} DoomedRun(s: Sys, events: seq<Event>, job: Key)
    requires Sound(s) && LeftQueue(s) && Doomed(s, job) && RunsInLease(s, events, job)
    ensures Doomed(Run(s, events), job) || !NeverMissed(s, events, job)
    decreases |events|
  {
    hide Next, LeaseInv, T.TaskInv, OwnTasks, LeftQueue, Doomed, Missed, InLease;
    if events != [] {
      SoundStep(s, events[0]);
      LeftQueueStep(s, events[0]);
      DoomedStep(s, events[0], job);
      if Doomed(Next(s, events[0]), job) {
        DoomedRun(Next(s, events[0]), events[1..], job);
      }
    }
  }

  // ----- an event that is not orderly dooms it ------------------------------------------------

  lemma BadFault(s: Sys, lease: LeaseId, job: Key)
    requires Sound(s) && job in s.jobs && s.jobs[job].creation.AfterStart? && Owns(s, lease, job) && Owes(s, lease, job)
    ensures Doomed(Next(s, Fault(lease)), job)
  {
    hide Faulted, HasTaskIn, T.TaskInv, OwnTasks, Outstanding, Leaving;
    FaultedLeaves(s.operations[lease].pc);
    var s' := Next(s, Fault(lease));
    assert Owns(s', lease, job) && lease in s'.operations;
  }

  lemma BadTakeOver(s: Sys, e: Event, job: Key)
    requires Sound(s) && TakesOver(s, e, job) && s.jobs[job].creation.AfterStart?
    requires s.jobs[job].leaseOwner.Some? && Owes(s, s.jobs[job].leaseOwner.value, job)
    ensures Doomed(Next(s, e), job)
  {
    hide Next, HasTaskIn, T.TaskInv, OwnTasks, LeaseInv;
    TakeStep(s, e.lease, s.operations[e.lease].pc.interrupted, e.answers);
    var s' := Next(s, e);
    assert Owns(s', e.lease, job) && e.lease in s'.operations;
  }

  /** A bad answer leads out of the lease without a follow-up. */
  lemma BadPath(s: Sys, row: JobRow, op: Operation, a: Answers)
    requires row.creation.AfterStart? && OnTrack(s, op.pc) && !GoodAnswers(op.pc, a)
    ensures OutstandingForSure(op.pc)
    ensures var e := WorkCall(s, row, op, a);
      && (e.task.Some? ==> e.task.value.1.state != Pending && e.task.value.0 in s.tasks)
      && Leaving(e.pc)
  {
    hide HasTaskIn, NewTask;
  }

  lemma BadAnswer(s: Sys, lease: LeaseId, a: Answers, job: Key)
    requires Sound(s) && PendingOk(s, job) && KeptGoing(s, job) && NoneBeside(s, job)
    requires job in s.jobs && s.jobs[job].creation.AfterStart? && lease in s.operations && Owns(s, lease, job)
    requires !GoodAnswers(s.operations[lease].pc, a)
    ensures Doomed(Next(s, Act(lease, a)), job)
  {
    hide WorkCall, ScheduleCall, RepairCall, HasTaskIn, T.TaskInv, OwnTasks, Outstanding, OutstandingForSure, Leaving;
    var op := s.operations[lease];
    BadPath(s, s.jobs[job], op, a);
    var e, s' := WorkCall(s, s.jobs[job], op, a), Next(s, Act(lease, a));
    BadCall(s, lease, op, a);
    assert s' == Apply(s, lease, op, e);
    if e.task.Some? {
      NoneStays(s.tasks, job, e.task.value.0, e.task.value.1);
    }
    assert !HasTaskIn(s'.tasks, job, Pending);
    assert Owns(s', lease, job) && lease in s'.operations;
  }

  lemma BadCall(s: Sys, lease: LeaseId, op: Operation, a: Answers)
    requires lease in s.operations && op == s.operations[lease] && op.job in s.jobs && !GoodAnswers(op.pc, a)
    ensures Call(s, lease, op, a) == WorkCall(s, s.jobs[op.job], op, a) && KeyIsFresh(s, op, a)
    ensures WorkCall(s, s.jobs[op.job], op, a).job.None?
  {
    hide HasTaskIn, NewTask, Mark.Marked, Mark.Expects;
  }

  /** From a schedule that keeps going, an event that is not orderly leads to a doomed one. */
  lemma BadEvent(s: Sys, e: Event, job: Key)
    requires Sound(s) && PendingOk(s, job) && KeptGoing(s, job) && NoneBeside(s, job) && !Orderly(s, e, job)
    ensures Doomed(Next(s, e), job) && !KeptGoing(Next(s, e), job)
  {
    hide Next, KeptGoing, PendingOk, NoneBeside, LeaseInv, T.TaskInv, OwnTasks, GoodAnswers, Owes, TakesOver, Doomed;
    if e.Act? && e.lease in s.operations && Owns(s, e.lease, job) && !GoodAnswers(s.operations[e.lease].pc, e.answers) {
      BadAnswer(s, e.lease, e.answers, job);
    } else if e.Fault? && Owns(s, e.lease, job) && Owes(s, e.lease, job) {
      BadFault(s, e.lease, job);
    } else {
      BadTakeOver(s, e, job);
    }
    if KeptGoing(Next(s, e), job) {
      GoingIsNotDoomed(Next(s, e), job);
    }
  }

  lemma GoingIsNotDoomed(s: Sys, job: Key)
    requires KeptGoing(s, job)
    ensures !Doomed(s, job)
  {
    hide HasTaskIn;
  }

  lemma GoingMissesNothing(s: Sys, job: Key)
    requires LeaseInv(s) && KeptGoing(s, job)
    ensures !Missed(s, job)
  {
    hide HasTaskIn, OnTrack, Outstanding;
  }

  // ----- exactly the orderly runs miss nothing ----------------------------------------------------

  /**
   A run under the lease is orderly if and only if no state of it misses an execution and the last one is
   not doomed to. A run that ends with the schedule unlocked is not doomed: if it is not orderly, then some
   state of it has the schedule unlocked while none of its tasks is pending.
   */
  lemma {:induction false} NeverMissedIff(s: Sys, events: seq<Event>, job: Key)
    requires Sound(s) && LeftQueue(s) && PendingOk(s, job) && KeptGoing(s, job) && NoneBeside(s, job)
    requires RunsInLease(s, events, job)
    ensures RunsOrderly(s, events, job) <==> NeverMissed(s, events, job) && !Doomed(Run(s, events), job)
    decreases |events|
  {
    hide Next, KeptGoing, PendingOk, NoneBeside, LeaseInv, T.TaskInv, OwnTasks, LeftQueue, Orderly, InLease;
    hide Missed, Doomed;
    GoingMissesNothing(s, job);
    if events == [] {
      GoingIsNotDoomed(s, job);
    } else {
      SoundStep(s, events[0]);
      LeftQueueStep(s, events[0]);
      if Orderly(s, events[0], job) {
        OwnersAreKnown(s);
        PendingStep(s, events[0], job);
        KeptGoingStep(s, events[0], job);
        NoneBesideStep(s, events[0], job);
        NeverMissedIff(Next(s, events[0]), events[1..], job);
      } else {
        BadEvent(s, events[0], job);
        DoomedRun(Next(s, events[0]), events[1..], job);
      }
    }
  }

  /** A run keeps going if every state of it does. */
  ghost predicate KeptGoingThroughout(s: Sys, events: seq<Event>, job: Key)
    decreases |events|
  {
    KeptGoing(s, job) && (events != [] ==> KeptGoingThroughout(Next(s, events[0]), events[1..], job))
  }

  /** The invariant behind it holds in every state exactly in those runs, too. */
  lemma {:induction false} KeepsGoingIff(s: Sys, events: seq<Event>, job: Key)
    requires Sound(s) && PendingOk(s, job) && KeptGoing(s, job) && NoneBeside(s, job) && RunsInLease(s, events, job)
    ensures KeptGoingThroughout(s, events, job) <==> RunsOrderly(s, events, job)
    decreases |events|
  {
    hide Next, KeptGoing, PendingOk, NoneBeside, LeaseInv, T.TaskInv, OwnTasks, Orderly, InLease;
    if events != [] {
      if Orderly(s, events[0], job) {
        SoundStep(s, events[0]);
        OwnersAreKnown(s);
        PendingStep(s, events[0], job);
        KeptGoingStep(s, events[0], job);
        NoneBesideStep(s, events[0], job);
        KeepsGoingIff(Next(s, events[0]), events[1..], job);
      } else {
        BadEvent(s, events[0], job);
      }
    }
  }
}
