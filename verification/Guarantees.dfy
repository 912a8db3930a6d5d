/** The guarantees of the cluster, for every run from the empty store. */
module Guarantees {
  import opened Wrappers
  import opened Model
  import opened DbImpl
  import opened Protocol
  import opened LeaseSafety
  import opened PendingTasks
  import opened SchedulesKeepGoing
  import opened MissedExecutions
  import opened RepairState
  import opened FailedStarts
  import T = TaskSafety
  import S = StoppedSchedules

  lemma InitSound(job: Key)
    ensures Sound(Init()) && T.OnceInv(Init()) && LeftQueue(Init())
    ensures PendingOk(Init(), job) && StartedOk(Init(), job) && KeptGoing(Init(), job) && RepairOk(Init(), job)
    ensures NoneBeside(Init(), job)
  {
  }

  lemma {:induction false} SoundRun(s: Sys, events: seq<Event>)
    requires Sound(s) && LeftQueue(s)
    ensures Sound(Run(s, events)) && LeftQueue(Run(s, events))
    decreases |events|
  {
    hide Next, LeaseInv, T.TaskInv, OwnTasks, LeftQueue;
    if events != [] {
      SoundStep(s, events[0]);
      LeftQueueStep(s, events[0]);
      SoundRun(Next(s, events[0]), events[1..]);
    }
  }

  /** No job is started twice, whatever nodes crash and whatever leases expire and are taken. */
  lemma NoDoubleExecution(events: seq<Event>)
    ensures T.NoRepeats(Run(Init(), events).calls)
  {
    InitSound(0);
    T.JobsStartAtMostOnce(Init(), events);
  }

  /** A schedule's three lease fields are null together, and an owner is an operation on that schedule. */
  lemma LeasesAreWhole(events: seq<Event>, job: Key)
    requires job in Run(Init(), events).jobs
    ensures var s := Run(Init(), events); var row := s.jobs[job];
      && (row.updateState.None? <==> row.leaseOwner.None?) && (row.leaseOwner.None? <==> row.leaseExpires.None?)
      && (row.leaseOwner.Some? ==>
            row.leaseOwner.value in s.operations && s.operations[row.leaseOwner.value].job == job)
  {
    hide Run, Next;
    assert LeaseInv(Init());
    LeaseInvRun(Init(), events);
  }

  /** Once an operation's lease is taken, it never writes the schedule's row again. */
  lemma TakenLeasesStayTaken(before: seq<Event>, after: seq<Event>, lease: LeaseId, answers: Answers)
    requires lease in Run(Init(), before).operations && !Acquiring(Run(Init(), before).operations[lease].pc)
    requires !Owns(Run(Init(), before), lease, Run(Init(), before).operations[lease].job)
    ensures var s := Run(Run(Init(), before), after);
      lease in s.operations && Next(s, Act(lease, answers)).jobs == s.jobs
  {
    InitSound(0);
    SoundRun(Init(), before);
    TakenLeaseIsRefused(Run(Init(), before), after, lease, answers);
  }

  /** A task's row only moves forward, and its timestamps say where it is. */
  lemma TasksMoveForward(before: seq<Event>, after: seq<Event>, k: Key)
    requires k in Run(Init(), before).tasks && k in Run(Run(Init(), before), after).tasks
    ensures T.MovedForward(Run(Init(), before).tasks[k], Run(Run(Init(), before), after).tasks[k])
    ensures T.Dated(Run(Init(), before).tasks[k])
  {
    InitSound(0);
    SoundRun(Init(), before);
    T.ForwardRun(Run(Init(), before), after, k);
  }

  lemma OnePendingTask(events: seq<Event>, job: Key)
    requires RunsInLease(Init(), events, job)
    ensures AtMostOne(Run(Init(), events), job, Pending)
  {
    InitSound(job);
    AtMostOnePending(Init(), events, job);
  }

  lemma OneStartedTask(events: seq<Event>, job: Key)
    requires RunsInLease(Init(), events, job)
    ensures job in Run(Init(), events).jobs && Run(Init(), events).jobs[job].duplicates.AlwaysSkip? ==>
      AtMostOne(Run(Init(), events), job, Started)
  {
    InitSound(job);
    AtMostOneStarted(Init(), events, job);
  }

  lemma NoMissedExecution(events: seq<Event>, job: Key)
    requires RunsInLease(Init(), events, job) && RunsOrderly(Init(), events, job)
    ensures var s := Run(Init(), events);
      job in s.jobs && s.jobs[job].creation.AfterStart? && s.jobs[job].updateState.None? ==>
        exists k :: k in s.tasks && s.tasks[k].schedule == job && s.tasks[k].state == Pending
          && forall m :: m in s.tasks && s.tasks[m].schedule == job && s.tasks[m].state == Pending ==> m == k
  {
    InitSound(job);
    KeepsGoing(Init(), events, job);
  }

  /**
   And only in orderly runs: of the runs under the lease that end with the schedule unlocked, exactly the
   orderly ones have no state in which it is unlocked while none of its tasks is pending. Of all runs under
   the lease, exactly the orderly ones have no such state and do not end on the way to one.
   */
  lemma MissedExecutionIff(events: seq<Event>, job: Key)
    requires RunsInLease(Init(), events, job)
    ensures var s := Run(Init(), events);
      job in s.jobs && s.jobs[job].updateState.None? ==>
        (NeverMissed(Init(), events, job) <==> RunsOrderly(Init(), events, job))
    ensures RunsOrderly(Init(), events, job) <==>
      NeverMissed(Init(), events, job) && !Doomed(Run(Init(), events), job)
  {
    hide Next, KeptGoing, NoneBeside, LeaseInv, T.TaskInv, OwnTasks, PendingOk, StartedOk, RepairOk, LeftQueue;
    hide T.OnceInv, RunsInLease, RunsOrderly, NeverMissed, Run;
    InitSound(job);
    NeverMissedIff(Init(), events, job);
  }

  /**
   The same for a schedule that creates its next task after a finish: of the runs under the lease that end with it
   unlocked, exactly the orderly ones have no state in which it is unlocked with no task pending or started.
   */
  lemma StoppedScheduleIff(events: seq<Event>, job: Key)
    requires RunsInLease(Init(), events, job)
    ensures var s := Run(Init(), events);
      job in s.jobs && s.jobs[job].updateState.None? ==>
        (S.NeverStopped(Init(), events, job) <==> S.RunsOrderly(Init(), events, job))
    ensures S.RunsOrderly(Init(), events, job) <==>
      S.NeverStopped(Init(), events, job) && !S.Doomed(Run(Init(), events), job)
  {
    hide Next, LeaseInv, T.TaskInv, OwnTasks, PendingOk, StartedOk, RepairOk, LeftQueue, KeptGoing, NoneBeside;
    hide T.OnceInv, RunsInLease, S.RunsOrderly, S.NeverStopped, Run;
    InitSound(job);
    S.NeverStoppedIff(Init(), events, job);
  }

  /** An unlocked schedule of that kind has a pending or a started task in every orderly run. */
  lemma NoStoppedSchedule(events: seq<Event>, job: Key)
    requires RunsInLease(Init(), events, job) && S.RunsOrderly(Init(), events, job)
    ensures var s := Run(Init(), events);
      job in s.jobs && s.jobs[job].creation.AfterFinish? && s.jobs[job].updateState.None? ==>
        exists k :: k in s.tasks && s.tasks[k].schedule == job && s.tasks[k].state in {Pending, Started}
  {
    hide Next, LeaseInv, T.TaskInv, OwnTasks, PendingOk, StartedOk, RepairOk, LeftQueue, KeptGoing, NoneBeside;
    hide T.OnceInv, RunsInLease, S.RunsOrderly, Run, S.Doomed;
    InitSound(job);
    S.NeverStoppedIff(Init(), events, job);
    S.NeverStoppedAtEnd(Init(), events, job);
    var s := Run(Init(), events);
    if job in s.jobs && s.jobs[job].creation.AfterFinish? && s.jobs[job].updateState.None? {
      var k :| k in s.tasks && S.IsLive(s.tasks[k], job);
    }
  }

  lemma RepairsRememberIff(events: seq<Event>, job: Key)
    ensures RemembersThroughout(Init(), events, job) <==> RunsReadLocked(Init(), events, job)
  {
    InitSound(job);
    RemembersIff(Init(), events, job);
  }

  /** And it names the operation that held the row before all repairs if and only if they read and write as one step. */
  lemma RepairsNameOriginIff(events: seq<Event>, job: Key)
    ensures KeepsOriginThroughout(Init(), events, job) <==> RunsFresh(Init(), events, job)
  {
    InitSound(job);
    KeepsOriginIff(Init(), events, job);
  }

  /** Whenever a job fails at once, its failure is not marked: the schedule goes to repair, the task stays as it is. */
  lemma ImmediateFailuresGoToRepair(events: seq<Event>, lease: LeaseId, answers: Answers)
    requires lease in Run(Init(), events).operations && Run(Init(), events).operations[lease].pc.FailingNow?
    requires Run(Init(), events).operations[lease].job in Run(Init(), events).jobs
    ensures var s := Run(Init(), events); var s' := Next(s, Act(lease, answers));
      && s'.operations[lease].pc == MarkingRepair
      && s'.jobs == s.jobs && s'.tasks == s.tasks && s'.calls == s.calls
  {
    InitSound(0);
    SoundRun(Init(), events);
    FailureIsRefused(Run(Init(), events), lease, answers);
  }

  /** In every run a row leaves its lease only by its operation's own release, or by a repair after its expiry. */
  lemma LeasesEndOnlyBy(events: seq<Event>, e: Event, lease: LeaseId, job: Key)
    requires Owns(Run(Init(), events), lease, job) && !Owns(Next(Run(Init(), events), e), lease, job)
    ensures var s := Run(Init(), events); var s' := Next(s, e);
      && e.Act? && e.lease in s.operations && s.operations[e.lease].job == job && job in s'.jobs
      && if e.lease == lease then s'.jobs[job].updateState == None && s'.jobs[job].leaseOwner == None
         else s.operations[e.lease].pc.RepairTaking? && s.jobs[job].leaseExpires.Some?
              && s.jobs[job].leaseExpires.value < s.operations[e.lease].now && Owns(s', e.lease, job)
  {
    assert LeaseInv(Init());
    LeaseInvRun(Init(), events);
    LeaseEndsOnlyBy(Run(Init(), events), e, lease, job);
  }

  /**
   In every run an operation that got its lease and ends without a broken call leaves its row released,
   or under its own id and expired as of its `now`, or not its own and untouched.
   */
  lemma OperationsEndInThreeWays(events: seq<Event>, lease: LeaseId, answers: Answers)
    requires lease in Run(Init(), events).operations && !Acquiring(Run(Init(), events).operations[lease].pc)
    requires !Run(Init(), events).operations[lease].pc.Ended?
    requires Next(Run(Init(), events), Act(lease, answers)).operations[lease].pc.Ended?
    ensures var s := Run(Init(), events); var op, s' := s.operations[lease], Next(s, Act(lease, answers));
      || (op.job in s'.jobs && s'.jobs[op.job].updateState == None && s'.jobs[op.job].leaseOwner == None)
      || (Owns(s', lease, op.job) && s'.jobs[op.job].leaseExpires == Some(op.now))
      || (!Owns(s', lease, op.job) && s'.jobs == s.jobs)
  {
    assert LeaseInv(Init());
    LeaseInvRun(Init(), events);
    LeaseEndings(Run(Init(), events), lease, answers);
    LeaseInvStep(Run(Init(), events), Act(lease, answers));
  }

  /** A schedule that has run dry is never given a task again, whatever is called. */
  lemma DrySchedulesStayDry(before: seq<Event>, after: seq<Event>, job: Key)
    requires Dry(Run(Init(), before), job)
    ensures var s := Run(Run(Init(), before), after);
      job in s.jobs && !HasTaskIn(s.tasks, job, Pending) && !HasTaskIn(s.tasks, job, Started)
  {
    hide Run, Next, LeaseInv, T.TaskInv, OwnTasks, PendingOk, StartedOk, KeptGoing, RepairOk, LeftQueue, T.OnceInv;
    InitSound(job);
    SoundRun(Init(), before);
    DryForEver(Run(Init(), before), after, job);
  }
}
