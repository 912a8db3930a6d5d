/** What creating, disabling and repairing a schedule do when nothing comes between their calls. */
module ScheduleOutcomes {
  import opened Wrappers
  import opened Model
  import opened DbImpl
  import opened Protocol
  import opened Steps
  import opened Outcomes

  // ----- creating a schedule ----------------------------------------------------------------------------

  function CreatingAlone(lease: LeaseId, job: Key, first: Key, creation: Creation, duplicates: Duplicates, now: int,
                         leaseTime: int, a: Answers): seq<Event>
  {
    [BeginCreate(lease, job, first, creation, duplicates, now, leaseTime)] + Alone(lease, a, 3)
  }

  /**
   `createScheduledJob`, alone: the schedule, unlocked, and its first task, which is due when the strategy says.
   A strategy that throws leaves no task, and a schedule that is out to pasture or left for repair.
   */
  lemma CreateOutcome(s: Sys, lease: LeaseId, job: Key, first: Key, creation: Creation, duplicates: Duplicates,
                      now: int, leaseTime: int, a: Answers)
    requires lease !in s.operations && job != first && job !in s.used && first !in s.used
    requires job !in s.jobs && first !in s.tasks
    ensures var s' := Run(s, CreatingAlone(lease, job, first, creation, duplicates, now, leaseTime, a));
      && s'.calls == s.calls && lease in s'.operations && s'.operations[lease].pc.Ended?
      && s'.tasks == (if a.creation.Throws? then s.tasks else
                        s.tasks[first := TaskRow(job, Pending, now, a.time, None, None, None, None, None)])
      && s'.jobs == s.jobs[job :=
           if !a.creation.Throws? then JobRow(creation, duplicates, None, None, None, None, None, false, None)
           else if a.invalid then JobRow(creation, duplicates, None, None, None, None, None, true, Some(a.text))
           else JobRow(creation, duplicates, Some(AddTask), Some(first), Some(lease), Some(now), None, false, None)]
  {
    hide Run, Next, Alone, CreatingAlone;
    CreateWorks(s, lease, job, first, creation, duplicates, now, leaseTime, a);
    var s3 := InCreation(s, lease, job, first, creation, duplicates, now, leaseTime, a);
    if a.creation.Throws? && !a.invalid {
      MarkEnds(s3, lease, AddTask, Some(first), a, 1);
    } else {
      var pc := s3.operations[lease].pc;
      ReleaseEnds(s3, lease, pc.pasture, pc.reason, a, 1);
    }
  }

  /** The schedule is stored, locked, and its first task too, if there is one. */
  function InCreation(s: Sys, lease: LeaseId, job: Key, first: Key, creation: Creation, duplicates: Duplicates,
                      now: int, leaseTime: int, a: Answers): Sys
  {
    s.(jobs := s.jobs[job := JobRow(creation, duplicates, Some(AddTask), Some(first), Some(lease),
                                    Some(now + leaseTime), None, false, None)],
       tasks := if a.creation.Throws? then s.tasks else s.tasks[first := PendingRow(job, now, a.time)],
       operations := s.operations[lease := Operation(
         job, now, leaseTime,
         if !a.creation.Throws? then Releasing(false, None)
         else if a.invalid then Releasing(true, Some(a.text))
         else MarkingRepair)],
       used := s.used + {job, first})
  }

  lemma CreateWorks(s: Sys, lease: LeaseId, job: Key, first: Key, creation: Creation, duplicates: Duplicates,
                    now: int, leaseTime: int, a: Answers)
    requires lease !in s.operations && job != first && job !in s.used && first !in s.used
    requires job !in s.jobs && first !in s.tasks
    ensures Run(s, CreatingAlone(lease, job, first, creation, duplicates, now, leaseTime, a)) ==
      Run(InCreation(s, lease, job, first, creation, duplicates, now, leaseTime, a), Alone(lease, a, 1))
  {
    hide Run, Next, Alone, NewTask, PendingRow;
    var e := BeginCreate(lease, job, first, creation, duplicates, now, leaseTime);
    var s1 := Next(s, e);
    var s2 := Next(s1, Act(lease, a));
    CreationBegins(s, lease, job, first, creation, duplicates, now, leaseTime);
    RowIsAdded(s1, lease, job, first, creation, duplicates, now, leaseTime, a);
    FirstTaskIsAdded(s2, lease, first, a);
    NewTaskRow(job, now, a.time);
    RunFirst(s, e, Alone(lease, a, 3));
    AloneStep(s1, lease, a, 3);
    AloneStep(s2, lease, a, 2);
    assert Next(s2, Act(lease, a)) == InCreation(s, lease, job, first, creation, duplicates, now, leaseTime, a);
  }

  lemma CreationBegins(s: Sys, lease: LeaseId, job: Key, first: Key, creation: Creation, duplicates: Duplicates,
                       now: int, leaseTime: int)
    requires lease !in s.operations && job != first && job !in s.used && first !in s.used
    ensures var op := Operation(job, now, leaseTime, CreatingJob(first, creation, duplicates));
      Next(s, BeginCreate(lease, job, first, creation, duplicates, now, leaseTime)) ==
      s.(used := s.used + {job, first}, operations := s.operations[lease := op])
  {
  }

  lemma RowIsAdded(s: Sys, lease: LeaseId, job: Key, first: Key, creation: Creation, duplicates: Duplicates,
                   now: int, leaseTime: int, a: Answers)
    requires lease in s.operations && job !in s.jobs
    requires s.operations[lease] == Operation(job, now, leaseTime, CreatingJob(first, creation, duplicates))
    ensures Next(s, Act(lease, a)) == Moved(s, lease, AddingFirstTask(first)).(jobs := s.jobs[job :=
      JobRow(creation, duplicates, Some(AddTask), Some(first), Some(lease), Some(now + leaseTime), None, false, None)])
  {
    hide WorkCall, ScheduleCall, RepairCall;
  }

  lemma FirstTaskIsAdded(s: Sys, lease: LeaseId, first: Key, a: Answers)
    requires At(s, lease, AddingFirstTask(first)) && first !in s.tasks && first in s.used
    ensures var op := s.operations[lease];
      Next(s, Act(lease, a)) ==
      if a.creation.Throws? then
        Moved(s, lease, if a.invalid then Releasing(true, Some(a.text)) else MarkingRepair)
      else
        Moved(s, lease, Releasing(false, None)).(tasks := s.tasks[first := NewTask(op.job, op.now, a.time)])
  {
    hide ScheduleCall, RepairCall, NewTask;
    assert s.used + {first} == s.used;
  }

  // ----- disabling a schedule -----------------------------------------------------------------------------

  /** `disableSchedule` of an unlocked schedule, alone, puts it out to pasture and touches no task. */
  lemma DisableOutcome(s: Sys, lease: LeaseId, job: Key, reason: Option<string>, now: int, leaseTime: int,
                       retries: nat, a: Answers)
    requires lease !in s.operations && job in s.jobs && s.jobs[job].updateState == None
    ensures var row, s' := s.jobs[job],
        Run(s, [BeginDisable(lease, job, reason, now, leaseTime, retries)] + Alone(lease, a, 3));
      && s'.tasks == s.tasks && s'.calls == s.calls
      && s'.jobs == s.jobs[job := JobRow(row.creation, row.duplicates, None, None, None, None, None, true,
                                         if reason == Some("") then None else reason)]
  {
    hide Run, Next, Alone, Leased;
    var e, work := BeginDisable(lease, job, reason, now, leaseTime, retries), DisableJob(reason);
    var s1 := Next(s, e);
    var s2 := Next(s1, Act(lease, a));
    var s3 := Next(s2, Act(lease, a));
    DisableBegins(s, lease, job, reason, now, leaseTime, retries);
    LeasedRow(s.jobs[job], Pasture, None, lease, now + leaseTime);
    LeaseStep(s1, lease, work, retries, a);
    ReadStep(s2, lease, work, a);
    RunFirst(s, e, Alone(lease, a, 3));
    AloneStep(s1, lease, a, 3);
    AloneStep(s2, lease, a, 2);
    ReleaseEnds(s3, lease, true, if reason == Some("") then None else reason, a, 1);
  }

  lemma DisableBegins(s: Sys, lease: LeaseId, job: Key, reason: Option<string>, now: int, leaseTime: int, retries: nat)
    requires lease !in s.operations && job in s.jobs
    ensures Next(s, BeginDisable(lease, job, reason, now, leaseTime, retries)) == s.(operations :=
      s.operations[lease := Operation(job, now, leaseTime, Leasing(DisableJob(reason), retries))])
  {
  }

  // ----- a schedule that is locked ----------------------------------------------------------------------------

  /**
   While the schedule stays locked, every attempt is in vain, and so is a broken one: an operation makes one, and
   one more per retry, and then ends. Nothing changes but that.
   */
  lemma {:induction false} LockedOut(s: Sys, lease: LeaseId, work: Work, retries: nat, attempts: seq<Event>)
    requires At(s, lease, Leasing(work, retries)) && s.jobs[s.operations[lease].job].updateState.Some?
    requires |attempts| <= retries + 1
    requires forall i :: 0 <= i < |attempts| ==> (attempts[i].Act? || attempts[i].Fault?) && attempts[i].lease == lease
    ensures Run(s, attempts) == Moved(
      s, lease, if |attempts| <= retries then Leasing(work, retries - |attempts|) else Ended(NotObtained))
    decreases |attempts|
  {
    hide Next;
    if attempts != [] {
      AttemptFails(s, lease, work, retries, attempts[0]);
      var s1, rest := Next(s, attempts[0]), attempts[1..];
      if retries > 0 {
        LockedOut(s1, lease, work, retries - 1, rest);
      } else {
        RunNothing(s1);
      }
    }
  }

  lemma AttemptFails(s: Sys, lease: LeaseId, work: Work, retries: nat, e: Event)
    requires At(s, lease, Leasing(work, retries)) && s.jobs[s.operations[lease].job].updateState.Some?
    requires (e.Act? || e.Fault?) && e.lease == lease
    ensures Next(s, e) == Moved(s, lease, if retries > 0 then Leasing(work, retries - 1) else Ended(NotObtained))
  {
    hide WorkCall, RepairCall;
  }

  // ----- repairing a schedule ----------------------------------------------------------------------------------

  function RepairingAlone(lease: LeaseId, job: Key, now: int, leaseTime: int, a: Answers): seq<Event> {
    [BeginRepair(lease, job, now, leaseTime)] + Alone(lease, a, 6)
  }

  /** A locked row whose lease expired before now. */
  predicate CanRepair(s: Sys, lease: LeaseId, job: Key, now: int) {
    && lease !in s.operations && job in s.jobs && s.jobs[job].updateState.Some?
    && s.jobs[job].leaseExpires.Some? && s.jobs[job].leaseExpires.value < now
  }

  /** The operation whose lease expired, through all repairs. */
  function Interruption(row: JobRow): Option<UpdateState> {
    if row.repairState.Some? then row.repairState else row.updateState
  }

  /** The one repair that succeeds: a schedule was created, with its first task, and not released. */
  ghost predicate Repairable(s: Sys, job: Key)
    requires job in s.jobs
  {
    var row := s.jobs[job];
    && Interruption(row) == Some(AddTask) && !row.pasture && row.updateTaskPk.Some?
    && SomeTask(s.tasks, job, Pending)
  }

  /** Why the schedule is put out to pasture instead. */
  function Complaint(row: JobRow, a: Answers): string {
    if Interruption(row) == Some(AddTask) && row.pasture then
      if row.pastureReason == None || row.pastureReason == Some("") then "<invalid state>" else row.pastureReason.value
    else if Interruption(row) == Some(UpdateState.Repair) then "Invalid internal state discovered during repair"
    else a.text
  }

  /** Taken for repair, by the operation. */
  function TakenRow(row: JobRow, lease: LeaseId, expires: int): JobRow {
    JobRow(row.creation, row.duplicates, Some(UpdateState.Repair), row.updateTaskPk, Some(lease), Some(expires),
           Interruption(row), row.pasture, row.pastureReason)
  }

  function Repairing(s: Sys, lease: LeaseId, job: Key, now: int, leaseTime: int, pc: Pc): Sys
    requires job in s.jobs
  {
    s.(jobs := s.jobs[job := TakenRow(s.jobs[job], lease, now + leaseTime)],
       operations := s.operations[lease := Operation(job, now, leaseTime, pc)])
  }

  lemma RepairTakes(s: Sys, lease: LeaseId, job: Key, now: int, leaseTime: int, a: Answers)
    requires CanRepair(s, lease, job, now)
    ensures Run(s, RepairingAlone(lease, job, now, leaseTime, a)) ==
      Run(Repairing(s, lease, job, now, leaseTime, RepairLooking), Alone(lease, a, 4))
  {
    hide Run, Next, Alone, TakenForRepair, TakenRow;
    var e := BeginRepair(lease, job, now, leaseTime);
    var s1 := Next(s, e);
    var s2 := Next(s1, Act(lease, a));
    RepairBegins(s, lease, job, now, leaseTime);
    TakenRowIs(s.jobs[job], lease, now + leaseTime);
    RepairReadStep(s1, lease, a);
    TakeStep(s2, lease, Interruption(s.jobs[job]), a);
    RunFirst(s, e, Alone(lease, a, 6));
    AloneStep(s1, lease, a, 6);
    AloneStep(s2, lease, a, 5);
    assert Next(s2, Act(lease, a)) == Repairing(s, lease, job, now, leaseTime, RepairLooking);
  }

  lemma RepairBegins(s: Sys, lease: LeaseId, job: Key, now: int, leaseTime: int)
    requires lease !in s.operations && job in s.jobs
    ensures Next(s, BeginRepair(lease, job, now, leaseTime)) ==
      s.(operations := s.operations[lease := Operation(job, now, leaseTime, RepairReading)])
  {
  }

  lemma TakenRowIs(row: JobRow, lease: LeaseId, expires: int)
    ensures TakenForRepair(row, lease, expires, Interruption(row)) == TakenRow(row, lease, expires)
  {
  }

  /** What the repairer does with the row that it took. */
  lemma LookStep(s: Sys, lease: LeaseId, job: Key, now: int, leaseTime: int, a: Answers)
    requires CanRepair(s, lease, job, now)
    ensures var row := s.jobs[job];
      Next(Repairing(s, lease, job, now, leaseTime, RepairLooking), Act(lease, a)) ==
      Repairing(s, lease, job, now, leaseTime,
               if Interruption(row) == Some(AddTask) && !row.pasture && row.updateTaskPk.Some? then RepairChecking
               else if (Interruption(row) == Some(AddTask) && row.pasture)
                       || Interruption(row) == Some(UpdateState.Repair) then
                 RepairReleasing(true, Some(Complaint(row, a)))
               else RepairReleasingAgain(Some(Complaint(row, a))))
  {
    hide ScheduleCall, WorkCall, HasTaskIn;
  }

  lemma CheckStep(s: Sys, lease: LeaseId, job: Key, now: int, leaseTime: int, a: Answers)
    requires job in s.jobs
    ensures Next(Repairing(s, lease, job, now, leaseTime, RepairChecking), Act(lease, a)) ==
      Repairing(s, lease, job, now, leaseTime,
               if SomeTask(s.tasks, job, Pending) then RepairReleasing(false, None)
               else RepairReleasingAgain(Some(a.text)))
  {
    hide ScheduleCall, WorkCall, HasTaskIn;
    SameTasks(s.tasks, job, Pending);
  }

  function RepairedTo(s: Sys, lease: LeaseId, job: Key, now: int, leaseTime: int, pasture: bool,
                      reason: Option<string>): Sys
    requires job in s.jobs
  {
    s.(jobs := s.jobs[job := UnlockedRow(s.jobs[job], pasture, reason)],
       operations := s.operations[lease := Operation(job, now, leaseTime, Ended(Unlocked))])
  }

  lemma RepairReleases(s: Sys, lease: LeaseId, job: Key, now: int, leaseTime: int, pasture: bool,
                       reason: Option<string>, a: Answers, n: nat)
    requires job in s.jobs && n >= 1
    ensures Run(Repairing(s, lease, job, now, leaseTime, RepairReleasing(pasture, reason)), Alone(lease, a, n)) ==
      RepairedTo(s, lease, job, now, leaseTime, pasture, reason)
  {
    hide Run, Next, Alone, Released;
    var s1 := Repairing(s, lease, job, now, leaseTime, RepairReleasing(pasture, reason));
    RepairReleaseStep(s1, lease, pasture, reason, a);
    ReleasedRow(s1.jobs[job], pasture, reason);
    AloneStep(s1, lease, a, n);
    AloneEnded(Next(s1, Act(lease, a)), lease, a, n - 1);
    assert Next(s1, Act(lease, a)) == RepairedTo(s, lease, job, now, leaseTime, pasture, reason);
  }

  lemma RepairReleasesAgain(s: Sys, lease: LeaseId, job: Key, now: int, leaseTime: int, reason: Option<string>,
                            a: Answers, n: nat)
    requires job in s.jobs && n >= 1
    ensures Run(Repairing(s, lease, job, now, leaseTime, RepairReleasingAgain(reason)), Alone(lease, a, n)) ==
      RepairedTo(s, lease, job, now, leaseTime, true, reason)
  {
    hide Run, Next, Alone, Released;
    var s1 := Repairing(s, lease, job, now, leaseTime, RepairReleasingAgain(reason));
    ReleaseAgainStep(s1, lease, reason, a);
    ReleasedRow(s1.jobs[job], true, reason);
    AloneStep(s1, lease, a, n);
    AloneEnded(Next(s1, Act(lease, a)), lease, a, n - 1);
    assert Next(s1, Act(lease, a)) == RepairedTo(s, lease, job, now, leaseTime, true, reason);
  }

  lemma RepairReleaseStep(s: Sys, lease: LeaseId, pasture: bool, reason: Option<string>, a: Answers)
    requires At(s, lease, RepairReleasing(pasture, reason)) && OwnedBy(s.jobs[s.operations[lease].job], lease)
    ensures var job := s.operations[lease].job;
      Next(s, Act(lease, a)) ==
      Moved(s, lease, Ended(Unlocked)).(jobs := s.jobs[job := Released(s.jobs[job], pasture, reason)])
  {
    hide ScheduleCall, WorkCall, HasTaskIn, Released;
  }

  lemma RepairEnds(s: Sys, lease: LeaseId, job: Key, now: int, leaseTime: int, a: Answers)
    requires CanRepair(s, lease, job, now)
    ensures Run(s, RepairingAlone(lease, job, now, leaseTime, a)) ==
      RepairedTo(s, lease, job, now, leaseTime, !Repairable(s, job),
                 if Repairable(s, job) then None else Some(Complaint(s.jobs[job], a)))
  {
    hide Run, Next, Alone, Repairing, SomeTask, RepairedTo;
    var row := s.jobs[job];
    var s1 := Repairing(s, lease, job, now, leaseTime, RepairLooking);
    RepairTakes(s, lease, job, now, leaseTime, a);
    LookStep(s, lease, job, now, leaseTime, a);
    AloneStep(s1, lease, a, 4);
    if Interruption(row) == Some(AddTask) && !row.pasture && row.updateTaskPk.Some? {
      var s2 := Repairing(s, lease, job, now, leaseTime, RepairChecking);
      CheckStep(s, lease, job, now, leaseTime, a);
      AloneStep(s2, lease, a, 3);
      RepairReleases(s, lease, job, now, leaseTime, false, None, a, 2);
      RepairReleasesAgain(s, lease, job, now, leaseTime, Some(a.text), a, 2);
    } else {
      RepairReleases(s, lease, job, now, leaseTime, true, Some(Complaint(row, a)), a, 3);
      RepairReleasesAgain(s, lease, job, now, leaseTime, Some(Complaint(row, a)), a, 3);
    }
  }

  /**
   `repairExpiredSchedule` of an expired row, alone, unlocks it and touches no task. The schedule stays in use if
   and only if it was being created and its first task is pending; otherwise it is put out to pasture.
   */
  lemma RepairOutcome(s: Sys, lease: LeaseId, job: Key, now: int, leaseTime: int, a: Answers)
    requires CanRepair(s, lease, job, now)
    ensures var row, s' := s.jobs[job], Run(s, RepairingAlone(lease, job, now, leaseTime, a));
      && s'.tasks == s.tasks && s'.calls == s.calls
      && s'.jobs == s.jobs[job := JobRow(
           row.creation, row.duplicates, None, None, None, None, None, !Repairable(s, job),
           if Repairable(s, job) then None else Some(Complaint(row, a)))]
  {
    hide Run, RepairingAlone, Repairable, Complaint;
    RepairEnds(s, lease, job, now, leaseTime, a);
  }

  // ----- a broken call ---------------------------------------------------------------------------------------------

  /** In-lease work: from the first call after the lease is held to the last before it is left. */
  predicate InTheWork(pc: Pc) {
    || pc.CreatingJob? || pc.AddingFirstTask? || pc.Queueing? || pc.CheckingStarted? || pc.CallingJob? || pc.Skipping?
    || pc.Starting? || pc.CompletingNow? || pc.FailingNow? || pc.StartFailing? || pc.CheckingPending?
    || pc.AddingTask? || pc.FinishCompleting? || pc.FinishFailing?
  }

  /**
   A call that breaks in the work leaves the row, if it is still held, expired as of the operation's own time, and
   every task as it was: it can be repaired at once.
   */
  lemma BrokenWork(s: Sys, lease: LeaseId, kind: UpdateState, task: Option<Key>, a: Answers)
    requires lease in s.operations && InTheWork(s.operations[lease].pc)
    requires Holds(s, lease, s.operations[lease].pc, kind, task)
    ensures var op, row := s.operations[lease], s.jobs[s.operations[lease].job];
      Run(s, [Fault(lease)] + Alone(lease, a, 1)) ==
      s.(operations := s.operations[lease := op.(pc := Ended(LeftForRepair))],
         jobs := s.jobs[op.job := JobRow(row.creation, row.duplicates, Some(kind), task, Some(lease), Some(op.now),
                                         row.repairState, false, None)])
  {
    hide Run, Next, Alone;
    FaultStep(s, lease);
    RunFirst(s, Fault(lease), Alone(lease, a, 1));
    MarkEnds(Next(s, Fault(lease)), lease, kind, task, a, 1);
  }

  lemma FaultStep(s: Sys, lease: LeaseId)
    requires lease in s.operations
    ensures Next(s, Fault(lease)) == Moved(s, lease, Faulted(s.operations[lease].pc))
    ensures InTheWork(s.operations[lease].pc) ==> Faulted(s.operations[lease].pc) == MarkingRepair
  {
  }

  /** A broken check or release of a repair puts the schedule out to pasture. */
  lemma BrokenRepair(s: Sys, lease: LeaseId, a: Answers)
    requires lease in s.operations
    requires s.operations[lease].pc.RepairChecking? || s.operations[lease].pc.RepairReleasing?
    requires s.operations[lease].job in s.jobs && OwnedBy(s.jobs[s.operations[lease].job], lease)
    ensures var op, row := s.operations[lease], s.jobs[s.operations[lease].job];
      var s' := Run(s, [Fault(lease)] + Alone(lease, a, 1));
      && s'.tasks == s.tasks && s'.calls == s.calls
      && lease in s'.operations && s'.operations[lease].pc == Ended(Unlocked)
      && exists reason :: s'.jobs == s.jobs[op.job := UnlockedRow(row, true, Some(reason))]
  {
    hide Run, Next, Alone, UnlockedRow;
    var op, row, s1 := s.operations[lease], s.jobs[s.operations[lease].job], Next(s, Fault(lease));
    FaultStep(s, lease);
    RunFirst(s, Fault(lease), Alone(lease, a, 1));
    AloneStep(s1, lease, a, 1);
    ReleaseAgainStep(s1, lease, Some("fault"), a);
    ReleasedRow(s.jobs[op.job], true, Some("fault"));
    AloneEnded(Next(s1, Act(lease, a)), lease, a, 0);
    assert Run(s, [Fault(lease)] + Alone(lease, a, 1)) == Next(s1, Act(lease, a));
    assert Next(s1, Act(lease, a)).jobs == s.jobs[op.job := UnlockedRow(row, true, Some("fault"))];
  }

  /** On the way in and out of a lease there is nobody to leave it: it stays as it is until it expires. */
  predicate OnTheWay(pc: Pc) {
    || pc.Reading? || pc.Releasing? || pc.MarkingRepair? || pc.RepairReading? || pc.RepairTaking?
    || pc.RepairLooking? || pc.RepairReleasingAgain?
  }

  lemma BrokenOnTheWay(s: Sys, lease: LeaseId, a: Answers, n: nat)
    requires lease in s.operations && OnTheWay(s.operations[lease].pc)
    ensures Run(s, [Fault(lease)] + Alone(lease, a, n)) ==
      s.(operations := s.operations[lease := s.operations[lease].(pc := Ended(Abandoned))])
  {
    hide Run, Next, Alone;
    FaultStep(s, lease);
    RunFirst(s, Fault(lease), Alone(lease, a, n));
    AloneEnded(Next(s, Fault(lease)), lease, a, n);
  }
}
