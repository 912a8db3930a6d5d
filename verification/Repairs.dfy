/** Repairing a schedule whose lease has expired: controller/repair.ts. */
module Repairs {
  import opened Wrappers
  import opened Model
  import opened DbImpl
  import opened Protocol
  import opened DataStore
  import opened Cluster
  import opened Controllers
  import opened Leases

  // ----- repairExpiredLeaseForScheduledJob ----------------------------------------------

  /** Its first call reads the row. */
  method AwaitRepairRead(c: Cluster, lease: LeaseId, ghost op: Operation, ghost known: JobRow, job: Key)
    returns (src: Option<JobRow>)
    requires c.At(lease, op, known) && op.pc == RepairReading && op.job == job
    modifies c, c.store
    ensures old(c.trace) <= c.trace
    ensures src.Some? ==> c.At(lease, op.(pc := RepairTaking(Interrupted(src.value))), known)
    ensures src.None? ==> c.Runs(lease, op.(pc := Ended(Abandoned))) && Left(c, lease, job, op.now, Abandoned)
  {
    hide Next, Run, WorkCall, ScheduleCall, Interrupted;
    var a := Outside();
    c.OtherNodes(lease);
    var broken: bool := *;
    if broken {
      c.Break(lease, op);
      return None;
    }
    src := c.store.GetScheduledJob(job);
    ActIs(c.State(), lease, a);
    c.Record(Act(lease, a), c.State());
  }

  /** Its second call takes the row, if the lease on it has expired by `now`. */
  method AwaitTakeExpired(c: Cluster, lease: LeaseId, ghost op: Operation, ghost known: JobRow, job: Key,
                          now: int, leaseTime: int, interrupted: Option<UpdateState>)
    returns (taken: bool, ending: Ending)
    requires c.At(lease, op, known) && op == Operation(job, now, leaseTime, RepairTaking(interrupted))
    modifies c, c.store
    ensures old(c.trace) <= c.trace
    ensures taken ==> c.At(lease, op.(pc := RepairLooking), known)
    ensures !taken ==> c.Runs(lease, op.(pc := Ended(ending))) && Left(c, lease, job, now, ending)
  {
    hide Next, Run, WorkCall, ScheduleCall;
    var a := Outside();
    c.OtherNodes(lease);
    taken, ending := false, Abandoned;
    var broken: bool := *;
    if broken {
      c.Break(lease, op);
      return;
    }
    var before := c.State();
    taken := c.store.TakeExpiredLease(job, lease, now, leaseTime, interrupted);
    ActIs(before, lease, a);
    c.Record(Act(lease, a), before);
    if !taken {
      ending := NotObtained;
      NotObtainedLeaves(c, lease, op.(pc := Ended(NotObtained)));
    }
  }

  /** Its third call reads the row that `performRepair` decides on. */
  method AwaitTakenRow(c: Cluster, lease: LeaseId, ghost op: Operation, ghost known: JobRow, job: Key, a: Answers)
    returns (schedule: Option<JobRow>)
    requires c.At(lease, op, known) && op.pc == RepairLooking && op.job == job
    modifies c, c.store
    ensures old(c.trace) <= c.trace
    ensures schedule.Some? ==> c.At(lease, op.(pc := RepairOf(schedule.value, a)), known)
    ensures schedule.None? ==> c.Runs(lease, op.(pc := Ended(Abandoned))) && Left(c, lease, job, op.now, Abandoned)
  {
    hide Next, Run, WorkCall, ScheduleCall, RepairOf;
    c.OtherNodes(lease);
    var broken: bool := *;
    if broken {
      c.Break(lease, op);
      return None;
    }
    schedule := c.store.GetScheduledJob(job);
    ActIs(c.State(), lease, a);
    c.Record(Act(lease, a), c.State());
  }

  /** All three. Without a row the operation has ended. */
  method RepairExpiredLease(c: Cluster, lease: LeaseId, ghost op: Operation, ghost known: JobRow, job: Key, now: int,
                            leaseTime: int, a: Answers)
    returns (schedule: Option<JobRow>, ending: Ending)
    requires c.At(lease, op, known) && op == Operation(job, now, leaseTime, RepairReading)
    modifies c, c.store
    ensures old(c.trace) <= c.trace
    ensures schedule.Some? ==> c.At(lease, op.(pc := RepairOf(schedule.value, a)), known)
    ensures schedule.None? ==> c.Runs(lease, op.(pc := Ended(ending))) && Left(c, lease, job, now, ending)
  {
    hide Next, Run, Left, RepairOf, Interrupted;
    schedule, ending := None, Abandoned;
    var src := AwaitRepairRead(c, lease, op, known, job);
    if src.Some? {
      var interrupted := Interrupted(src.value);
      var taken;
      taken, ending := AwaitTakeExpired(c, lease, op.(pc := RepairTaking(interrupted)), known, job, now, leaseTime,
                                        interrupted);
      if taken {
        ending := Abandoned;
        schedule := AwaitTakenRow(c, lease, op.(pc := RepairLooking), known, job, a);
      }
    }
  }

  // ----- performRepair ----------------------------------------------------------------------

  /** How a repair ends: with a pasture reason or none, or rejected with an error. */
  datatype RepairExit = Exits(pasture: bool, reason: Option<string>) | Rejects(error: string)
  {
    function Leads(): Pc {
      match this
      case Exits(pasture, reason) => RepairReleasing(pasture, reason)
      case Rejects(error) => RepairReleasingAgain(Some(error))
    }
  }

  method PerformRepair(c: Cluster, lease: LeaseId, ghost op: Operation, ghost known: JobRow, schedule: JobRow,
                       a: Answers)
    returns (exit: RepairExit)
    requires c.At(lease, op, known) && op.pc == RepairOf(schedule, a)
    modifies c, c.store
    ensures old(c.trace) <= c.trace
    ensures c.At(lease, op.(pc := exit.Leads()), known)
  {
    hide Next, Run;
    match schedule.repairState
    case Some(AddTask) => exit := RepairAddTask(c, lease, op, known, schedule, a);
    case Some(StartTask) => exit := Rejects(a.text);
    case Some(EndTask) => exit := Rejects(a.text);
    case Some(Pasture) => exit := Rejects(a.text);
    case Some(Repair) => exit := Exits(true, Some("Invalid internal state discovered during repair"));
    case None => exit := Exits(true, Some("Invalid internal state discovered during repair"));
  }

  method RepairAddTask(c: Cluster, lease: LeaseId, ghost op: Operation, ghost known: JobRow, schedule: JobRow,
                       a: Answers)
    returns (exit: RepairExit)
    requires c.At(lease, op, known) && op.pc == RepairOf(schedule, a) && schedule.repairState == Some(AddTask)
    modifies c, c.store
    ensures old(c.trace) <= c.trace
    ensures c.At(lease, op.(pc := exit.Leads()), known)
  {
    hide Next, Run, WorkCall, ScheduleCall;
    if schedule.pasture {
      var given := schedule.pastureReason.Some? && schedule.pastureReason.value != "";
      return Exits(true, if given then schedule.pastureReason else Some("<invalid state>"));
    }
    if schedule.updateTaskPk.None? {
      return Rejects(a.text);
    }
    var b := Outside();
    c.OtherNodes(lease);
    var broken: bool := *;
    if broken {
      c.Break(lease, op);
      return Rejects("fault");
    }
    var before := c.State();
    var created := c.store.AnyTaskForScheduledJob(before.operations[lease].job, Pending);
    ActIs(before, lease, b);
    c.Record(Act(lease, b), before);
    exit := if created then Exits(false, None) else Rejects(b.text);
  }

  // ----- repairExpiredSchedule -----------------------------------------------------------------

  /** The release after a repair. A failure of it is caught, with its error. */
  method AwaitRepairRelease(c: Cluster, lease: LeaseId, ghost op: Operation, ghost known: JobRow, job: Key,
                            pasture: bool, reason: Option<string>)
    returns (ok: bool, error: string)
    requires c.At(lease, op, known) && op.job == job && op.pc == RepairReleasing(pasture, reason)
    modifies c, c.store
    ensures old(c.trace) <= c.trace
    ensures ok ==> c.Runs(lease, op.(pc := Ended(Unlocked))) && Left(c, lease, job, op.now, Unlocked)
    ensures !ok ==> c.Runs(lease, op.(pc := RepairReleasingAgain(Some(error))))
  {
    hide Next, Run, WorkCall, ScheduleCall, RepairOf, Interrupted, HasTaskIn, TakenForRepair;
    var a := Outside();
    c.OtherNodes(lease);
    var broken: bool := *;
    if broken {
      c.Break(lease, op);
      return false, "fault";
    }
    var before := c.State();
    ok := c.store.ReleaseScheduledJobLease(lease, job, pasture, reason);
    ActIs(before, lease, a);
    c.Record(Act(lease, a), before);
    error := a.text;
  }

  /** The release after a rejected repair, or after a release that failed. */
  method AwaitReleaseAgain(c: Cluster, lease: LeaseId, ghost op: Operation, job: Key, error: string)
    returns (ending: Ending)
    requires c.Runs(lease, op) && op.job == job && op.pc == RepairReleasingAgain(Some(error))
    modifies c, c.store
    ensures old(c.trace) <= c.trace
    ensures c.Runs(lease, op.(pc := Ended(ending))) && Left(c, lease, job, op.now, ending)
  {
    hide Next, Run, WorkCall, ScheduleCall, RepairOf, Interrupted, HasTaskIn, TakenForRepair;
    var a := Outside();
    c.OtherNodes(lease);
    var broken: bool := *;
    if broken {
      c.Break(lease, op);
      return Abandoned;
    }
    var before := c.State();
    var ok := c.store.ReleaseScheduledJobLease(lease, job, true, Some(error));
    ActIs(before, lease, a);
    c.Record(Act(lease, a), before);
    if !ok {
      EndedNotOwner(c, lease, op.(pc := Ended(Refused)));
    }
    ending := if ok then Unlocked else Refused;
  }

  method LeaveRepair(c: Cluster, lease: LeaseId, ghost op: Operation, ghost known: JobRow, job: Key, exit: RepairExit)
    returns (ending: Ending)
    requires c.At(lease, op, known) && op.job == job && op.pc == exit.Leads()
    modifies c, c.store
    ensures old(c.trace) <= c.trace
    ensures c.Runs(lease, op.(pc := Ended(ending))) && Left(c, lease, job, op.now, ending)
  {
    hide Next, Run, Left;
    match exit
    case Exits(pasture, reason) =>
      var ok, error := AwaitRepairRelease(c, lease, op, known, job, pasture, reason);
      ending := Unlocked;
      if !ok {
        ending := AwaitReleaseAgain(c, lease, op.(pc := RepairReleasingAgain(Some(error))), job, error);
      }
    case Rejects(error) => ending := AwaitReleaseAgain(c, lease, op, job, error);
  }

  method RepairExpiredSchedule(c: Cluster, lease: LeaseId, job: Key, now: int, leaseTime: int)
    returns (ending: Ending)
    requires c.Valid() && lease !in c.operations && job in c.store.jobs
    modifies c, c.store
    ensures c.Valid() && old(c.trace) <= c.trace && Left(c, lease, job, now, ending)
  {
    hide Run, Left, Call, Faulted;
    ghost var known := c.store.jobs[job];
    c.Record(BeginRepair(lease, job, now, leaseTime), c.State());
    ending := RepairInLease(c, lease, Operation(job, now, leaseTime, RepairReading), known, job, now, leaseTime);
  }

  method RepairInLease(c: Cluster, lease: LeaseId, ghost op: Operation, ghost known: JobRow, job: Key, now: int,
                       leaseTime: int)
    returns (ending: Ending)
    requires c.At(lease, op, known) && op == Operation(job, now, leaseTime, RepairReading)
    modifies c, c.store
    ensures old(c.trace) <= c.trace
    ensures c.Runs(lease, op.(pc := Ended(ending))) && Left(c, lease, job, now, ending)
  {
    hide Next, Run, Left, RepairOf, RepairExit.Leads;
    var a := Outside();
    var schedule;
    schedule, ending := RepairExpiredLease(c, lease, op, known, job, now, leaseTime, a);
    if schedule.Some? {
      var exit := PerformRepair(c, lease, op.(pc := RepairOf(schedule.value, a)), known, schedule.value, a);
      ending := LeaveRepair(c, lease, op.(pc := exit.Leads()), known, job, exit);
    }
  }
}
