/** Getting a schedule's lease and leaving it: controller/schedule.ts, and its callers in combined.ts. */
module Leases {
  import opened Wrappers
  import opened Model
  import opened DbImpl
  import opened Protocol
  import opened DataStore
  import opened Cluster
  import opened Controllers
  import Guarantees
  import L = LeaseSafety

  // ----- leaving a lease -------------------------------------------------------------

  /**
   The row as an ended operation left it: unlocked; or still under its lease id and expired as of its
   `now`; or not its own. Only a broken call leaves it in any other way.
   */
  ghost predicate Left(c: Cluster, lease: LeaseId, job: Key, now: int, ending: Ending)
    reads c, c.store
  {
    match ending
    case Unlocked => job in c.store.jobs && c.store.jobs[job].updateState == c.store.jobs[job].repairState == None
                     && c.store.jobs[job].leaseOwner == None && c.store.jobs[job].leaseExpires == None
    case LeftForRepair => job in c.store.jobs && c.store.jobs[job].updateState.Some?
                          && c.store.jobs[job].leaseOwner == Some(lease) && c.store.jobs[job].leaseExpires == Some(now)
    case Refused => job in c.store.jobs ==> c.store.jobs[job].leaseOwner != Some(lease)
    case NotObtained => job in c.store.jobs ==> c.store.jobs[job].leaseOwner != Some(lease)
    case Abandoned => c.trace != [] && c.trace[|c.trace| - 1] == Fault(lease)
  }

  /** An operation that ended well owns nothing, whatever its end was called. */
  lemma EndedNotOwner(c: Cluster, lease: LeaseId, op: Operation)
    requires c.Runs(lease, op) && L.EndedWell(op.pc)
    ensures op.job in c.store.jobs ==> c.store.jobs[op.job].leaseOwner != Some(lease)
  {
    hide Run, L.EndedWell;
    assert L.LeaseInv(Init()) && L.EndedOwnNothing(Init());
    L.EndedOwnNothingRun(Init(), c.trace);
  }

  method AwaitRelease(c: Cluster, lease: LeaseId, ghost op: Operation, job: Key, pasture: bool, reason: Option<string>)
    returns (ending: Ending)
    requires c.Runs(lease, op) && op.pc == Releasing(pasture, reason) && op.job == job
    modifies c, c.store
    ensures old(c.trace) <= c.trace
    ensures c.Runs(lease, op.(pc := Ended(ending))) && !ending.NotObtained? && Left(c, lease, job, op.now, ending)
  {
    hide Next, Run, WorkCall, RepairCall;
    var a := Outside();
    c.OtherNodes(lease);
    var broken: bool := *;
    if broken {
      c.Break(lease, op);
      return Abandoned;
    }
    var before := c.State();
    var ok := c.store.ReleaseScheduledJobLease(lease, job, pasture, reason);
    ActIs(before, lease, a);
    c.Record(Act(lease, a), before);
    if !ok {
      EndedNotOwner(c, lease, op.(pc := Ended(Refused)));
    }
    ending := if ok then Unlocked else Refused;
  }

  method AwaitNeedsRepair(c: Cluster, lease: LeaseId, ghost op: Operation, job: Key, now: int)
    returns (ending: Ending)
    requires c.Runs(lease, op) && op.pc == MarkingRepair && op.job == job && op.now == now
    modifies c, c.store
    ensures old(c.trace) <= c.trace
    ensures c.Runs(lease, op.(pc := Ended(ending))) && !ending.NotObtained? && Left(c, lease, job, now, ending)
  {
    hide Next, Run, WorkCall, RepairCall;
    var a := Outside();
    c.OtherNodes(lease);
    var broken: bool := *;
    if broken {
      c.Break(lease, op);
      return Abandoned;
    }
    var before := c.State();
    var ok := c.store.MarkLeasedScheduledJobNeedsRepair(job, lease, now, false, None);
    ActIs(before, lease, a);
    c.Record(Act(lease, a), before);
    if !ok {
      EndedNotOwner(c, lease, op.(pc := Ended(Refused)));
    }
    ending := if ok then LeftForRepair else Refused;
  }

  /** The result of the work decides between release and repair. */
  method LeaveLease(c: Cluster, lease: LeaseId, ghost op: Operation, job: Key, exit: LeaseExit, now: int)
    returns (ending: Ending)
    requires c.Runs(lease, op) && op.pc == exit.Leads() && op.job == job && op.now == now
    modifies c, c.store
    ensures old(c.trace) <= c.trace
    ensures c.Runs(lease, op.(pc := Ended(ending))) && !ending.NotObtained? && Left(c, lease, job, now, ending)
  {
    hide Next, Run, Left;
    match exit
    case Value(pasture, reason) => ending := AwaitRelease(c, lease, op, job, pasture, reason);
    case Error(true, text) => ending := AwaitRelease(c, lease, op, job, true, Some(text));
    case Error(false, _) => ending := AwaitNeedsRepair(c, lease, op, job, now);
  }

  // ----- runUpdateInLease ---------------------------------------------------------------

  method AwaitLease(c: Cluster, lease: LeaseId, ghost op: Operation, ghost known: JobRow, job: Key, work: Work,
                    ghost retries: nat, now: int, leaseTime: int)
    returns (ok: bool)
    requires c.At(lease, op, known) && op == Operation(job, now, leaseTime, Leasing(work, retries))
    modifies c, c.store
    ensures old(c.trace) <= c.trace
    ensures c.At(lease, op.(pc := if ok then Reading(work)
                                  else if retries > 0 then Leasing(work, retries - 1)
                                  else Ended(NotObtained)), known)
  {
    hide Next, Run, WorkCall, RepairCall;
    var a := Outside();
    c.OtherNodes(lease);
    var broken: bool := *;
    if broken {
      c.Break(lease, op);
      return false;
    }
    var before := c.State();
    ok := c.store.LeaseScheduledJob(job, work.UpdateState(), work.UpdateTask(), lease, now, leaseTime);
    ActIs(before, lease, a);
    c.Record(Act(lease, a), before);
  }

  method AwaitScheduledJob(c: Cluster, lease: LeaseId, ghost op: Operation, ghost known: JobRow, job: Key, work: Work)
    returns (sched: Option<JobRow>)
    requires c.At(lease, op, known) && op.job == job && op.pc == Reading(work)
    modifies c, c.store
    ensures old(c.trace) <= c.trace
    ensures sched.Some? ==> c.At(lease, op.(pc := FirstCall(work)), sched.value)
    ensures sched.None? ==> c.Runs(lease, op.(pc := Ended(Abandoned))) && Left(c, lease, job, op.now, Abandoned)
  {
    hide Next, Run, WorkCall, RepairCall;
    var a := Outside();
    c.OtherNodes(lease);
    var broken: bool := *;
    if broken {
      c.Break(lease, op);
      return None;
    }
    sched := c.store.GetScheduledJob(job);
    ActIs(c.State(), lease, a);
    c.Record(Act(lease, a), c.State());
  }

  /** Tries for the lease once and then once per retry; with it, does the work and leaves. */
  method RunUpdateInLease(c: Cluster, lease: LeaseId, job: Key, work: Work, now: int, leaseTime: int, retries: nat)
    returns (ending: Ending)
    requires c.Runs(lease, Operation(job, now, leaseTime, Leasing(work, retries))) && job in c.store.jobs
    modifies c, c.store
    ensures old(c.trace) <= c.trace
    ensures c.Runs(lease, Operation(job, now, leaseTime, Ended(ending))) && Left(c, lease, job, now, ending)
  {
    hide Next, Run, Left, FirstCall;
    ghost var op := Operation(job, now, leaseTime, Leasing(work, retries));
    ghost var known := c.store.jobs[job];
    var obtained := AwaitLease(c, lease, op, known, job, work, retries, now, leaseTime);
    var left := retries;
    while !obtained && left > 0
      invariant old(c.trace) <= c.trace
      invariant c.At(lease, op.(pc := if obtained then Reading(work)
                                      else if left > 0 then Leasing(work, left - 1)
                                      else Ended(NotObtained)), known)
    {
      left := left - 1;
      obtained := AwaitLease(c, lease, op.(pc := Leasing(work, left)), known, job, work, left, now, leaseTime);
    }
    if !obtained {
      NotObtainedLeaves(c, lease, op.(pc := Ended(NotObtained)));
      return NotObtained;
    }
    var sched := AwaitScheduledJob(c, lease, op.(pc := Reading(work)), known, job, work);
    if sched.None? {
      return Abandoned;
    }
    var exit := WithLease(c, lease, op.(pc := FirstCall(work)), sched.value, work, now);
    ending := LeaveLease(c, lease, op.(pc := exit.Leads()), job, exit, now);
  }

  lemma NotObtainedLeaves(c: Cluster, lease: LeaseId, op: Operation)
    requires c.Runs(lease, op) && op.pc == Ended(NotObtained)
    ensures Left(c, lease, op.job, op.now, NotObtained)
  {
    EndedNotOwner(c, lease, op);
  }

  method WithLease(c: Cluster, lease: LeaseId, ghost op: Operation, sched: JobRow, work: Work, now: int)
    returns (exit: LeaseExit)
    requires c.At(lease, op, sched) && op.pc == FirstCall(work) && op.now == now
    modifies c, c.store
    ensures old(c.trace) <= c.trace
    ensures c.At(lease, op.(pc := exit.Leads()), sched)
  {
    hide Next, Run;
    match work
    case Start(task) => exit := StartTaskInLease(c, lease, op, sched, task, now);
    case Finish(task, report) => exit := FinishTaskInLease(c, lease, op, sched, task, report, now);
    case DisableJob(reason) => exit := Value(true, if reason == Some("") then None else reason);
  }

  // ----- startTask, taskFinished and disableSchedule ---------------------------------------

  /** Starts a stored task: `startTask`. */
  method StartTask(c: Cluster, lease: LeaseId, task: Key, now: int, leaseTime: int, retries: nat)
    returns (ending: Ending)
    requires c.Valid() && lease !in c.operations && task in c.store.tasks
    modifies c, c.store
    ensures c.Valid() && old(c.trace) <= c.trace
    ensures Left(c, lease, old(c.store.tasks[task].schedule), now, ending)
  {
    hide Run, Left;
    ending := RunForTask(c, lease, task, Start(task), now, leaseTime, retries);
  }

  /** Takes a report on a stored task: `taskFinished`. */
  method TaskFinished(c: Cluster, lease: LeaseId, task: Key, report: JobReport, now: int, leaseTime: int, retries: nat)
    returns (ending: Ending)
    requires c.Valid() && lease !in c.operations && task in c.store.tasks
    modifies c, c.store
    ensures c.Valid() && old(c.trace) <= c.trace
    ensures Left(c, lease, old(c.store.tasks[task].schedule), now, ending)
  {
    hide Run, Left;
    ending := RunForTask(c, lease, task, Finish(task, report), now, leaseTime, retries);
  }

  method RunForTask(c: Cluster, lease: LeaseId, task: Key, work: Work, now: int, leaseTime: int, retries: nat)
    returns (ending: Ending)
    requires c.Valid() && lease !in c.operations && task in c.store.tasks && work.UpdateTask() == Some(task)
    modifies c, c.store
    ensures c.Valid() && old(c.trace) <= c.trace
    ensures Left(c, lease, old(c.store.tasks[task].schedule), now, ending)
  {
    hide Run, Left, Call, Faulted;
    TaskHasSchedule(c, task);
    var job := c.store.tasks[task].schedule;
    c.Record(BeginTask(lease, work, now, leaseTime, retries), c.State());
    ending := RunUpdateInLease(c, lease, job, work, now, leaseTime, retries);
  }

  lemma TaskHasSchedule(c: Cluster, task: Key)
    requires c.Valid() && task in c.store.tasks
    ensures c.store.tasks[task].schedule in c.store.jobs
  {
    Guarantees.InitSound(0);
    Guarantees.SoundRun(Init(), c.trace);
  }

  method DisableSchedule(c: Cluster, lease: LeaseId, job: Key, reason: Option<string>, now: int, leaseTime: int,
                         retries: nat)
    returns (ending: Ending)
    requires c.Valid() && lease !in c.operations && job in c.store.jobs
    modifies c, c.store
    ensures c.Valid() && old(c.trace) <= c.trace && Left(c, lease, job, now, ending)
  {
    hide Run, Left, Call, Faulted;
    c.Record(BeginDisable(lease, job, reason, now, leaseTime, retries), c.State());
    ending := RunUpdateInLease(c, lease, job, DisableJob(reason), now, leaseTime, retries);
  }

  // ----- createScheduledJob ------------------------------------------------------------------

  method AwaitAddScheduledJob(c: Cluster, lease: LeaseId, ghost op: Operation, job: Key, first: Key, row: JobRow)
    returns (ok: bool)
    requires c.Runs(lease, op) && op.job == job && op.pc.CreatingJob? && op.pc.first == first
    requires row == NewJob(op.pc.creation, op.pc.duplicates, first, lease, op.now + op.leaseTime)
    modifies c, c.store
    ensures old(c.trace) <= c.trace
    ensures ok ==> c.At(lease, op.(pc := AddingFirstTask(first)), row)
    ensures !ok ==> c.Runs(lease, op.(pc := MarkingRepair))
  {
    hide Next, Run, WorkCall, RepairCall;
    var a := Outside();
    c.OtherNodes(lease);
    var broken: bool := *;
    if broken {
      c.Break(lease, op);
      return false;
    }
    var before := c.State();
    ok := c.store.AddScheduledJobModel(job, row);
    ActIs(before, lease, a);
    c.Record(Act(lease, a), before);
  }

  method AwaitAddFirstTask(c: Cluster, lease: LeaseId, ghost op: Operation, sched: JobRow, job: Key, first: Key,
                           now: int)
    returns (exit: LeaseExit)
    requires c.At(lease, op, sched) && op.pc == AddingFirstTask(first) && op.job == job && op.now == now
    modifies c, c.store
    ensures old(c.trace) <= c.trace
    ensures c.Runs(lease, op.(pc := exit.Leads()))
  {
    hide Next, Run, ScheduleCall, RepairCall;
    var a := Outside();
    c.OtherNodes(lease);
    var broken: bool := *;
    if broken {
      c.Break(lease, op);
      return Error(false, "");
    }
    var before := c.State();
    ActIs(before, lease, a);
    if a.creation.Throws? {
      exit := Error(a.invalid, a.text);
    } else {
      var ok := c.store.AddTask(first, TaskRow(job, Pending, now, a.time, None, None, None, None, None));
      exit := if ok then Value(false, None) else Error(false, "");
    }
    c.Record(Act(lease, a), before);
  }

  /** Creates the schedule in a leased state, adds its first task, and releases it. */
  method CreateScheduledJob(c: Cluster, lease: LeaseId, creation: Creation, duplicates: Duplicates,
                            now: int, leaseTime: int)
    returns (job: Key, ending: Ending)
    requires c.Valid() && lease !in c.operations
    modifies c, c.store
    ensures c.Valid() && old(c.trace) <= c.trace && Left(c, lease, job, now, ending)
  {
    hide Run, Left, Call, Faulted;
    job := CreatePrimaryKey(c.used);
    var first := CreatePrimaryKey(c.used + {job});
    c.Record(BeginCreate(lease, job, first, creation, duplicates, now, leaseTime), c.State());
    ghost var op := Operation(job, now, leaseTime, CreatingJob(first, creation, duplicates));
    var row := JobRow(creation, duplicates, Some(AddTask), Some(first), Some(lease), Some(now + leaseTime), None,
                      false, None);
    var added := AwaitAddScheduledJob(c, lease, op, job, first, row);
    var exit := Error(false, "");
    if added {
      exit := AwaitAddFirstTask(c, lease, op.(pc := AddingFirstTask(first)), row, job, first, now);
    }
    ending := LeaveLease(c, lease, op.(pc := exit.Leads()), job, exit, now);
  }
}
