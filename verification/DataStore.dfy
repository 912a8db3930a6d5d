/**
 The shared store, datastore/db-impl.ts: every method is one atomic update or read of the two tables.
 A conditional update that matches no row is an error to its caller.
 */
module DataStore {
  import opened Wrappers
  import opened Model
  import opened DbImpl
  import opened Protocol

  class DatabaseDataStore {
    var jobs: map<Key, JobRow>
    var tasks: map<Key, TaskRow>

    constructor ()
      ensures jobs == map[] && tasks == map[]
    {
      jobs, tasks := map[], map[];
    }

    // ----- schedule rows ---------------------------------------------------------

    method AddScheduledJobModel(pk: Key, row: JobRow) returns (ok: bool)
      modifies this`jobs
      ensures ok == (pk !in old(jobs))
      ensures jobs == if ok then old(jobs)[pk := row] else old(jobs)
    {
      ok := pk !in jobs;
      if ok {
        jobs := jobs[pk := row];
      }
    }

    method GetScheduledJob(pk: Key) returns (row: Option<JobRow>)
      ensures row.Some? <==> pk in jobs
      ensures row.Some? ==> row.value == jobs[pk]
    {
      row := if pk in jobs then Some(jobs[pk]) else None;
    }

    method LeaseScheduledJob(pk: Key, op: UpdateState, task: Option<Key>, lease: LeaseId, now: int, leaseTime: int)
      returns (ok: bool)
      modifies this`jobs
      ensures ok == (pk in old(jobs) && CanLease(old(jobs)[pk]))
      ensures jobs == if ok then old(jobs)[pk := Leased(old(jobs)[pk], op, task, lease, now + leaseTime)] else old(jobs)
    {
      ok := pk in jobs && jobs[pk].updateState == None;
      if ok {
        jobs := jobs[pk := jobs[pk].(updateState := Some(op), updateTaskPk := task, leaseOwner := Some(lease),
                                     leaseExpires := Some(now + leaseTime))];
      }
    }

    method ReleaseScheduledJobLease(lease: LeaseId, pk: Key, pasture: bool, reason: Option<string>) returns (ok: bool)
      modifies this`jobs
      ensures ok == (pk in old(jobs) && OwnedBy(old(jobs)[pk], lease))
      ensures jobs == if ok then old(jobs)[pk := Released(old(jobs)[pk], pasture, reason)] else old(jobs)
    {
      ok := pk in jobs && jobs[pk].updateState != None && jobs[pk].leaseOwner == Some(lease);
      if ok {
        jobs := jobs[pk := jobs[pk].(updateState := None, updateTaskPk := None, leaseOwner := None,
                                     leaseExpires := None, repairState := None,
                                     pasture := pasture, pastureReason := reason)];
      }
    }

    /** The conditional update of `repairExpiredLeaseForScheduledJob`, with what was read before it. */
    method TakeExpiredLease(pk: Key, lease: LeaseId, now: int, leaseTime: int, interrupted: Option<UpdateState>)
      returns (ok: bool)
      modifies this`jobs
      ensures ok == (pk in old(jobs) && Expired(old(jobs)[pk], now))
      ensures jobs ==
        if ok then old(jobs)[pk := TakenForRepair(old(jobs)[pk], lease, now + leaseTime, interrupted)] else old(jobs)
    {
      ok := pk in jobs && jobs[pk].updateState != None && jobs[pk].leaseExpires != None
            && jobs[pk].leaseExpires.value < now;
      if ok {
        jobs := jobs[pk := jobs[pk].(updateState := Some(Repair), leaseOwner := Some(lease),
                                     leaseExpires := Some(now + leaseTime), repairState := interrupted)];
      }
    }

    method MarkLeasedScheduledJobNeedsRepair(pk: Key, lease: LeaseId, now: int, pasture: bool, reason: Option<string>)
      returns (ok: bool)
      modifies this`jobs
      ensures ok == (pk in old(jobs) && OwnedBy(old(jobs)[pk], lease))
      ensures jobs == if ok then old(jobs)[pk := MarkedForRepair(old(jobs)[pk], now, pasture, reason)] else old(jobs)
    {
      ok := pk in jobs && jobs[pk].updateState != None && jobs[pk].leaseOwner == Some(lease);
      if ok {
        jobs := jobs[pk := jobs[pk].(leaseExpires := Some(now), pasture := pasture, pastureReason := reason)];
      }
    }

    // ----- task rows ---------------------------------------------------------------

    method AddTask(pk: Key, row: TaskRow) returns (ok: bool)
      modifies this`tasks
      ensures ok == (pk !in old(tasks))
      ensures tasks == if ok then old(tasks)[pk := row] else old(tasks)
    {
      ok := pk !in tasks;
      if ok {
        tasks := tasks[pk := row];
      }
    }

    method MarkTaskState(pk: Key, expected: TaskState, write: TaskRow -> TaskRow) returns (ok: bool)
      modifies this`tasks
      ensures ok == (pk in old(tasks) && old(tasks)[pk].state == expected)
      ensures tasks == if ok then old(tasks)[pk := write(old(tasks)[pk])] else old(tasks)
    {
      ok := pk in tasks && tasks[pk].state == expected;
      if ok {
        tasks := tasks[pk := write(tasks[pk])];
      }
    }

    /** The six marks. */
    method MarkTask(pk: Key, mark: Mark, time: int) returns (ok: bool)
      modifies this`tasks
      ensures ok == (pk in old(tasks) && old(tasks)[pk].state == mark.Expects())
      ensures tasks == if ok then old(tasks)[pk := mark.Marked(old(tasks)[pk], time)] else old(tasks)
    {
      match mark
      case MarkQueued =>
        ok := MarkTaskState(pk, Pending, (row: TaskRow) => row.(executionQueued := Some(time), state := Queued));
      case MarkStarted(job) =>
        ok := MarkTaskState(pk, Queued, (row: TaskRow) =>
          row.(executionStarted := Some(time), executionJobId := Some(job), state := Started));
      case MarkStartFailed(reason) =>
        ok := MarkTaskState(pk, Queued, (row: TaskRow) =>
          row.(executionStarted := Some(time), completedInfo := Some(reason), state := StartError));
      case MarkCompleted(info) =>
        ok := MarkTaskState(pk, Started, (row: TaskRow) =>
          row.(executionFinished := Some(time), completedInfo := Some(info), state := Completed));
      case MarkSkipped =>
        ok := MarkTaskState(pk, Queued, (row: TaskRow) =>
          row.(executionFinished := Some(time), completedInfo := Some("{\"skipped\":true}"), state := Completed));
      case MarkFailed(expected, failed, info) =>
        ok := MarkTaskState(pk, expected, (row: TaskRow) =>
          row.(executionFinished := Some(time), completedInfo := Some(info), state := failed));
    }

    /** `getTasksForScheduledJob`, for callers that only ask whether there are any. */
    method AnyTaskForScheduledJob(job: Key, state: TaskState) returns (found: bool)
      ensures found == HasTaskIn(tasks, job, state)
    {
      var keys := tasks.Keys;
      while keys != {}
        invariant keys <= tasks.Keys
        invariant forall k :: k in tasks && k !in keys ==> !(tasks[k].schedule == job && tasks[k].state == state)
        decreases |keys|
      {
        var k :| k in keys;
        if tasks[k].schedule == job && tasks[k].state == state {
          return true;
        }
        keys := keys - {k};
      }
      found := false;
    }

    method DeleteFinishedTask(pk: Key) returns (ok: bool)
      modifies this`tasks
      ensures ok == (pk in old(tasks) && IsFinished(old(tasks)[pk].state))
      ensures tasks == if ok then old(tasks) - {pk} else old(tasks)
    {
      ok := pk in tasks && IsFinished(tasks[pk].state);
      if ok {
        tasks := tasks - {pk};
      }
    }
  }
}
