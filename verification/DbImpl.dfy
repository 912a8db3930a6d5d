/**
 The atomic conditional updates of datastore/db-impl.ts, as functions on one row.

 Each is a guard, which is the update's where-clause, and the row it writes.
 */
module DbImpl {
  import opened Wrappers
  import opened Model

  // ----- schedule rows -------------------------------------------------------

  predicate CanLease(row: JobRow) {
    row.updateState.None?
  }

  function Leased(row: JobRow, op: UpdateState, task: Option<Key>, lease: LeaseId, expires: int): JobRow {
    row.(updateState := Some(op), updateTaskPk := task, leaseOwner := Some(lease), leaseExpires := Some(expires))
  }

  /** The guard of release and of mark-for-repair. An expired lease is still owned. */
  predicate OwnedBy(row: JobRow, lease: LeaseId) {
    row.updateState.Some? && row.leaseOwner == Some(lease)
  }

  function Released(row: JobRow, pasture: bool, reason: Option<string>): JobRow {
    row.(updateState := None, updateTaskPk := None, leaseOwner := None, leaseExpires := None,
         repairState := None, pasture := pasture, pastureReason := reason)
  }

  function MarkedForRepair(row: JobRow, now: int, pasture: bool, reason: Option<string>): JobRow {
    row.(leaseExpires := Some(now), pasture := pasture, pastureReason := reason)
  }

  predicate Expired(row: JobRow, now: int) {
    row.updateState.Some? && row.leaseExpires.Some? && row.leaseExpires.value < now
  }

  /** What a repairer remembers of the row it read before its update. */
  function Interrupted(row: JobRow): Option<UpdateState> {
    if row.repairState.Some? then row.repairState else row.updateState
  }

  function TakenForRepair(row: JobRow, lease: LeaseId, expires: int, interrupted: Option<UpdateState>): JobRow {
    row.(updateState := Some(Repair), leaseOwner := Some(lease), leaseExpires := Some(expires),
         repairState := interrupted)
  }

  function NewJob(creation: Creation, duplicates: Duplicates, task: Key, lease: LeaseId, expires: int): JobRow {
    JobRow(creation, duplicates, Some(AddTask), Some(task), Some(lease), Some(expires), None, false, None)
  }

  // ----- task rows -----------------------------------------------------------

  function NewTask(schedule: Key, now: int, executeAt: int): TaskRow {
    TaskRow(schedule, Pending, now, executeAt, None, None, None, None, None)
  }

  /** The marks: which state each expects, and what it writes. */
  datatype Mark =
    | MarkQueued
    | MarkStarted(job: JobId)
    | MarkStartFailed(reason: string)
    | MarkCompleted(info: string)
    | MarkSkipped
    | MarkFailed(expected: TaskState, failed: TaskState, info: string)
  {
    function Expects(): TaskState {
      match this
      case MarkQueued => Pending
      case MarkStarted(_) => Queued
      case MarkStartFailed(_) => Queued
      case MarkCompleted(_) => Started
      case MarkSkipped => Queued
      case MarkFailed(expected, _, _) => expected
    }

    function Marked(row: TaskRow, now: int): TaskRow {
      match this
      case MarkQueued => row.(state := Queued, executionQueued := Some(now))
      case MarkStarted(job) => row.(state := Started, executionStarted := Some(now), executionJobId := Some(job))
      case MarkStartFailed(reason) =>
        row.(state := StartError, executionStarted := Some(now), completedInfo := Some(reason))
      case MarkCompleted(info) =>
        row.(state := Completed, executionFinished := Some(now), completedInfo := Some(info))
      case MarkSkipped =>
        row.(state := Completed, executionFinished := Some(now), completedInfo := Some("{\"skipped\":true}"))
      case MarkFailed(_, failed, info) =>
        row.(state := failed, executionFinished := Some(now), completedInfo := Some(info))
    }
  }

  // ----- task life -----------------------------------------------------------

  /** How far a task has come. */
  function Rank(state: TaskState): nat {
    match state
    case Pending => 0
    case Queued => 1
    case Started => 2
    case CompleteQueued => 3
    case _ => 4
  }

  predicate IsFinished(state: TaskState) {
    state == StartError || state == CompleteError || state == Failed || state == FailRestarted || state == Completed
  }
}
