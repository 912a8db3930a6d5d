/** The stored rows: model/schedule.ts, model/task.ts and datastore/db-api.ts. */
module Model {
  import opened Wrappers

  /** Keys and lease ids are only compared for equality. */
  type Key = nat
  type LeaseId = nat
  type JobId = nat

  datatype UpdateState = AddTask | StartTask | EndTask | Pasture | Repair

  /** When a schedule's strategy creates the task after the current one. */
  datatype Creation = AfterStart | AfterFinish | AfterNew

  /** `Custom` is any registered strategy but the two built-in ones. */
  datatype Duplicates = AlwaysSkip | AlwaysRun | Custom

  datatype JobRow = JobRow(
    creation: Creation,
    duplicates: Duplicates,
    updateState: Option<UpdateState>,
    updateTaskPk: Option<Key>,
    leaseOwner: Option<LeaseId>,
    leaseExpires: Option<int>,
    repairState: Option<UpdateState>,
    pasture: bool,
    pastureReason: Option<string>)

  datatype TaskState =
    | Pending | Queued | Started | StartError | CompleteQueued
    | CompleteError | Failed | FailRestarted | Completed

  datatype TaskRow = TaskRow(
    schedule: Key,
    state: TaskState,
    createdOn: int,
    executeAt: int,
    executionJobId: Option<JobId>,
    executionQueued: Option<int>,
    executionStarted: Option<int>,
    executionFinished: Option<int>,
    completedInfo: Option<string>)
}
