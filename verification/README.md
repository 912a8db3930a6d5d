# Tern, verified

Tern schedules jobs from any number of service nodes that share nothing but a database. This project
models its core in Dafny and proves what that core guarantees, and where it does not guarantee what one
would expect, exactly when it does.

## The parts

**The cluster.** Schedules and tasks are rows that nodes change only by atomic conditional updates.
`Model` and `DbImpl` hold the rows, the guards and the writes. `Protocol` is a transition system: any
number of operations (`startTask`, `taskFinished`, `createScheduledJob`, `disableSchedule`,
`repairExpiredSchedule`), each with a lease id of its own and a program counter; a step is one awaited
store call, one call of `startJob`, or the failure of such a call. A list of events is an interleaving, so
a lemma about all lists is about all interleavings. A crashed node is one that has no more events.
`LeaseSafety`, `TaskSafety`, `PendingTasks`, `LateWrites`, `SchedulesKeepGoing`, `MissedExecutions`,
`StoppedSchedules`, `RepairState`, `FailedStarts`, `LostReplies` and `Progress` prove its properties, and
`Guarantees` states the results for all runs from the empty store. `Outcomes` and `ScheduleOutcomes` say what
each operation leaves behind when nothing comes between its calls, column by column. `BadRuns` builds, on the
single calls of `Steps`, the runs that end badly.

**The programs.** `DataStore` is the store with its methods. `Cluster`, `Controllers`, `Leases` and
`Repairs` are the controllers as programs over it, in the form of the source: loops, branches and store
calls in sequence. Around every call the other nodes take any number of steps, and any call may break. Each
program is proved to take exactly the steps of its operation, so that the guarantees hold of it.

**The cron engine.** `Calendar` and `JsDate` are the proleptic Gregorian calendar and the `Date` object of
ECMA-262 (section 20.3.1 of the 6th edition) on a clock without daylight saving. `NextCron` is the mutating
search with its carries and nested loops, proved against a specification whose meaning `CronSpec`,
`CronCarries` and `CronTheorems` establish; `CronClock` compares it with the requester's clock. `Text`,
`CronExpression`, `CronFields` and `CronRoundTrip` are the parser, and `CronSchedules` joins both ends.
`TimeStructs` converts calendar fields to instants and back.

**The tables.** `Conditionals` reads the conditions of updates twice, as the in-memory table does and as
where-clauses in three-valued logic. `Guards` does so for the conditions that the store uses. `MemTables`
is the in-memory table, and `TableMap` proves that it refines a finite map with compare-and-set.

## Where the code differs from what it promises

- *No double execution* holds without condition, even when replies get lost. *No missed execution* holds in
  orderly runs: no start ends failed, not started or unfollowed, and no owner with a follow-up outstanding
  breaks or outlives its lease. It holds in no other run under the lease that ends with the schedule
  unlocked: in some state of it the schedule is unlocked while no task is pending
  (`Guarantees.MissedExecutionIff`). For schedules that create their next task after a finish,
  `Guarantees.StoppedScheduleIff` is the same statement about pending or started tasks. `BadRuns` shows, from
  the empty store and without a crash, two ways in which a schedule silently stops for ever while it is
  unlocked and not out to pasture.
- At most one pending and one started task hold while tasks are written under the lease. No update checks the
  lease when it writes a task: `BadRuns.TwoPendingTasks` and `BadRuns.TwoStartedTasks` are runs from the empty
  store that end with two of them, and `LateWrites` says exactly when a late write does that.
- A repair reads and writes in two calls. It remembers an interrupted operation exactly if it read a locked row
  (`RepairState.RemembersIff`; `RepairState.StaleReadForgets` is a run in which it does not), and the right one
  exactly if what it read still stands when it writes (`RepairState.KeepsOriginIff`). Unless another repair
  goes wrong in between, that is exactly if the row was not leased meanwhile, or last for the kind of
  operation that was read (`RepairState.RepairWindowIff`). `RepairState.WrongRepair` is a run that dispatches
  the wrong repair.
- A job that fails within its start call is never retried: its failure is always refused
  (`Guarantees.ImmediateFailuresGoToRepair`).
- `utcOffsetMinutes` is documented as what leads from the requester's clock to UTC, -330 in India. The search
  adds it to UTC, so that the fields that it matches are off by twice the offset. With one time of day and an
  offset of less than half a day a schedule fires as written only in UTC (`CronClock.OneTimeOnlyInUtc`,
  `CronExamples.NoonForMidnight`); `CronSchedules.FiresAsRequestedIff` is the condition for all schedules.
- The next cron time is the earliest match exactly under the condition of `CronTheorems.EarliestIff`, is null
  although something matches exactly under that of `CronTheorems.MissesIff`, does not match at all exactly
  under that of `CronTheorems.AnswerFitsIff`, and is never returned exactly under that of `NextCron.HangsIff`.
  The example of the documentation, weekdays at midnight, never returns when asked on a Friday
  (`CronExamples.FridayHangs`).
- An empty list of seconds, minutes, hours or months, which the parser can return, makes the search compute an
  invalid date (`NextCron.WithoutList`).
- The in-memory table compares dates the wrong way round, so that it repairs exactly the leases that have
  not expired (`Guards.MemoryRepairsUnexpired`). The protocol uses the order of SQL.
- Years 0 to 99 are read as 1900 to 1999 (`TimeStructs.InstantRoundTrip`).
- A page with a successor holds one row too many (`MemTables.PagesOverlapByOne`).

## Model

| member | source | states |
|---|---|---|
| Guarantees.NoDoubleExecution | packages/core/src/lib/controller/combined.ts:143-165 | In every run of any number of operations from the empty store, with crashes, broken calls and stolen leases, `startJob` is called at most once for any task key |
| Guarantees.NoMissedExecution | packages/core/src/lib/controller/combined.ts:143-252 | In every orderly run with task writes under the lease, an unlocked schedule that creates its next task after a start has exactly one pending task |
| Guarantees.MissedExecutionIff | packages/core/src/lib/controller/combined.ts:143-252 | Of the runs with task writes under the lease that end with the schedule unlocked, exactly the orderly ones never have it unlocked without a pending task; of all such runs, exactly the orderly ones neither have it so nor end with an owner that can only leave it so |
| Guarantees.NoStoppedSchedule | packages/core/src/lib/controller/combined.ts:311-357 | In every orderly run with task writes under the lease, an unlocked schedule that creates its next task after a finish has a pending or a started task |
| Guarantees.StoppedScheduleIff | packages/core/src/lib/controller/combined.ts:311-357 | Of the runs with task writes under the lease that end with such a schedule unlocked, exactly the orderly ones never have it unlocked with no task pending or started; of all such runs, exactly the orderly ones neither have it so nor end on the way there |
| Guarantees.OnePendingTask | packages/core/src/lib/controller/combined.ts:475-525 | A schedule never has two pending tasks, for any strategies, in every run in which no operation writes its tasks after losing its lease |
| Guarantees.OneStartedTask | packages/core/src/lib/controller/combined.ts:143-219 | Under the always-skip strategy a schedule never has two started tasks, in the same runs |
| Guarantees.LeasesAreWhole | packages/core/src/lib/datastore/db-impl.ts:157-193 | In every reachable state `updateState`, `leaseOwner` and `leaseExpires` are null together, and an owner is an operation on that schedule |
| Guarantees.TakenLeasesStayTaken | packages/core/src/lib/datastore/db-impl.ts:195-326 | Once an operation past its acquisition does not own its row, no later call of it, at any point of any run, writes a schedule row |
| Guarantees.TasksMoveForward | packages/core/src/lib/datastore/db-impl.ts:451-540 | Between any two points of a run a task keeps its schedule, its `createdOn` and its `executeAt`, its rank rises whenever its row changes, a finished row never changes, and its timestamps tell its state |
| Guarantees.RepairsRememberIff | packages/core/src/lib/datastore/db-impl.ts:251-290 | A row in repair remembers some operation other than a repair, and no other row remembers any, throughout a run, if and only if every winning repair had read a locked row |
| Guarantees.RepairsNameOriginIff | packages/core/src/lib/datastore/db-impl.ts:251-290 | Every winning repair keeps naming the operation that was interrupted, throughout a run, if and only if each wins on a row that still names what it had read |
| Guarantees.ImmediateFailuresGoToRepair | packages/core/src/lib/controller/combined.ts:187-198 | Whenever a job fails within its start call, marking the failure is refused, changes nothing, and leads to repair: the retry behind it is never reached |
| Guarantees.LeasesEndOnlyBy | packages/core/src/lib/datastore/db-impl.ts:195-290 | In every run a row leaves its lease only by the release of its own operation, or by a repair whose `now` is later than the stored expiry |
| Guarantees.OperationsEndInThreeWays | packages/core/src/lib/controller/schedule.ts:310-355 | In every run an operation that got its lease and ends without a broken call leaves its row released, or under its own id and expired as of its `now`, or not its own and untouched |
| Guarantees.DrySchedulesStayDry | packages/core/src/lib/controller/combined.ts:475-525 | In every run a schedule whose tasks are all finished, with none about to be added, never has a pending or started task again |
| LeaseSafety.CallWrites | packages/core/src/lib/datastore/db-impl.ts:157-326 | The five writes to a schedule row, each with the guard it needs, the row it leaves and the call that follows; all other calls leave the row alone |
| LeaseSafety.LeaseInvStep | packages/core/src/lib/datastore/db-impl.ts:157-326 | Every event keeps the lease columns whole and every owner past its acquisition |
| LeaseSafety.LeaseInvRun | packages/core/src/lib/datastore/db-impl.ts:157-326 | The same over any run |
| LeaseSafety.LeaseEndsOnlyBy | packages/core/src/lib/datastore/db-impl.ts:195-290 | A row leaves its lease only by a release of its own operation, or by a repair whose `now` is later than the stored expiry |
| LeaseSafety.LostForEver | packages/core/src/lib/datastore/db-impl.ts:293-326 | A lost lease is not regained by any event |
| LeaseSafety.LostForEverRun | packages/core/src/lib/datastore/db-impl.ts:293-326 | Nor in any run |
| LeaseSafety.LostWritesNothing | packages/core/src/lib/datastore/db-impl.ts:195-326 | Without its lease an operation writes no schedule row; its releases and marks for repair are refused and change nothing at all |
| LeaseSafety.TakenLeaseIsRefused | packages/core/src/lib/datastore/db-impl.ts:195-326 | The same at any later point of any run |
| LeaseSafety.LeaseEndings | packages/core/src/lib/controller/schedule.ts:310-355 | An operation that got its lease and ends without a broken call leaves its row released, or under its own id and expired as of its `now`, or not its own and untouched by its last call |
| LeaseSafety.EndedOwnNothingStep | packages/core/src/lib/controller/schedule.ts:310-355 | Operations that ended released, refused or without a lease own nothing, after every event |
| LeaseSafety.EndedOwnNothingRun | packages/core/src/lib/controller/schedule.ts:310-355 | And throughout every run |
| TaskSafety.CallMoves | packages/core/src/lib/controller/combined.ts:143-252 | Every call writes no task, adds a fresh pending one, or makes one mark on a task in the state the mark expects; only the winner of the pending-to-queued mark gets to call the job |
| TaskSafety.WorkMoves | packages/core/src/lib/controller/combined.ts:143-525 | The same for the in-lease work |
| TaskSafety.TaskInvStep | packages/core/src/lib/datastore/db-impl.ts:451-540 | Every event keeps what timestamps say of states, and keeps reserved keys unused |
| TaskSafety.WritesAreDated | packages/core/src/lib/datastore/db-impl.ts:451-496 | Every row that is written has `executionQueued` null exactly while pending, and `executionFinished` set exactly in completed, complete-error and failed |
| TaskSafety.ForwardStep | packages/core/src/lib/datastore/db-impl.ts:511-540 | An event moves a task forward in rank or leaves it; a deleted key does not come back |
| Outcomes.JobIsCalledIff | packages/core/src/lib/controller/combined.ts:143-165 | From every state with a pending task of an unlocked schedule, `startTask` alone calls the job if and only if the duplicate strategy lets it: always-run always, always-skip exactly if no task of the schedule is started, any other exactly if it says so |
| Outcomes.StartOutcome | packages/core/src/lib/controller/combined.ts:140-253 | And all that it leaves, for every answer of the duplicate strategy, the job framework and the creation strategy: every column of the task, of the follow-up and of the schedule, and that nothing else changes |
| Outcomes.StartAddsIff | packages/core/src/lib/controller/combined.ts:222-252 | With no other task pending it adds one exactly if it was skipped, runs or has completed, and an after-start strategy answers with a date: due then, created now |
| Outcomes.FinishOutcome | packages/core/src/lib/controller/combined.ts:309-357 | All that `taskFinished` alone leaves, for every report and answer, from every state of the task: `executionFinished` and the text of the report, the retry in `1000 * seconds` from now, the follow-up, the pasture or the repair |
| Outcomes.FinishAddsIff | packages/core/src/lib/controller/combined.ts:419-472 | With no task pending, the end of a started task adds exactly one if and only if a retry or an after-finish strategy gives a date, and none otherwise: due then, created now |
| ScheduleOutcomes.CreateOutcome | packages/core/src/lib/controller/combined.ts:74-117 | All that `createScheduledJob` alone leaves: the schedule unlocked with its first task created now and due when its strategy says, or no task and a row out to pasture or left for repair |
| ScheduleOutcomes.DisableOutcome | packages/core/src/lib/controller/combined.ts:402-416 | `disableSchedule` alone leaves the schedule unlocked and out to pasture for the reason given, and every task as it was |
| ScheduleOutcomes.RepairOutcome | packages/core/src/lib/controller/repair.ts:28-169 | `repairExpiredSchedule` alone unlocks the row; it is not put out to pasture if and only if the interrupted operation was adding the first task, it was not so before, the task is recorded and a task of the schedule is pending |
| ScheduleOutcomes.LookStep | packages/core/src/lib/controller/repair.ts:77-155 | Which repair is chosen, from the columns of the expired row |
| ScheduleOutcomes.LockedOut | packages/core/src/lib/controller/schedule.ts:263-283 | While the row stays locked an operation makes one attempt and one more per retry, each refused or broken, and ends with nothing changed |
| ScheduleOutcomes.BrokenWork | packages/core/src/lib/controller/schedule.ts:310-327 | A call that breaks in the work leaves the row, if held, expired as of the own time of the operation, and all tasks as they were |
| ScheduleOutcomes.BrokenRepair | packages/core/src/lib/controller/repair.ts:56-69 | A call that breaks in a repair leaves the schedule unlocked and out to pasture |
| ScheduleOutcomes.BrokenOnTheWay | packages/core/src/lib/controller/schedule.ts:284-355 | A call that breaks before or after the work ends its operation, which leaves the row and all tasks as they are |
| TaskSafety.ForwardRun | packages/core/src/lib/datastore/db-impl.ts:511-540 | The same over any run |
| TaskSafety.OnceInvStep | packages/core/src/lib/controller/combined.ts:143-165 | Every event keeps a claim on a task exclusive and uncalled, and called tasks out of pending |
| TaskSafety.OnceInvAct | packages/core/src/lib/controller/combined.ts:143-165 | The same for one call of any kind |
| TaskSafety.JobsStartAtMostOnce | packages/core/src/lib/controller/combined.ts:143-165 | From any state that meets the invariant no run calls a job twice |
| PendingTasks.OwnTasksStep | packages/core/src/lib/controller/combined.ts:138-144 | Operations only touch tasks of the schedule they lease, after every event |
| PendingTasks.StrangerWrites | packages/core/src/lib/controller/combined.ts:138-144 | A call of an operation on one schedule writes no task of another |
| PendingTasks.CallAdds | packages/core/src/lib/controller/combined.ts:486-508 | An insert is only reached from a check that found no pending task |
| PendingTasks.PendingStep | packages/core/src/lib/controller/combined.ts:475-525 | Every event in which tasks are written under the lease keeps at most one task pending, though check and insert are separate calls |
| PendingTasks.AtMostOnePending | packages/core/src/lib/controller/combined.ts:475-525 | The same over any such run |
| LateWrites.LateInsertIff | packages/core/src/lib/controller/combined.ts:486-508 | An operation finds no pending task, any events follow, it inserts its task: then more than one is pending if and only if a task added in between still is |
| LateWrites.LateStartIff | packages/core/src/lib/controller/combined.ts:145-216 | Under always-skip a start finds no started task, any events follow, it marks its task as started: then more than one is started if and only if one that was started in between still is |
| LateWrites.PendingWasAdded | packages/core/src/lib/datastore/db-impl.ts:511-540 | A task is pending after a run only if it was before, or was added in the run |
| LateWrites.StartedWasMarked | packages/core/src/lib/datastore/db-impl.ts:511-540 | The same for started tasks and marks as started |
| BadRuns.TwoPendingTasks | packages/core/src/lib/controller/combined.ts:486-508 | A run from the empty store that ends with two pending tasks: a start outlives its lease between its check and its insert |
| BadRuns.TwoStartedTasks | packages/core/src/lib/controller/combined.ts:145-216 | The same run, continued until an always-skip schedule has two started tasks |
| BadRuns.NotStartedEndsDry | packages/core/src/lib/controller/combined.ts:181-186 | A run from the empty store, without any crash, after which a schedule is unlocked, not out to pasture, and dry: its job did not start |
| BadRuns.CompletedAtOnceEndsDry | packages/core/src/lib/controller/combined.ts:173-180 | The same for a job that completes within its start call under an after-finish strategy |
| LostReplies.NoDoubleExecution | packages/core/src/lib/controller/combined.ts:143-165 | No job is called twice in any run in which calls may also take effect and fail for their caller |
| LostReplies.OneTask | packages/core/src/lib/controller/combined.ts:475-525 | Nor are there two pending tasks, or two started ones under always-skip, when such runs write tasks under the lease |
| LostReplies.KeptStep | packages/core/src/lib/controller/combined.ts:143-252 | Every event of such a run keeps the invariants behind both |
| PendingTasks.CallStarts | packages/core/src/lib/controller/combined.ts:145-150 | Under always-skip the job is only called from a check that found no started task |
| PendingTasks.StartedStep | packages/core/src/lib/controller/combined.ts:143-219 | Every such event keeps at most one task started |
| PendingTasks.AtMostOneStarted | packages/core/src/lib/controller/combined.ts:143-219 | The same over any such run |
| SchedulesKeepGoing.OwnerCall | packages/core/src/lib/controller/combined.ts:143-252 | A call of the owner either leaves the follow-up task outstanding or leaves a pending task behind |
| SchedulesKeepGoing.WorkPath | packages/core/src/lib/controller/combined.ts:143-252 | Along the starting path every mark finds the task in the state it expects |
| SchedulesKeepGoing.KeptGoingStep | packages/core/src/lib/controller/combined.ts:143-252 | Every orderly event keeps: unlocked, or locked with nothing outstanding, means a pending task |
| SchedulesKeepGoing.KeepsGoing | packages/core/src/lib/controller/combined.ts:143-252 | So a schedule never runs dry in an orderly run, and has one pending task whenever it is unlocked |
| MissedExecutions.BadEvent | packages/core/src/lib/controller/combined.ts:143-252 | From every state that keeps going, an event that is not orderly leaves the schedule locked, without a pending task, and its owner with no way to add one |
| MissedExecutions.LeavingCall | packages/core/src/lib/controller/combined.ts:143-252 | No call of such an owner adds a task, and each leads to another such owner or unlocks the row |
| MissedExecutions.DoomedStep | packages/core/src/lib/controller/combined.ts:143-252 | After any event under the lease it is still so, with this or another owner, or the schedule is unlocked without a pending task |
| MissedExecutions.DoomedRun | packages/core/src/lib/controller/combined.ts:143-252 | And so over any run under the lease |
| MissedExecutions.NeverMissedIff | packages/core/src/lib/controller/combined.ts:143-252 | From every state that keeps going, a run under the lease is orderly if and only if it never has the schedule unlocked without a pending task, and does not end on the way there |
| StoppedSchedules.WorkLeads | packages/core/src/lib/controller/combined.ts:143-357 | Of a schedule that creates its next task after a finish: every call of the owner leaves a task pending, started or still to be brought there if it is answered well, and otherwise none and an owner on its way out |
| StoppedSchedules.GoesOnStep | packages/core/src/lib/controller/combined.ts:143-357 | Every orderly event under the lease keeps: unlocked, or locked with none to be brought, means a pending or started task |
| StoppedSchedules.BadEvent | packages/core/src/lib/controller/combined.ts:143-357 | Every other event leaves the schedule locked with no task pending or started and an owner that changes that no more |
| StoppedSchedules.DoomedStep | packages/core/src/lib/controller/combined.ts:143-357 | After any event under the lease that is still so, or the schedule is unlocked and has stopped |
| StoppedSchedules.NeverStoppedIff | packages/core/src/lib/controller/combined.ts:143-357 | From every state in which it goes on, a run under the lease is orderly if and only if the schedule never stops in it and does not end on the way there |
| SchedulesKeepGoing.CreationIsOrderly | packages/core/src/lib/controller/combined.ts:74-117 | From every state an uninterrupted creation is an orderly run, and ends unlocked with its first task pending |
| FailedStarts.LeftQueueStep | packages/core/src/lib/controller/combined.ts:187-198 | A task whose failure is about to be marked has left the queue for good |
| FailedStarts.FailureIsRefused | packages/core/src/lib/controller/combined.ts:187-198 | The mark that expects it queued is refused in every such state |
| FailedStarts.DryStep | packages/core/src/lib/controller/combined.ts:475-525 | No event revives a schedule whose tasks are all finished, and none calls a job of it |
| FailedStarts.DryForEver | packages/core/src/lib/controller/combined.ts:475-525 | No run does |
| FailedStarts.NotStartedRunsDry | packages/core/src/lib/controller/combined.ts:181-186 | A job that did not start ends its schedule for ever, though the row is released and not put out to pasture |
| FailedStarts.CompletedAtOnceRunsDry | packages/core/src/lib/controller/combined.ts:173-180 | So does a job that completes within its start call under an after-finish strategy |
| RepairState.RepairStep | packages/core/src/lib/datastore/db-impl.ts:251-290 | One event keeps the memory of repairs if and only if a winning repair had read a locked row |
| RepairState.RepairReads | packages/core/src/lib/datastore/db-impl.ts:258-272 | The write of a repair carries what its own earlier read found |
| RepairState.RemembersIff | packages/core/src/lib/datastore/db-impl.ts:251-290 | Whole runs keep a memory in every repair if and only if every winning repair had read a locked row; which operation it names is the matter of `KeepsOriginIff` |
| RepairState.OriginStep | packages/core/src/lib/datastore/db-impl.ts:258-272 | A winning repair leaves the row naming the operation it named before if and only if what it read is still so |
| RepairState.KeepsOriginIff | packages/core/src/lib/datastore/db-impl.ts:251-290 | A whole run keeps naming the interrupted operation if and only if all its winning repairs had read the row as it still was |
| RepairState.OriginSince | packages/core/src/lib/datastore/db-impl.ts:157-193 | While repairs read fresh, a locked row names what it was last leased for in a run, or what it named before the run |
| RepairState.RepairWindowIff | packages/core/src/lib/datastore/db-impl.ts:258-272 | A repair reads the row, any events follow, and it wins the row: while other repairs read fresh, it names the operation that it interrupts if and only if the row was not leased in between, or last for the kind of operation that it had read |
| RepairState.WrongRepair | packages/core/src/lib/datastore/db-impl.ts:258-272 | From every state in which the schedule is unlocked and has a task: a repair that read the row locked for its pasture wins it while a start is interrupted, and remembers the pasture |
| RepairState.RepairsKeepOrigin | packages/core/src/lib/datastore/db-impl.ts:263-269 | Through any chain of repairs read and written as one step, `repairState` names the operation that ran before the first of them |
| RepairState.StaleReadForgets | packages/core/src/lib/datastore/db-impl.ts:258-272 | From every state in which the schedule is unlocked, a lease between the two calls of a repair leaves the row in repair with `repairState` null |
| Progress.CallProgresses | packages/core/src/lib/controller/schedule.ts:245-355 | Every call leaves its operation with fewer calls to make, along every branch |
| Progress.OperationsEnd | packages/core/src/lib/controller/schedule.ts:245-355 | Wait-freedom: in any run an operation ends after at most a number of steps of its own that its first call and its retries fix, whatever other nodes do |
| Progress.ExpiredCanBeRepaired | packages/core/src/lib/controller/repair.ts:28-71 | In every state with an expired lease, an uninterrupted repair unlocks the row within six calls: a crashed owner does not block its schedule |
| DataStore.DatabaseDataStore.AddScheduledJobModel | packages/core/src/lib/datastore/db-impl.ts:65-71 | Adds the row if its key is new |
| DataStore.DatabaseDataStore.GetScheduledJob | packages/core/src/lib/datastore/db-impl.ts:73-82 | The row with the key, if there is one |
| DataStore.DatabaseDataStore.LeaseScheduledJob | packages/core/src/lib/datastore/db-impl.ts:157-193 | Leases exactly an unlocked row, whatever its pasture |
| DataStore.DatabaseDataStore.ReleaseScheduledJobLease | packages/core/src/lib/datastore/db-impl.ts:195-249 | Clears the lease and the memory of repairs of exactly a row under this lease id, expired or not, and overwrites its pasture |
| DataStore.DatabaseDataStore.TakeExpiredLease | packages/core/src/lib/datastore/db-impl.ts:263-272 | Takes exactly a locked row whose lease expired before `now` |
| DataStore.DatabaseDataStore.MarkLeasedScheduledJobNeedsRepair | packages/core/src/lib/datastore/db-impl.ts:293-326 | Lets exactly a row under this lease id expire at `now` |
| DataStore.DatabaseDataStore.AddTask | packages/core/src/lib/datastore/db-impl.ts:409-415 | Adds the row if its key is new |
| DataStore.DatabaseDataStore.MarkTaskState | packages/core/src/lib/datastore/db-impl.ts:511-540 | Writes exactly a row in the expected state |
| DataStore.DatabaseDataStore.MarkTask | packages/core/src/lib/datastore/db-impl.ts:451-496 | The six marks: expected state, new state and columns |
| DataStore.DatabaseDataStore.AnyTaskForScheduledJob | packages/core/src/lib/datastore/db-impl.ts:439-449 | Whether the schedule has a task in the state |
| DataStore.DatabaseDataStore.DeleteFinishedTask | packages/core/src/lib/datastore/db-impl.ts:498-509 | Deletes exactly a finished task |
| Guards.LeaseGuards | packages/core/src/lib/datastore/db-impl.ts:171-235 | The conditions of lease, release and mark select, in SQL and in memory, exactly the rows of the protocol guards |
| Guards.SqlRepairsExpired | packages/core/src/lib/datastore/db-impl.ts:269-272 | In SQL the condition of a repair selects exactly the expired rows |
| Guards.MemoryRepairsUnexpired | packages/core/src/lib/datastore/memory.ts:41-44 | In memory it accepts exactly the locked rows that expire later, and never an expired one |
| Guards.TaskGuards | packages/core/src/lib/datastore/db-impl.ts:439-449 | The conditions on a task state and on the tasks of a schedule, in SQL and in memory |
| Guards.FinishedGuard | packages/core/src/lib/datastore/db-impl.ts:498-509 | The condition of a delete, in SQL and in memory |
| Controllers.AwaitMark | packages/core/src/lib/controller/combined.ts:143-216 | Between arbitrary steps of other nodes, a mark takes its operation to what follows it, or to repair |
| Controllers.AwaitShouldSkip | packages/core/src/lib/controller/combined.ts:528-540 | The duplicate check, between arbitrary steps of other nodes, takes the branch of the protocol |
| Controllers.AwaitStartJob | packages/core/src/lib/controller/combined.ts:152-165 | The external call is recorded once, and its answer decides the branch |
| Controllers.AwaitPending | packages/core/src/lib/controller/combined.ts:486-500 | The check for a pending task takes the branch of the protocol |
| Controllers.AwaitAddTask | packages/core/src/lib/controller/combined.ts:503-524 | The insert uses a key never handed out |
| Controllers.AddTaskDuplicateCheck | packages/core/src/lib/controller/combined.ts:475-525 | Check and insert, with any steps of other nodes around and between them, are two steps of the operation |
| Controllers.CreateAfterStart | packages/core/src/lib/controller/combined.ts:223-252 | The end of `startTask`; a disabling answer is dropped |
| Controllers.CreateAfterFinish | packages/core/src/lib/controller/combined.ts:337-357 | The end of `taskFinished`; a disabling answer puts the schedule out to pasture |
| Controllers.RetryTask | packages/core/src/lib/controller/combined.ts:419-472 | The retry of a failed task, or the follow-up of its strategy |
| Controllers.StartTaskInLease | packages/core/src/lib/controller/combined.ts:140-253 | The whole in-lease program of `startTask` is a run of its operation, whatever other nodes do |
| Controllers.StartAnswered | packages/core/src/lib/controller/combined.ts:166-222 | Each answer of the job framework takes the marks and the exit of the protocol |
| Controllers.FailNow | packages/core/src/lib/controller/combined.ts:187-198 | After an immediate failure the program always ends in repair |
| Controllers.FinishTaskInLease | packages/core/src/lib/controller/combined.ts:311-362 | The whole in-lease program of `taskFinished` is a run of its operation |
| Leases.RunUpdateInLease | packages/core/src/lib/controller/schedule.ts:245-355 | One attempt and one more per retry; then the row is left unlocked, or for repair, or not owned, or the last call broke |
| Leases.AwaitLease | packages/core/src/lib/controller/schedule.ts:263-283 | An attempt gets the lease, or leaves one retry less |
| Leases.AwaitScheduledJob | packages/core/src/lib/controller/schedule.ts:286-292 | The schedule is read after the lease is held |
| Leases.AwaitRelease | packages/core/src/lib/controller/schedule.ts:328-345 | The release unlocks an owned row, and is refused otherwise |
| Leases.AwaitNeedsRepair | packages/core/src/lib/controller/schedule.ts:319-327 | The mark lets an owned row expire, and is refused otherwise |
| Leases.LeaveLease | packages/core/src/lib/controller/schedule.ts:310-335 | Which exit follows which result |
| Leases.StartTask | packages/core/src/lib/controller/combined.ts:124-267 | Starting a stored task |
| Leases.TaskFinished | packages/core/src/lib/controller/combined.ts:280-390 | Reporting on a stored task |
| Leases.DisableSchedule | packages/core/src/lib/controller/combined.ts:402-416 | Putting a schedule out to pasture |
| Leases.AwaitAddScheduledJob | packages/core/src/lib/controller/schedule.ts:125-140 | The row is created already leased |
| Leases.AwaitAddFirstTask | packages/core/src/lib/controller/combined.ts:90-116 | The first task is added without a duplicate check |
| Leases.CreateScheduledJob | packages/core/src/lib/controller/schedule.ts:113-227 | Creation ends in the same ways as an update in lease |
| Repairs.RepairExpiredLease | packages/core/src/lib/datastore/db-impl.ts:251-290 | Read, conditional write and read again are three separate calls |
| Repairs.AwaitTakeExpired | packages/core/src/lib/datastore/db-impl.ts:263-287 | The write wins only on an expired row |
| Repairs.PerformRepair | packages/core/src/lib/controller/repair.ts:77-120 | The dispatch on `repairState` |
| Repairs.RepairAddTask | packages/core/src/lib/controller/repair.ts:123-169 | The one repair that can succeed |
| Repairs.LeaveRepair | packages/core/src/lib/controller/repair.ts:49-69 | A failed or rejected repair releases once more, with pasture |
| Repairs.RepairExpiredSchedule | packages/core/src/lib/controller/repair.ts:28-71 | A repair is a run of its operation and leaves the row in one of the stated ways |
| NextCron.FindNext | packages/core/src/lib/strategies/task-creation/cron/next.ts:174-183 | The first listed value that is not below the given one |
| NextCron.AlignTime | packages/core/src/lib/strategies/task-creation/cron/next.ts:41-77 | The carries of second, minute and hour |
| NextCron.SeekMonth | packages/core/src/lib/strategies/task-creation/cron/next.ts:94-114 | The move to the first listed month, to its first day unless it is the current one |
| NextCron.TryDay | packages/core/src/lib/strategies/task-creation/cron/next.ts:119-155 | The next listed date of the month, or none, without overflow into the next month |
| NextCron.SearchDay | packages/core/src/lib/strategies/task-creation/cron/next.ts:91-162 | The two loops settle on the first listed date in reach, give up when there is none, and never leave it when its weekday is not listed |
| NextCron.NextCronTime | packages/core/src/lib/strategies/task-creation/cron/next.ts:14-171 | For lists in order, empty ones included, and any bound on the passes: the call answers as specified, and fails to return if and only if it is one that hangs |
| NextCron.HangsIff | packages/core/src/lib/strategies/task-creation/cron/next.ts:91-162 | It hangs if and only if the first day that the month and date lists name, from the aligned one on, lies before the day on which the search gives up and on an unlisted weekday |
| NextCron.HasTargetIff | packages/core/src/lib/strategies/task-creation/cron/next.ts:91-162 | There is a date for the search to find if and only if a listed one lies before that day |
| CronSpec.AlignedMeaning | packages/core/src/lib/strategies/task-creation/cron/next.ts:41-77 | What the aligned time is: the first day with a match left, and the field values on it |
| CronCarries.AlignedFields | packages/core/src/lib/strategies/task-creation/cron/next.ts:41-77 | The fields of the aligned time, from the next listed second, minute and hour and their carries |
| CronCarries.EarliestIs | packages/core/src/lib/strategies/task-creation/cron/next.ts:41-77 | The earliest match of a day: every field below the highest one that moved on shows its first listed value |
| CronCarries.LagsIff | packages/core/src/lib/strategies/task-creation/cron/next.ts:41-77 | The aligned time is that earliest match if and only if no field lags behind, which the start and the lists decide |
| CronTheorems.Soundness | packages/core/src/lib/strategies/task-creation/cron/next.ts:38-170 | An answer found by the search is after `now` and the start, before the end, and fits the six lists once the offset is added, for every weekday set and offset |
| CronTheorems.AnswerInBounds | packages/core/src/lib/strategies/task-creation/cron/next.ts:14-35 | Every answer is later than `now` and the start, earlier than the end and in one of the ten years from the current one on; from its end on a schedule has none |
| CronTheorems.FirstDay | packages/core/src/lib/strategies/task-creation/cron/next.ts:41-162 | No match lies on an earlier shifted day, across short months and leap years |
| CronTheorems.EarliestIff | packages/core/src/lib/strategies/task-creation/cron/next.ts:41-77 | The answer is the earliest match if and only if nothing lags at the first second looked at, a question about that second, the lists and whether the first listed date is its day |
| CronTheorems.EarliestForOneTimeOfDay | packages/core/src/lib/strategies/task-creation/cron/next.ts:14-171 | With one second, minute and hour it is always the earliest |
| CronTheorems.NoTimeIff | packages/core/src/lib/strategies/task-creation/cron/next.ts:31-170 | Null exactly when the search ends, nothing fits in time and nothing strays, or when the search misses what fits; for every offset, end and weekday set |
| CronTheorems.MissesIff | packages/core/src/lib/strategies/task-creation/cron/next.ts:41-170 | Null although something fits, exactly when on the first listed date the aligned time is too late and an earlier one is not |
| CronTheorems.NeverMisses | packages/core/src/lib/strategies/task-creation/cron/next.ts:41-170 | Neither happens with one time of day, nor a stray answer without a positive offset |
| CronTheorems.StraysIff | packages/core/src/lib/strategies/task-creation/cron/next.ts:164-170 | An exhausted search is answered with an instant if and only if no listed date comes before it gives up, and the offset takes it back before the farthest year and the end |
| CronTheorems.AnswerFitsIff | packages/core/src/lib/strategies/task-creation/cron/next.ts:164-170 | An answer fits the lists if and only if it does not stray, or strays to a listed date on a listed weekday |
| CronTheorems.StraysOnlyBehind | packages/core/src/lib/strategies/task-creation/cron/next.ts:164-170 | Straying takes a positive offset: a requester behind UTC |
| CronClock.ClockMatchesIff | packages/core/src/lib/internal/time-util/convert.ts:28-41 | When a schedule fires, the clock of the requester shows a match exactly under a condition on the lists, the aligned time and the first listed date |
| CronClock.OneTimeOnClockIff | packages/core/src/lib/internal/time-util/convert.ts:28-41 | With one time of day: exactly if twice the offset is a number of days, with the date listed that many days before |
| CronClock.OneTimeOnlyInUtc | packages/core/src/lib/internal/time-util/convert.ts:28-41 | With an offset of less than half a day: exactly in UTC |
| CronExamples.EveryDateHangs | packages/core/src/lib/strategies/task-creation/cron/next.ts:136-154 | A schedule of every date hangs exactly when its aligned day is an unlisted weekday |
| CronExamples.SundayToMonday | packages/core/src/lib/strategies/task-creation/cron/api.ts:14-24 | The example of the documentation, weekdays at midnight, asked on Sunday, January 4, 1970: Monday at midnight |
| CronExamples.FridayHangs | packages/core/src/lib/strategies/task-creation/cron/api.ts:14-24 | The same schedule asked on Friday, January 9: it never answers |
| Calendar.WeekdayOfDay | packages/core/src/lib/strategies/task-creation/cron/next.ts:136-154 | The weekday of every day is the one that the civil calendar gives to its year, month and date |
| Calendar.WeekdayFromFields | packages/core/src/lib/strategies/task-creation/cron/next.ts:136-154 | From any year, month and date, also dates that carry into other months |
| CronExamples.SkipsAnEarlierSecond | packages/core/src/lib/strategies/task-creation/cron/next.ts:41-62 | A concrete schedule whose earliest match is skipped, and that gets null for it |
| CronExamples.StrayAnswer | packages/core/src/lib/strategies/task-creation/cron/next.ts:164-170 | A concrete schedule that is answered with an instant that does not match |
| CronExamples.NoonForMidnight | packages/core/src/lib/internal/time-util/convert.ts:28-41 | A concrete schedule of midnight, requested six hours behind UTC, that fires at noon there |
| TimeStructs.InstantRoundTrip | packages/core/src/lib/internal/time-util/encoding.ts:23-52 | `fromTimeStruct` undoes `toTimeStruct` for exactly the instants outside the years 0 to 99 |
| TimeStructs.StructRoundTrip | packages/core/src/lib/internal/time-util/encoding.ts:23-52 | `toTimeStruct` undoes `fromTimeStruct` for exactly the in-range structs outside those years |
| TimeStructs.TwoDigitYears | packages/core/src/lib/internal/time-util/encoding.ts:42-52 | A year from 0 to 99 is read as one from 1900 to 1999 |
| CronExpression.ConvertRange | packages/core/src/lib/strategies/task-creation/cron/expression.ts:68-90 | The rewriting loop ends on every text and writes out every range |
| CronExpression.Expanded | packages/core/src/lib/strategies/task-creation/cron/expression.ts:68-90 | No range is left |
| CronExpression.ConvertStep | packages/core/src/lib/strategies/task-creation/cron/expression.ts:93-109 | The parsed parts on the step |
| CronExpression.RemoveDuplicates | packages/core/src/lib/strategies/task-creation/cron/expression.ts:112-121 | The increasing list of exactly the given values in range |
| CronExpression.SameValuesSameList | packages/core/src/lib/strategies/task-creation/cron/expression.ts:112-121 | That list is determined by its values |
| CronExpression.ConvertToModel | packages/core/src/lib/strategies/task-creation/cron/expression.ts:53-55 | The composition of the four passes |
| CronExpression.HandleSundays | packages/core/src/lib/strategies/task-creation/cron/expression.ts:124-131 | 7 is overwritten by 0 in place |
| CronExpression.CronToModel | packages/core/src/lib/strategies/task-creation/cron/expression.ts:32-49 | Five or six fields, or an error |
| CronFields.AsteriskIsRange | packages/core/src/lib/strategies/task-creation/cron/expression.ts:58-64 | In printed items the first asterisk becomes the range of the field |
| CronFields.RangesAreSpelled | packages/core/src/lib/strategies/task-creation/cron/expression.ts:68-90 | Printed ranges, in either order, become the numbers between their ends |
| CronFields.PartsAreKept | packages/core/src/lib/strategies/task-creation/cron/expression.ts:101-106 | Printed numbers parse back to themselves, and those on the step are kept |
| CronFields.FieldMeaning | packages/core/src/lib/strategies/task-creation/cron/expression.ts:53-121 | A printed field of numbers, ranges, one asterisk and a step parses to the increasing list of exactly the values it denotes |
| CronFields.WeekdayMeaning | packages/core/src/lib/strategies/task-creation/cron/expression.ts:47-131 | The same for weekdays, with 7 as Sunday |
| CronRoundTrip.ListRoundTrip | packages/core/src/lib/strategies/task-creation/cron/expression.ts:53-121 | A strictly increasing list in range, printed with commas, parses to itself |
| CronRoundTrip.ModelRoundTrip | packages/core/src/lib/strategies/task-creation/cron/expression.ts:32-49 | A model of such lists, printed as six fields, parses to itself |
| CronRoundTrip.FiveFieldsMeanEverySecond | packages/core/src/lib/strategies/task-creation/cron/expression.ts:33-37 | Without a seconds field an expression means every second of its minutes |
| CronRoundTrip.ParsedIsWellFormedIff | packages/core/src/lib/strategies/task-creation/cron/expression.ts:27-29 | For every text that parses the lists are in order, and the search gets one it can use unless seconds, minutes, hours or months are empty |
| CronSchedules.ExpressionMeaning | packages/core/src/lib/strategies/task-creation/cron/expression.ts:32-49 | Each list of a parsed expression holds exactly what its field says |
| CronSchedules.BlanksDoNotMatter | packages/core/src/lib/strategies/task-creation/cron/expression.ts:33-37 | Any number of blanks of any kind between the fields gives the same model |
| CronRoundTrip.WordsOfJoined | packages/core/src/lib/strategies/task-creation/cron/expression.ts:33 | Words joined by any blanks are split into themselves |
| CronSchedules.FiresAsWritten | packages/core/src/lib/strategies/task-creation/cron/next.ts:14-171 | From text to instant: an answer that the search found shows, with the offset added, what the expression says, and no earlier such day does |
| CronSchedules.FiresAsRequestedIff | packages/core/src/lib/internal/time-util/convert.ts:28-41 | What the documentation promises, exactly: the clock of the requester shows what the expression says if and only if the field values, moved back by twice the offset, are written in it |
| CronSchedules.OneTimeAsRequestedIff | packages/core/src/lib/internal/time-util/convert.ts:28-41 | With one time of day and an offset of less than half a day, only in UTC |
| Conditionals.LeavesAgreeIff | packages/datastore-sql/src/lib/index.ts:252-269 | The records on which the two readings of a leaf agree, exactly |
| Conditionals.WhereSelectsMatches | packages/datastore-sql/src/lib/index.ts:241-271 | If the readings of all leaves agree on a record, the where-clause selects it exactly if it matches |
| Conditionals.PlainWhereSelectsMatches | packages/datastore-sql/src/lib/index.ts:241-271 | For trees of and, or, equals, one-of, null and not-null, without dates and without null in one-of, the where-clause selects exactly the matching records |
| Conditionals.KeyedWhere | packages/datastore-sql/src/lib/index.ts:230-239 | A keyed clause selects exactly the matching record with the key |
| Conditionals.BeforeDateIsReversed | packages/core/src/lib/datastore/memory.ts:41-44 | For two different dates exactly one of the two readings of an earlier-date test accepts |
| MemTables.MemTable.ConditionalUpdate | packages/core/src/lib/datastore/memory.ts:69-86 | Updates every matching row, reports their number, and keeps the index equal to the unique keys |
| MemTables.MemTable.Create | packages/core/src/lib/datastore/memory.ts:96-138 | Appends a row with a new, non-empty key |
| MemTables.MemTable.Find | packages/core/src/lib/datastore/memory.ts:105-115 | The window of the matching rows |
| MemTables.MemTable.Remove | packages/core/src/lib/datastore/memory.ts:117-152 | Removes the row with the key, if it matches |
| MemTables.MatchingInOrder | packages/core/src/lib/datastore/memory.ts:121-126 | Exactly the matching rows, in the order of the table |
| MemTables.WindowsTile | packages/core/src/lib/datastore/memory.ts:105-115 | Consecutive windows tile the matching rows |
| MemTables.FoundRows | packages/core/src/lib/datastore/memory.ts:105-126 | A find looks at every row, and an update with a key at the row with that key |
| MemTables.WindowAt | packages/core/src/lib/datastore/memory.ts:105-115 | A window holds the rows from its start on, as many as asked for or all that there are |
| MemTables.PagesOverlapByOne | packages/core/src/lib/datastore/db-impl.ts:561-577 | A page with a successor is one row too long and shares that row with it |
| TableMap.KeyedUpdate | packages/core/src/lib/datastore/memory.ts:69-86 | A keyed update is a compare-and-set of at most one entry, and reports it |
| TableMap.UpdateRefines | packages/core/src/lib/datastore/memory.ts:69-86 | An update of the table is the update of the map |
| TableMap.CountRefines | packages/core/src/lib/datastore/memory.ts:121-126 | The reported number is the number of entries touched |
| TableMap.CreateRefines | packages/core/src/lib/datastore/memory.ts:128-138 | A create adds one entry |
| TableMap.RemoveRefines | packages/core/src/lib/datastore/memory.ts:140-152 | A remove takes one matching entry, or none |
| TableMap.TableRefinesMap | packages/core/src/lib/datastore/memory.ts:64-153 | Over any sequence of creates, updates and removes the table holds and reports what the map does |
| TableMap.InsertionOrder | packages/core/src/lib/datastore/memory.ts:64-153 | After any operations on an empty table every row was created by one of them, and the rows come in the order of their last creation |
| TableMap.BirthStep | packages/core/src/lib/datastore/memory.ts:64-153 | Each operation keeps the rows in that order |

## Left out

- Sequelize, schemas, dialects and promises: a store is an atomic conditional update per row, as packages/core/src/lib/datastore/README.md:6 asks for. How Sequelize prints an empty group or a comparison of different types is not part of this model.
- Messages, logging, the polling loops and the strategy registries: they decide only what is attempted next, which is left free.
- The wait between two attempts at a lease, and time as such: an operation keeps the `now` it was called with, and every clock reading is an arbitrary answer.
- Columns that no decision depends on (`displayName`, `retryIndex`, `nextTimeoutCheck` and the like), and the exact texts of errors.
- The answers of strategies and of the job framework, and whether a thrown error counts as an invalid definition: arbitrary inputs. InvalidScheduleDefinitionError takes the prototype of another class, so that branch is a free choice.
- The reads that follow a refused update and only word its error.
- A job framework that resolves with no status at all, which `startTask` takes for a skip.
- A store call that took effect although its caller saw it fail is modelled in `LostReplies` alone, for the calls of jobs and the numbers of pending and started tasks; elsewhere a broken call changes nothing.
- A rejection with a falsy reason, which `isLeaseExitStateError` takes for a value.
- A task deleted between its poll and `startTask`: operations begin with a stored task, and may lose it at any later point.
- `getTaskByExecutionJobId`: `taskFinished` begins with the task that it found.
- `stealExpiredLeaseForScheduledJob`, `deleteScheduledJob` and the polling queries: no controller calls them.
- The repairs of start, end and pasture, which reject in the source too.
- Programs are proved to end their operations as the protocol does; that a node is ever scheduled again is not stated.
- NextCron.SearchDay: takes a bound on the passes of its inner loop, because the loop of the source need not end; for every positive bound the answer is the same.
- Dates outside the range of `Date` objects, and time zones with daylight saving.
- CronExpression.ConvertRange: reads digits as unbounded numbers, where the source uses floating point beyond 2 to the 53rd.
- CronExpression.CronToModel: splits at the blanks of ASCII only.
- MemTables.MemTable.Create: keys such as `constructor`, which every object of the source's language has as a property, are not treated as taken.
- MemTables.MemTable.Find: returns rows as values; in the source callers get the stored objects themselves.
- Conditionals.PlainWhereSelectsMatches: leaves out date values, which the in-memory table compares by identity; `Conditionals.LeavesAgreeIff` says when that matters. Missing columns are read as null.
- JSON parsing of schedule definitions.
