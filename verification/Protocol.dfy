/**
 The cluster as a transition system: controller/combined.ts, controller/schedule.ts and
 controller/repair.ts over the updates of datastore/db-impl.ts.

 Any number of operations are under way, each with its own lease id. An operation is the rest of
 its promise chain: the next call it awaits, and what it keeps until then. One step performs that
 call atomically and runs the code up to the next one. Which operation steps next is left free, so
 a list of events is one interleaving, and an operation that never steps again has crashed.
 */
module Protocol {
  import opened Wrappers
  import opened Model
  import opened DbImpl

  // ----- operations ----------------------------------------------------------

  /** What the job framework answers to `startJob`. */
  datatype JobAnswer =
    | JobCompleted(job: JobId) | JobDidNotStart | JobFailed(job: JobId) | JobRunning(job: JobId)
    | JobUnknown | JobRejected

  /** What a task creation strategy answers. */
  datatype CreationAnswer = QueueAt(at: int) | Disable | Throws

  /** What the job framework reports to `taskFinished`. */
  datatype JobReport = Succeeded | Failing | Unreadable

  /** The in-lease work of `startTask`, `taskFinished` and `disableSchedule`. */
  datatype Work =
    | Start(task: Key)
    | Finish(task: Key, report: JobReport)
    | DisableJob(reason: Option<string>)
  {
    function UpdateState(): UpdateState {
      match this
      case Start(_) => StartTask
      case Finish(_, _) => EndTask
      case DisableJob(_) => Pasture
    }

    function UpdateTask(): Option<Key> {
      match this
      case Start(task) => Some(task)
      case Finish(task, _) => Some(task)
      case DisableJob(_) => None
    }
  }

  /** What is left of `startTask` once the task is marked started. */
  datatype AfterMark = Nothing | ThenComplete | ThenFail

  datatype Ending = Unlocked | LeftForRepair | Refused | NotObtained | Abandoned

  /** The next call of an operation. */
  datatype Pc =
    // createScheduledJob
    | CreatingJob(first: Key, creation: Creation, duplicates: Duplicates)
    | AddingFirstTask(first: Key)
    // runUpdateInLease
    | Leasing(work: Work, retries: nat)
    | Reading(work: Work)
    // startTask
    | Queueing(task: Key)
    | CheckingStarted(task: Key)
    | CallingJob(task: Key)
    | Skipping(task: Key)
    | Starting(task: Key, job: JobId, after: AfterMark)
    | CompletingNow(task: Key)
    | FailingNow(task: Key)
    | StartFailing(task: Key, rejected: bool)
    // addTaskDuplicateCheck; `follow` when startTask goes on to its own creation strategy
    | CheckingPending(executeAt: int, follow: bool)
    | AddingTask(executeAt: int, follow: bool)
    // taskFinished
    | FinishCompleting(task: Key)
    | FinishFailing(task: Key)
    // the exits of a lease
    | Releasing(pasture: bool, reason: Option<string>)
    | MarkingRepair
    // repairExpiredSchedule
    | RepairReading
    | RepairTaking(interrupted: Option<UpdateState>)
    | RepairLooking
    | RepairChecking
    | RepairReleasing(pasture: bool, reason: Option<string>)
    | RepairReleasingAgain(reason: Option<string>)
    | Ended(how: Ending)

  datatype Operation = Operation(job: Key, now: int, leaseTime: int, pc: Pc)

  /** The answers that the outside gives in one step; a step reads the ones it asks for. */
  datatype Answers = Answers(
    job: JobAnswer,
    creation: CreationAnswer,
    skip: bool,           // of a custom duplicate strategy
    retry: Option<int>,   // seconds, of the retry strategy
    newKey: Key,          // of the primary key strategy
    invalid: bool,        // whether a thrown error counts as an invalid definition
    time: int,            // of the clock
    text: string)         // of the job framework or an error

  // ----- the state -----------------------------------------------------------

  /** `calls` is the history of `startJob` calls; `used` holds every key handed out so far. */
  datatype Sys = Sys(
    jobs: map<Key, JobRow>,
    tasks: map<Key, TaskRow>,
    operations: map<LeaseId, Operation>,
    used: set<Key>,
    calls: seq<Key>)

  function Init(): Sys {
    Sys(map[], map[], map[], {}, [])
  }

  predicate HasTaskIn(tasks: map<Key, TaskRow>, job: Key, state: TaskState) {
    exists k :: k in tasks && tasks[k].schedule == job && tasks[k].state == state
  }

  // ----- one call ------------------------------------------------------------

  /** What one call does: it writes at most one row, and the operation goes on at `pc`. */
  datatype Effect = Effect(
    pc: Pc,
    job: Option<JobRow> := None,
    task: Option<(Key, TaskRow)> := None,
    call: Option<Key> := None)

  /** A thrown strategy error: the one branch that may disable the schedule. */
  function Thrown(a: Answers): Pc {
    if a.invalid then Releasing(true, Some(a.text)) else MarkingRepair
  }

  /** The end of `startTask`: its creation strategy decides on a follow-up task. */
  function FollowUp(creation: Creation, a: Answers): Pc {
    if creation.AfterStart? then
      match a.creation
      case Throws => Thrown(a)
      case Disable => Releasing(false, None)
      case QueueAt(at) => CheckingPending(at, false)
    else Releasing(false, None)
  }

  /** The end of `taskFinished`. A disabling answer puts the schedule out to pasture. */
  function FinishUp(creation: Creation, pasture: bool, a: Answers): Pc {
    if creation.AfterFinish? then
      match a.creation
      case Throws => Thrown(a)
      case Disable => Releasing(pasture, None)
      case QueueAt(at) => CheckingPending(at, false)
    else Releasing(false, None)
  }

  /** `retryTask`. Inside `startTask` a disabling answer is dropped, and its own strategy is asked after. */
  function RetryUp(creation: Creation, now: int, follow: bool, a: Answers): Pc {
    match a.retry
    case Some(seconds) => CheckingPending(now + 1000 * seconds, follow)
    case None =>
      if follow && creation.AfterStart? then FollowUp(creation, a)
      else FinishUp(creation, !follow, a)
  }

  /** A mark of a task: the conditional update, and the two ways on. */
  function MarkTask(s: Sys, k: Key, mark: Mark, now: int, next: Pc): Effect {
    if k in s.tasks && s.tasks[k].state == mark.Expects() then
      Effect(next, task := Some((k, mark.Marked(s.tasks[k], now))))
    else
      Effect(MarkingRepair)
  }

  function StartedThen(task: Key, after: AfterMark, creation: Creation, a: Answers): Pc {
    match after
    case Nothing => FollowUp(creation, a)
    case ThenComplete => CompletingNow(task)
    case ThenFail => FailingNow(task)
  }

  function FirstCall(work: Work): Pc {
    match work
    case Start(task) => Queueing(task)
    case Finish(task, Succeeded) => FinishCompleting(task)
    case Finish(task, Failing) => FinishFailing(task)
    case Finish(_, Unreadable) => MarkingRepair
    case DisableJob(reason) => Releasing(true, if reason == Some("") then None else reason)
  }

  function ShouldSkip(s: Sys, job: Key, duplicates: Duplicates, a: Answers): bool {
    match duplicates
    case AlwaysSkip => HasTaskIn(s.tasks, job, Started)
    case AlwaysRun => false
    case Custom => a.skip
  }

  function JobAnswered(task: Key, answer: JobAnswer): Pc {
    match answer
    case JobCompleted(job) => Starting(task, job, ThenComplete)
    case JobDidNotStart => StartFailing(task, false)
    case JobFailed(job) => Starting(task, job, ThenFail)
    case JobRunning(job) => Starting(task, job, Nothing)
    case JobUnknown => MarkingRepair
    case JobRejected => StartFailing(task, true)
  }

  /** `runUpdateInLease` and `createScheduledJobAlone`: getting the lease and leaving it. */
  predicate InSchedule(pc: Pc) {
    pc.CreatingJob? || pc.Leasing? || pc.Reading? || pc.Releasing? || pc.MarkingRepair? || pc.Ended?
  }

  function ScheduleCall(row: JobRow, lease: LeaseId, op: Operation): Effect {
    match op.pc
    case CreatingJob(_, _, _) => Effect(MarkingRepair)
    case Leasing(work, retries) =>
      if CanLease(row) then
        Effect(Reading(work),
               job := Some(Leased(row, work.UpdateState(), work.UpdateTask(), lease, op.now + op.leaseTime)))
      else if retries > 0 then Effect(Leasing(work, retries - 1))
      else Effect(Ended(NotObtained))
    case Reading(work) => Effect(FirstCall(work))
    case Releasing(pasture, reason) =>
      if OwnedBy(row, lease) then Effect(Ended(Unlocked), job := Some(Released(row, pasture, reason)))
      else Effect(Ended(Refused))
    case MarkingRepair =>
      if OwnedBy(row, lease) then Effect(Ended(LeftForRepair), job := Some(MarkedForRepair(row, op.now, false, None)))
      else Effect(Ended(Refused))
    case _ => Effect(op.pc)
  }

  /** `repairExpiredSchedule`. */
  predicate InRepair(pc: Pc) {
    || pc.RepairReading? || pc.RepairTaking? || pc.RepairLooking? || pc.RepairChecking?
    || pc.RepairReleasing? || pc.RepairReleasingAgain?
  }

  function RepairCall(s: Sys, row: JobRow, lease: LeaseId, op: Operation, a: Answers): Effect {
    match op.pc
    case RepairReading => Effect(RepairTaking(Interrupted(row)))
    case RepairTaking(interrupted) =>
      if Expired(row, op.now) then
        Effect(RepairLooking, job := Some(TakenForRepair(row, lease, op.now + op.leaseTime, interrupted)))
      else Effect(Ended(NotObtained))
    case RepairLooking => Effect(RepairOf(row, a))
    case RepairChecking =>
      Effect(if HasTaskIn(s.tasks, op.job, Pending) then RepairReleasing(false, None)
             else RepairReleasingAgain(Some(a.text)))
    case RepairReleasing(pasture, reason) =>
      if OwnedBy(row, lease) then Effect(Ended(Unlocked), job := Some(Released(row, pasture, reason)))
      else Effect(RepairReleasingAgain(Some(a.text)))
    case RepairReleasingAgain(reason) =>
      if OwnedBy(row, lease) then Effect(Ended(Unlocked), job := Some(Released(row, true, reason)))
      else Effect(Ended(Refused))
    case _ => Effect(op.pc)
  }

  /** `performRepair`, on the row found after taking it. The repairs that are not implemented reject. */
  function RepairOf(row: JobRow, a: Answers): Pc {
    if row.repairState == Some(AddTask) && row.pasture then
      RepairReleasing(true, Some(if row.pastureReason.None? || row.pastureReason.value == "" then "<invalid state>"
                                 else row.pastureReason.value))
    else if row.repairState == Some(AddTask) && row.updateTaskPk.Some? then RepairChecking
    else if row.repairState.None? || row.repairState == Some(Repair) then
      RepairReleasing(true, Some("Invalid internal state discovered during repair"))
    else RepairReleasingAgain(Some(a.text))
  }

  /** The work inside the lease: `startTask`, `taskFinished` and the first task of `createScheduledJob`. */
  function WorkCall(s: Sys, row: JobRow, op: Operation, a: Answers): Effect {
    match op.pc
    case AddingFirstTask(first) =>
      if a.creation.Throws? then Effect(Thrown(a))
      else if first in s.tasks then Effect(MarkingRepair)
      else Effect(Releasing(false, None), task := Some((first, NewTask(op.job, op.now, a.time))))
    case Queueing(task) => MarkTask(s, task, MarkQueued, op.now, CheckingStarted(task))
    case CheckingStarted(task) =>
      Effect(if ShouldSkip(s, op.job, row.duplicates, a) then Skipping(task) else CallingJob(task))
    case CallingJob(task) => Effect(JobAnswered(task, a.job), call := Some(task))
    case Skipping(task) => MarkTask(s, task, MarkSkipped, a.time, FollowUp(row.creation, a))
    case Starting(task, job, after) =>
      MarkTask(s, task, MarkStarted(job), a.time, StartedThen(task, after, row.creation, a))
    case CompletingNow(task) => MarkTask(s, task, MarkCompleted(a.text), a.time, FollowUp(row.creation, a))
    case FailingNow(task) =>
      MarkTask(s, task, MarkFailed(Queued, TaskState.Failed, a.text), a.time, RetryUp(row.creation, op.now, true, a))
    case StartFailing(task, rejected) =>
      MarkTask(s, task, MarkStartFailed(a.text), a.time, if rejected then MarkingRepair else Releasing(false, None))
    case CheckingPending(at, follow) =>
      if HasTaskIn(s.tasks, op.job, Pending) then
        Effect(if follow then FollowUp(row.creation, a) else Releasing(false, None))
      else Effect(AddingTask(at, follow))
    case AddingTask(at, follow) =>
      Effect(if follow then FollowUp(row.creation, a) else Releasing(false, None),
             task := Some((a.newKey, NewTask(op.job, op.now, at))))
    case FinishCompleting(task) => MarkTask(s, task, MarkCompleted(a.text), op.now, FinishUp(row.creation, true, a))
    case FinishFailing(task) =>
      MarkTask(s, task, MarkFailed(Started, CompleteError, a.text), op.now, RetryUp(row.creation, op.now, false, a))
    case _ => Effect(op.pc)
  }

  /** The next call of the operation with this lease id. */
  function Call(s: Sys, lease: LeaseId, op: Operation, a: Answers): Effect {
    if op.job !in s.jobs then CallWithoutJob(s, lease, op)
    else if InSchedule(op.pc) then ScheduleCall(s.jobs[op.job], lease, op)
    else if InRepair(op.pc) then RepairCall(s, s.jobs[op.job], lease, op, a)
    else WorkCall(s, s.jobs[op.job], op, a)
  }

  /** The same, while the schedule's row does not exist. */
  function CallWithoutJob(s: Sys, lease: LeaseId, op: Operation): Effect {
    match op.pc
    case CreatingJob(first, creation, duplicates) =>
      Effect(AddingFirstTask(first), job := Some(NewJob(creation, duplicates, first, lease, op.now + op.leaseTime)))
    case Leasing(work, retries) => Effect(if retries > 0 then Leasing(work, retries - 1) else Ended(NotObtained))
    case Ended(_) => Effect(op.pc)
    case _ => Effect(Ended(Refused))
  }

  // ----- events --------------------------------------------------------------

  datatype Event =
    /** `createScheduledJob`, with its fresh keys and lease id. */
    | BeginCreate(
        lease: LeaseId, job: Key, first: Key, creation: Creation, duplicates: Duplicates, now: int, leaseTime: int)
    /** `startTask` or `taskFinished` for a stored task. */
    | BeginTask(lease: LeaseId, work: Work, now: int, leaseTime: int, retries: nat)
    | BeginDisable(lease: LeaseId, job: Key, reason: Option<string>, now: int, leaseTime: int, retries: nat)
    | BeginRepair(lease: LeaseId, job: Key, now: int, leaseTime: int)
    /** The operation's next call. */
    | Act(lease: LeaseId, answers: Answers)
    /** The operation's next call, or the code before it, fails. */
    | Fault(lease: LeaseId)
    | DeleteFinished(task: Key)

  /** Where a failing call leads. Inside the lease the schedule is marked for repair. */
  function Faulted(pc: Pc): Pc {
    match pc
    case CreatingJob(_, _, _) => MarkingRepair
    case Leasing(work, retries) => if retries > 0 then Leasing(work, retries - 1) else Ended(NotObtained)
    case Reading(_) => Ended(Abandoned)
    case Releasing(_, _) => Ended(Abandoned)
    case MarkingRepair => Ended(Abandoned)
    case RepairReading => Ended(Abandoned)
    case RepairTaking(_) => Ended(Abandoned)
    case RepairLooking => Ended(Abandoned)
    case RepairChecking => RepairReleasingAgain(Some("fault"))
    case RepairReleasing(_, _) => RepairReleasingAgain(Some("fault"))
    case RepairReleasingAgain(_) => Ended(Abandoned)
    case Ended(_) => pc
    case _ => MarkingRepair
  }

  /** Lease ids are never used twice. */
  function Begin(s: Sys, lease: LeaseId, op: Operation): Sys {
    if lease in s.operations then s else s.(operations := s.operations[lease := op])
  }

  /** An operation's effect on the state. */
  function Apply(s: Sys, lease: LeaseId, op: Operation, e: Effect): Sys {
    Sys(
      match e.job case Some(row) => s.jobs[op.job := row] case None => s.jobs,
      match e.task case Some((k, row)) => s.tasks[k := row] case None => s.tasks,
      s.operations[lease := op.(pc := e.pc)],
      match e.task case Some((k, _)) => s.used + {k} case None => s.used,
      match e.call case Some(k) => s.calls + [k] case None => s.calls)
  }

  /** The primary key strategy answers with a key that was never used. */
  predicate KeyIsFresh(s: Sys, op: Operation, a: Answers) {
    op.pc.AddingTask? ==> a.newKey !in s.used
  }

  function Next(s: Sys, e: Event): Sys {
    match e
    case BeginCreate(lease, job, first, creation, duplicates, now, leaseTime) =>
      if job == first || job in s.used || first in s.used then s
      else if lease in s.operations then s
      else
        var op := Operation(job, now, leaseTime, CreatingJob(first, creation, duplicates));
        Begin(s.(used := s.used + {job, first}), lease, op)
    case BeginTask(lease, work, now, leaseTime, retries) =>
      if work.DisableJob? || work.task !in s.tasks then s
      else Begin(s, lease, Operation(s.tasks[work.task].schedule, now, leaseTime, Leasing(work, retries)))
    case BeginDisable(lease, job, reason, now, leaseTime, retries) =>
      if job !in s.jobs then s
      else Begin(s, lease, Operation(job, now, leaseTime, Leasing(DisableJob(reason), retries)))
    case BeginRepair(lease, job, now, leaseTime) =>
      if job !in s.jobs then s
      else Begin(s, lease, Operation(job, now, leaseTime, RepairReading))
    case Act(lease, answers) =>
      if lease !in s.operations || !KeyIsFresh(s, s.operations[lease], answers) then s
      else Apply(s, lease, s.operations[lease], Call(s, lease, s.operations[lease], answers))
    case Fault(lease) =>
      if lease !in s.operations then s
      else Apply(s, lease, s.operations[lease], Effect(Faulted(s.operations[lease].pc)))
    case DeleteFinished(task) =>
      if task in s.tasks && IsFinished(s.tasks[task].state) then s.(tasks := s.tasks - {task}) else s
  }

  /** A run: the events of one interleaving, in order. */
  function Run(s: Sys, events: seq<Event>): Sys
    decreases |events|
  {
    if events == [] then s else Run(Next(s, events[0]), events[1..])
  }

  lemma RunFrom(s: Sys, events: seq<Event>, i: nat)
    requires i < |events|
    ensures Run(s, events[i..]) == Run(Next(s, events[i]), events[i + 1..])
  {
    hide Next;
    assert events[i..][1..] == events[i + 1..];
  }

  lemma RunNothing(s: Sys)
    ensures Run(s, []) == s
  {
  }

  lemma {:induction false} RunAppend(s: Sys, before: seq<Event>, after: seq<Event>)
    ensures Run(s, before + after) == Run(Run(s, before), after)
    decreases |before|
  {
    hide Next;
    if before == [] {
      assert before + after == after;
    } else {
      assert (before + after)[1..] == before[1..] + after;
      RunAppend(Next(s, before[0]), before[1..], after);
    }
  }
}
