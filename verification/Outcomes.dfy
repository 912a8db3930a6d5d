/**
 What each operation does when nothing comes between its calls: the rows that it leaves, for every state
 that it may find and all answers that it may get.

 The rows are written out here, so that this says what the calls of the operation amount to.
 */
module Outcomes {
  import opened Wrappers
  import opened Model
  import opened DbImpl
  import opened Protocol
  import opened Steps

  // ----- the rows --------------------------------------------------------------------------

  function UnlockedRow(row: JobRow, pasture: bool, reason: Option<string>): JobRow {
    JobRow(row.creation, row.duplicates, None, None, None, None, None, pasture, reason)
  }

  /** The lease has expired as of the operation's own time, and so is left to be repaired. */
  function ExpiredRow(row: JobRow, kind: UpdateState, task: Option<Key>, lease: LeaseId, now: int): JobRow {
    JobRow(row.creation, row.duplicates, Some(kind), task, Some(lease), Some(now), row.repairState, false, None)
  }

  function LockedRow(row: JobRow, kind: UpdateState, task: Option<Key>, lease: LeaseId, expires: int): JobRow {
    JobRow(row.creation, row.duplicates, Some(kind), task, Some(lease), Some(expires), row.repairState,
           row.pasture, row.pastureReason)
  }

  function PendingRow(job: Key, createdOn: int, executeAt: int): TaskRow {
    TaskRow(job, Pending, createdOn, executeAt, None, None, None, None, None)
  }

  /** A task of the schedule is in the state. */
  ghost predicate SomeTask(tasks: map<Key, TaskRow>, job: Key, state: TaskState) {
    exists k :: k in tasks && tasks[k].schedule == job && tasks[k].state == state
  }

  // ----- leaving the lease -------------------------------------------------------------------

  /** The operation has ended; its schedule's row and the tasks are as given. */
  function EndsWith(s: Sys, lease: LeaseId, how: Ending, row: JobRow): Sys
    requires lease in s.operations
  {
    Moved(s, lease, Ended(how)).(jobs := s.jobs[s.operations[lease].job := row])
  }

  /** It holds the row, for this kind of operation. */
  ghost predicate Holds(s: Sys, lease: LeaseId, pc: Pc, kind: UpdateState, task: Option<Key>) {
    && At(s, lease, pc)
    && var row := s.jobs[s.operations[lease].job];
       row.updateState == Some(kind) && row.updateTaskPk == task && row.leaseOwner == Some(lease)
  }

  lemma AloneStep(s: Sys, lease: LeaseId, a: Answers, n: nat)
    requires n > 0
    ensures Run(s, Alone(lease, a, n)) == Run(Next(s, Act(lease, a)), Alone(lease, a, n - 1))
  {
    hide Run, Next;
    RunFirst(s, Act(lease, a), Alone(lease, a, n - 1));
  }

  lemma {:induction false} AloneEnded(s: Sys, lease: LeaseId, a: Answers, n: nat)
    requires lease in s.operations && s.operations[lease].pc.Ended?
    ensures Run(s, Alone(lease, a, n)) == s
  {
    hide Next;
    if n > 0 {
      EndedStep(s, lease, a);
      AloneStep(s, lease, a, n);
      AloneEnded(s, lease, a, n - 1);
    }
  }

  lemma ReleasedRow(row: JobRow, pasture: bool, reason: Option<string>)
    ensures Released(row, pasture, reason) == UnlockedRow(row, pasture, reason)
  {
  }

  lemma ReleaseEnds(s: Sys, lease: LeaseId, pasture: bool, reason: Option<string>, a: Answers, n: nat)
    requires At(s, lease, Releasing(pasture, reason)) && OwnedBy(s.jobs[s.operations[lease].job], lease) && n >= 1
    ensures Run(s, Alone(lease, a, n)) ==
      EndsWith(s, lease, Unlocked, UnlockedRow(s.jobs[s.operations[lease].job], pasture, reason))
  {
    hide Run, Next, Released;
    ReleasedRow(s.jobs[s.operations[lease].job], pasture, reason);
    ReleaseStep(s, lease, pasture, reason, a);
    AloneStep(s, lease, a, n);
    AloneEnded(Next(s, Act(lease, a)), lease, a, n - 1);
  }

  lemma MarkEnds(s: Sys, lease: LeaseId, kind: UpdateState, task: Option<Key>, a: Answers, n: nat)
    requires Holds(s, lease, MarkingRepair, kind, task) && n >= 1
    ensures var op := s.operations[lease];
      Run(s, Alone(lease, a, n)) ==
      EndsWith(s, lease, LeftForRepair, ExpiredRow(s.jobs[op.job], kind, task, lease, op.now))
  {
    hide Run, Next;
    MarkRepairStep(s, lease, a);
    AloneStep(s, lease, a, n);
    AloneEnded(Next(s, Act(lease, a)), lease, a, n - 1);
  }

  // ----- a follow-up task ---------------------------------------------------------------------

  /** With a task that is due at this time, unless one is pending already. */
  ghost function WithTask(s: Sys, lease: LeaseId, at: int, newKey: Key): Sys
    requires lease in s.operations
  {
    var op := s.operations[lease];
    if SomeTask(s.tasks, op.job, Pending) then s
    else s.(tasks := s.tasks[newKey := PendingRow(op.job, op.now, at)], used := s.used + {newKey})
  }

  lemma NewTaskRow(job: Key, now: int, at: int)
    ensures NewTask(job, now, at) == PendingRow(job, now, at)
  {
  }

  lemma FoundPending(s: Sys, lease: LeaseId, at: int, a: Answers)
    requires At(s, lease, CheckingPending(at, false)) && HasTaskIn(s.tasks, s.operations[lease].job, Pending)
    ensures Next(s, Act(lease, a)) == Moved(s, lease, Releasing(false, None))
  {
    hide ScheduleCall, RepairCall, HasTaskIn;
  }

  lemma AddEnds(s: Sys, lease: LeaseId, at: int, a: Answers, n: nat)
    requires At(s, lease, CheckingPending(at, false)) && OwnedBy(s.jobs[s.operations[lease].job], lease)
    requires !HasTaskIn(s.tasks, s.operations[lease].job, Pending) && a.newKey !in s.used && n >= 3
    ensures var op := s.operations[lease];
      Run(s, Alone(lease, a, n)) == EndsWith(
        s.(tasks := s.tasks[a.newKey := PendingRow(op.job, op.now, at)], used := s.used + {a.newKey}),
        lease, Unlocked, UnlockedRow(s.jobs[op.job], false, None))
  {
    hide Run, Next, NewTask, UnlockedRow, PendingRow, HasTaskIn;
    var op, s1 := s.operations[lease], Next(s, Act(lease, a));
    NewTaskRow(op.job, op.now, at);
    CheckPendingStep(s, lease, at, a);
    AddTaskStep(s1, lease, at, a);
    AloneStep(s, lease, a, n);
    AloneStep(s1, lease, a, n - 1);
    ReleaseEnds(Next(s1, Act(lease, a)), lease, false, None, a, n - 2);
  }

  lemma CheckEnds(s: Sys, lease: LeaseId, at: int, a: Answers, n: nat)
    requires At(s, lease, CheckingPending(at, false)) && OwnedBy(s.jobs[s.operations[lease].job], lease)
    requires a.newKey !in s.used && n >= 3
    ensures Run(s, Alone(lease, a, n)) == EndsWith(
      WithTask(s, lease, at, a.newKey), lease, Unlocked, UnlockedRow(s.jobs[s.operations[lease].job], false, None))
  {
    hide Run, Next, UnlockedRow, PendingRow;
    SameTasks(s.tasks, s.operations[lease].job, Pending);
    if SomeTask(s.tasks, s.operations[lease].job, Pending) {
      hide HasTaskIn, SomeTask;
      FoundEnds(s, lease, at, a, n);
    } else {
      hide HasTaskIn, SomeTask;
      AddEnds(s, lease, at, a, n);
    }
  }

  lemma FoundEnds(s: Sys, lease: LeaseId, at: int, a: Answers, n: nat)
    requires At(s, lease, CheckingPending(at, false)) && OwnedBy(s.jobs[s.operations[lease].job], lease)
    requires HasTaskIn(s.tasks, s.operations[lease].job, Pending) && n >= 2
    ensures Run(s, Alone(lease, a, n)) ==
      EndsWith(s, lease, Unlocked, UnlockedRow(s.jobs[s.operations[lease].job], false, None))
  {
    hide Run, Next, UnlockedRow, HasTaskIn;
    FoundPending(s, lease, at, a);
    AloneStep(s, lease, a, n);
    ReleaseEnds(Next(s, Act(lease, a)), lease, false, None, a, n - 1);
  }

  lemma SameTasks(tasks: map<Key, TaskRow>, job: Key, state: TaskState)
    ensures HasTaskIn(tasks, job, state) == SomeTask(tasks, job, state)
  {
  }

  /** What it adds, while no task is pending. */
  lemma FollowedUpAdds(s: Sys, lease: LeaseId, kind: UpdateState, task: Option<Key>, asked: bool, dropped: bool,
                       a: Answers)
    requires lease in s.operations && s.operations[lease].job in s.jobs
    requires !SomeTask(s.tasks, s.operations[lease].job, Pending)
    ensures var op := s.operations[lease];
      FollowedUp(s, lease, kind, task, asked, dropped, a).tasks ==
      if asked && a.creation.QueueAt? then
        s.tasks[a.newKey := TaskRow(op.job, Pending, op.now, a.creation.at, None, None, None, None, None)]
      else s.tasks
  {
    hide UnlockedRow, ExpiredRow, SomeTask;
  }

  /**
   The end of the work, with the lease still held: if the schedule's strategy is asked for a follow-up, the
   answer decides on the task and on the row. `dropped` says that a disabling answer is dropped.
   */
  ghost function FollowedUp(s: Sys, lease: LeaseId, kind: UpdateState, task: Option<Key>, asked: bool, dropped: bool,
                            a: Answers): Sys
    requires lease in s.operations && s.operations[lease].job in s.jobs
  {
    var op := s.operations[lease];
    var row := s.jobs[op.job];
    if !asked || (a.creation.Disable? && dropped) then EndsWith(s, lease, Unlocked, UnlockedRow(row, false, None))
    else
      match a.creation
      case QueueAt(at) =>
        EndsWith(WithTask(s, lease, at, a.newKey), lease, Unlocked, UnlockedRow(row, false, None))
      case Disable => EndsWith(s, lease, Unlocked, UnlockedRow(row, true, None))
      case Throws =>
        if a.invalid then EndsWith(s, lease, Unlocked, UnlockedRow(row, true, Some(a.text)))
        else EndsWith(s, lease, LeftForRepair, ExpiredRow(row, kind, task, lease, op.now))
  }

  /** Where the calls go on after the strategy's answer. */
  function Asking(asked: bool, dropped: bool, a: Answers): Pc {
    if !asked then Releasing(false, None)
    else
      match a.creation
      case QueueAt(at) => CheckingPending(at, false)
      case Disable => Releasing(!dropped, None)
      case Throws => if a.invalid then Releasing(true, Some(a.text)) else MarkingRepair
  }

  lemma AskingEnds(s: Sys, lease: LeaseId, kind: UpdateState, task: Option<Key>, asked: bool, dropped: bool,
                   a: Answers, n: nat)
    requires Holds(s, lease, Asking(asked, dropped, a), kind, task) && a.newKey !in s.used && n >= 3
    ensures Run(s, Alone(lease, a, n)) == FollowedUp(s, lease, kind, task, asked, dropped, a)
  {
    hide Run, Next, UnlockedRow, ExpiredRow, WithTask;
    if asked && a.creation.QueueAt? {
      CheckEnds(s, lease, a.creation.at, a, n);
    } else if asked && a.creation.Throws? && !a.invalid {
      MarkEnds(s, lease, kind, task, a, n);
    } else {
      var pc := s.operations[lease].pc;
      ReleaseEnds(s, lease, pc.pasture, pc.reason, a, n);
    }
  }

  /** It does not matter where the calls had come to. */
  lemma FollowedUpFrom(s: Sys, lease: LeaseId, pc: Pc, kind: UpdateState, task: Option<Key>, asked: bool,
                       dropped: bool, a: Answers)
    requires lease in s.operations && s.operations[lease].job in s.jobs
    ensures FollowedUp(Moved(s, lease, pc), lease, kind, task, asked, dropped, a) ==
      FollowedUp(s, lease, kind, task, asked, dropped, a)
  {
    hide UnlockedRow, ExpiredRow, PendingRow, SomeTask;
  }

  // ----- starting a task ----------------------------------------------------------------------------

  /** The duplicate strategy of the schedule has this start skipped. */
  ghost predicate Skipped(s: Sys, job: Key, a: Answers)
    requires job in s.jobs
  {
    match s.jobs[job].duplicates
    case AlwaysRun => false
    case AlwaysSkip => SomeTask(s.tasks, job, Started)
    case Custom => a.skip
  }

  function QueuedTask(row: TaskRow, now: int): TaskRow {
    row.(state := Queued, executionQueued := Some(now))
  }

  function SkippedTask(row: TaskRow, now: int, a: Answers): TaskRow {
    QueuedTask(row, now).(
      state := Completed, executionFinished := Some(a.time), completedInfo := Some("{\"skipped\":true}"))
  }

  /** The task after its job was called, by what the job framework answered. */
  function CalledTask(row: TaskRow, now: int, a: Answers): TaskRow {
    var queued := QueuedTask(row, now);
    match a.job
    case JobRunning(job) =>
      queued.(state := Started, executionStarted := Some(a.time), executionJobId := Some(job))
    case JobFailed(job) =>
      queued.(state := Started, executionStarted := Some(a.time), executionJobId := Some(job))
    case JobCompleted(job) =>
      queued.(state := Completed, executionStarted := Some(a.time), executionJobId := Some(job),
              executionFinished := Some(a.time), completedInfo := Some(a.text))
    case JobDidNotStart =>
      queued.(state := StartError, executionStarted := Some(a.time), completedInfo := Some(a.text))
    case JobRejected =>
      queued.(state := StartError, executionStarted := Some(a.time), completedInfo := Some(a.text))
    case JobUnknown => queued
  }

  function StartingAlone(lease: LeaseId, k: Key, now: int, leaseTime: int, retries: nat, a: Answers): seq<Event> {
    [BeginTask(lease, Start(k), now, leaseTime, retries)] + Alone(lease, a, 10)
  }

  /** A pending task of an unlocked schedule. */
  ghost predicate CanStart(s: Sys, lease: LeaseId, k: Key, a: Answers) {
    && lease !in s.operations && k in s.tasks && k in s.used && s.tasks[k].state == Pending
    && s.tasks[k].schedule in s.jobs && s.jobs[s.tasks[k].schedule].updateState == None
    && a.newKey !in s.used
  }

  /** The lease is held for the task, which has this row. */
  function InWork(s: Sys, lease: LeaseId, kind: UpdateState, k: Key, now: int, leaseTime: int, pc: Pc, task: TaskRow)
    : Sys
    requires k in s.tasks && s.tasks[k].schedule in s.jobs
  {
    var job := s.tasks[k].schedule;
    s.(jobs := s.jobs[job := LockedRow(s.jobs[job], kind, Some(k), lease, now + leaseTime)],
       tasks := s.tasks[k := task],
       operations := s.operations[lease := Operation(job, now, leaseTime, pc)])
  }

  /** What becomes of the state when the job is called. */
  ghost function AfterCall(s: Sys, lease: LeaseId, k: Key, now: int, leaseTime: int, a: Answers): Sys
    requires k in s.tasks && s.tasks[k].schedule in s.jobs
  {
    var row := s.jobs[s.tasks[k].schedule];
    var called := InWork(
      s.(calls := s.calls + [k]), lease, StartTask, k, now, leaseTime, CallingJob(k), CalledTask(s.tasks[k], now, a));
    match a.job
    case JobRunning(_) => FollowedUp(called, lease, StartTask, Some(k), row.creation.AfterStart?, true, a)
    case JobCompleted(_) => FollowedUp(called, lease, StartTask, Some(k), row.creation.AfterStart?, true, a)
    case JobDidNotStart => EndsWith(called, lease, Unlocked, UnlockedRow(row, false, None))
    case _ => EndsWith(called, lease, LeftForRepair, ExpiredRow(row, StartTask, Some(k), lease, now))
  }

  ghost function AfterSkip(s: Sys, lease: LeaseId, k: Key, now: int, leaseTime: int, a: Answers): Sys
    requires k in s.tasks && s.tasks[k].schedule in s.jobs
  {
    var row := s.jobs[s.tasks[k].schedule];
    var skipped := InWork(s, lease, StartTask, k, now, leaseTime, Skipping(k), SkippedTask(s.tasks[k], now, a));
    FollowedUp(skipped, lease, StartTask, Some(k), row.creation.AfterStart?, true, a)
  }

  lemma TaskBegins(s: Sys, lease: LeaseId, work: Work, now: int, leaseTime: int, retries: nat)
    requires lease !in s.operations && work.UpdateTask().Some? && work.task in s.tasks
    ensures Next(s, BeginTask(lease, work, now, leaseTime, retries)) == s.(operations :=
      s.operations[lease := Operation(s.tasks[work.task].schedule, now, leaseTime, Leasing(work, retries))])
  {
  }

  lemma LeasedRow(row: JobRow, kind: UpdateState, task: Option<Key>, lease: LeaseId, expires: int)
    ensures Leased(row, kind, task, lease, expires) == LockedRow(row, kind, task, lease, expires)
  {
  }

  /** An unlocked schedule is leased by the first attempt. */
  lemma TaskLeases(s: Sys, lease: LeaseId, work: Work, now: int, leaseTime: int, retries: nat, a: Answers, n: nat)
    requires lease !in s.operations && work.UpdateTask().Some? && work.task in s.tasks && n >= 2
    requires s.tasks[work.task].schedule in s.jobs && s.jobs[s.tasks[work.task].schedule].updateState == None
    ensures Run(s, [BeginTask(lease, work, now, leaseTime, retries)] + Alone(lease, a, n)) ==
      Run(InWork(s, lease, work.UpdateState(), work.task, now, leaseTime, FirstCall(work), s.tasks[work.task]),
          Alone(lease, a, n - 2))
  {
    hide Run, Next, FirstCall, LockedRow, Leased;
    var e, job := BeginTask(lease, work, now, leaseTime, retries), s.tasks[work.task].schedule;
    var s1 := Next(s, e);
    var s2 := Next(s1, Act(lease, a));
    TaskBegins(s, lease, work, now, leaseTime, retries);
    LeasedRow(s.jobs[job], work.UpdateState(), Some(work.task), lease, now + leaseTime);
    LeaseStep(s1, lease, work, retries, a);
    ReadStep(s2, lease, work, a);
    RunFirst(s, e, Alone(lease, a, n));
    AloneStep(s1, lease, a, n);
    AloneStep(s2, lease, a, n - 1);
    assert s.tasks[work.task := s.tasks[work.task]] == s.tasks;
    assert Next(s2, Act(lease, a)) ==
      InWork(s, lease, work.UpdateState(), work.task, now, leaseTime, FirstCall(work), s.tasks[work.task]);
  }

  lemma QueueingCalls(s: Sys, lease: LeaseId, k: Key, now: int, leaseTime: int, a: Answers, n: nat)
    requires CanStart(s, lease, k, a) && n >= 1
    ensures var row := s.tasks[k];
      Run(InWork(s, lease, StartTask, k, now, leaseTime, Queueing(k), row), Alone(lease, a, n)) ==
      Run(InWork(s, lease, StartTask, k, now, leaseTime, CheckingStarted(k), QueuedTask(row, now)),
          Alone(lease, a, n - 1))
  {
    hide Run, Next, LockedRow;
    var s1 := InWork(s, lease, StartTask, k, now, leaseTime, Queueing(k), s.tasks[k]);
    MarkStep(s1, lease, a);
    AloneStep(s1, lease, a, n);
    assert Next(s1, Act(lease, a)) ==
      InWork(s, lease, StartTask, k, now, leaseTime, CheckingStarted(k), QueuedTask(s.tasks[k], now));
  }

  /** The queued task itself is not started. */
  lemma QueuedIsNotStarted(tasks: map<Key, TaskRow>, job: Key, k: Key, now: int)
    requires k in tasks && tasks[k].state == Pending
    ensures SomeTask(tasks[k := QueuedTask(tasks[k], now)], job, Started) <==> SomeTask(tasks, job, Started)
  {
    var queued := tasks[k := QueuedTask(tasks[k], now)];
    assert forall m :: m in tasks && m != k ==> queued[m] == tasks[m];
    if SomeTask(tasks, job, Started) {
      var m :| m in tasks && tasks[m].schedule == job && tasks[m].state == Started;
      assert queued[m].state == Started;
    }
  }

  lemma CheckedStart(s: Sys, lease: LeaseId, k: Key, a: Answers)
    requires At(s, lease, CheckingStarted(k))
    ensures Next(s, Act(lease, a)) ==
      Moved(s, lease, if Skipped(s, s.operations[lease].job, a) then Skipping(k) else CallingJob(k))
  {
    hide ScheduleCall, RepairCall;
  }

  /** A mark of the task in hand. */
  lemma Marks(s: Sys, lease: LeaseId, kind: UpdateState, k: Key, now: int, leaseTime: int, pc: Pc, task: TaskRow,
              mark: Mark, time: int, a: Answers)
    requires k in s.tasks && k in s.used && s.tasks[k].schedule in s.jobs
    requires MarkOf(Operation(s.tasks[k].schedule, now, leaseTime, pc), a) == Some((k, mark, time))
    ensures var op := Operation(s.tasks[k].schedule, now, leaseTime, pc);
      Next(InWork(s, lease, kind, k, now, leaseTime, pc, task), Act(lease, a)) ==
      if task.state == mark.Expects() then
        InWork(s, lease, kind, k, now, leaseTime, AfterMarking(op, s.jobs[op.job].creation, a), mark.Marked(task, time))
      else
        InWork(s, lease, kind, k, now, leaseTime, MarkingRepair, task)
  {
    hide Next, MarkOf, AfterMarking, Mark.Marked, Mark.Expects;
    var s1 := InWork(s, lease, kind, k, now, leaseTime, pc, task);
    if task.state == mark.Expects() {
      MarkStep(s1, lease, a);
    } else {
      RefusedStep(s1, lease, a);
    }
  }

  lemma AskedAfterStart(creation: Creation, a: Answers)
    ensures FollowUp(creation, a) == Asking(creation.AfterStart?, true, a)
  {
  }

  /** The end of the work on a task. */
  lemma WorkEnds(s: Sys, lease: LeaseId, kind: UpdateState, k: Key, now: int, leaseTime: int, pc: Pc, task: TaskRow,
                 asked: bool, dropped: bool, a: Answers, n: nat)
    requires k in s.tasks && s.tasks[k].schedule in s.jobs && a.newKey !in s.used && n >= 3
    ensures Run(InWork(s, lease, kind, k, now, leaseTime, Asking(asked, dropped, a), task), Alone(lease, a, n)) ==
      FollowedUp(InWork(s, lease, kind, k, now, leaseTime, pc, task), lease, kind, Some(k), asked, dropped, a)
  {
    hide Run, Next, FollowedUp, Asking, Alone;
    var s1 := InWork(s, lease, kind, k, now, leaseTime, Asking(asked, dropped, a), task);
    AskingEnds(s1, lease, kind, Some(k), asked, dropped, a, n);
    FollowedUpFrom(s1, lease, pc, kind, Some(k), asked, dropped, a);
    assert Moved(s1, lease, pc) == InWork(s, lease, kind, k, now, leaseTime, pc, task);
  }

  lemma SkippingEnds(s: Sys, lease: LeaseId, k: Key, now: int, leaseTime: int, a: Answers, n: nat)
    requires CanStart(s, lease, k, a) && n >= 4
    ensures Run(InWork(s, lease, StartTask, k, now, leaseTime, Skipping(k), QueuedTask(s.tasks[k], now)),
                Alone(lease, a, n)) == AfterSkip(s, lease, k, now, leaseTime, a)
  {
    hide Run, Next, FollowedUp, Asking, Alone, InWork, FollowUp;
    var creation := s.jobs[s.tasks[k].schedule].creation;
    var s1 := InWork(s, lease, StartTask, k, now, leaseTime, Skipping(k), QueuedTask(s.tasks[k], now));
    Marks(s, lease, StartTask, k, now, leaseTime, Skipping(k), QueuedTask(s.tasks[k], now), MarkSkipped, a.time, a);
    AskedAfterStart(creation, a);
    AloneStep(s1, lease, a, n);
    WorkEnds(s, lease, StartTask, k, now, leaseTime, Skipping(k), SkippedTask(s.tasks[k], now, a),
             creation.AfterStart?, true, a, n - 1);
  }

  function StartedTask(row: TaskRow, now: int, time: int, job: JobId): TaskRow {
    QueuedTask(row, now).(state := Started, executionStarted := Some(time), executionJobId := Some(job))
  }

  /** The job was started: the task is marked so, and the work goes on. */
  lemma StartIsMarked(s: Sys, lease: LeaseId, k: Key, now: int, leaseTime: int, job: JobId, after: AfterMark,
                      a: Answers)
    requires CanStart(s, lease, k, a)
    ensures var creation := s.jobs[s.tasks[k].schedule].creation;
      Next(InWork(s, lease, StartTask, k, now, leaseTime, Starting(k, job, after), QueuedTask(s.tasks[k], now)),
           Act(lease, a)) ==
      InWork(s, lease, StartTask, k, now, leaseTime,
             match after
             case Nothing => Asking(creation.AfterStart?, true, a)
             case ThenComplete => CompletingNow(k)
             case ThenFail => FailingNow(k),
             StartedTask(s.tasks[k], now, a.time, job))
  {
    hide Next, InWork, Asking, FollowUp;
    AskedAfterStart(s.jobs[s.tasks[k].schedule].creation, a);
    Marks(s, lease, StartTask, k, now, leaseTime, Starting(k, job, after), QueuedTask(s.tasks[k], now),
          MarkStarted(job), a.time, a);
  }

  lemma RunningEnds(s: Sys, lease: LeaseId, k: Key, now: int, leaseTime: int, job: JobId, a: Answers, n: nat)
    requires CanStart(s, lease, k, a) && n >= 4
    ensures var creation := s.jobs[s.tasks[k].schedule].creation;
      Run(InWork(s, lease, StartTask, k, now, leaseTime, Starting(k, job, Nothing), QueuedTask(s.tasks[k], now)),
          Alone(lease, a, n)) ==
      FollowedUp(InWork(s, lease, StartTask, k, now, leaseTime, CallingJob(k),
                        StartedTask(s.tasks[k], now, a.time, job)),
                 lease, StartTask, Some(k), creation.AfterStart?, true, a)
  {
    hide Run, Next, FollowedUp, Asking, Alone, InWork, StartedTask, QueuedTask;
    var creation := s.jobs[s.tasks[k].schedule].creation;
    var s1 :=
      InWork(s, lease, StartTask, k, now, leaseTime, Starting(k, job, Nothing), QueuedTask(s.tasks[k], now));
    StartIsMarked(s, lease, k, now, leaseTime, job, Nothing, a);
    AloneStep(s1, lease, a, n);
    WorkEnds(s, lease, StartTask, k, now, leaseTime, CallingJob(k), StartedTask(s.tasks[k], now, a.time, job),
             creation.AfterStart?, true, a, n - 1);
  }

  lemma CompletedEnds(s: Sys, lease: LeaseId, k: Key, now: int, leaseTime: int, job: JobId, a: Answers, n: nat)
    requires CanStart(s, lease, k, a) && n >= 5
    ensures var creation := s.jobs[s.tasks[k].schedule].creation;
      var completed := StartedTask(s.tasks[k], now, a.time, job).(
        state := Completed, executionFinished := Some(a.time), completedInfo := Some(a.text));
      Run(InWork(s, lease, StartTask, k, now, leaseTime, Starting(k, job, ThenComplete), QueuedTask(s.tasks[k], now)),
          Alone(lease, a, n)) ==
      FollowedUp(InWork(s, lease, StartTask, k, now, leaseTime, CallingJob(k), completed),
                 lease, StartTask, Some(k), creation.AfterStart?, true, a)
  {
    hide Run, Next, FollowedUp, Asking, Alone, InWork, FollowUp, QueuedTask;
    var creation := s.jobs[s.tasks[k].schedule].creation;
    var started := StartedTask(s.tasks[k], now, a.time, job);
    var s1 :=
      InWork(s, lease, StartTask, k, now, leaseTime, Starting(k, job, ThenComplete), QueuedTask(s.tasks[k], now));
    StartIsMarked(s, lease, k, now, leaseTime, job, ThenComplete, a);
    AskedAfterStart(creation, a);
    Marks(s, lease, StartTask, k, now, leaseTime, CompletingNow(k), started, MarkCompleted(a.text), a.time, a);
    AloneStep(s1, lease, a, n);
    AloneStep(Next(s1, Act(lease, a)), lease, a, n - 1);
    WorkEnds(s, lease, StartTask, k, now, leaseTime, CallingJob(k), MarkCompleted(a.text).Marked(started, a.time),
             creation.AfterStart?, true, a, n - 2);
  }

  /** It goes to repair, with the task in hand. */
  lemma LeftEnds(s: Sys, lease: LeaseId, kind: UpdateState, k: Key, now: int, leaseTime: int, pc: Pc, task: TaskRow,
                 a: Answers, n: nat)
    requires k in s.tasks && s.tasks[k].schedule in s.jobs && n >= 1
    ensures Run(InWork(s, lease, kind, k, now, leaseTime, MarkingRepair, task), Alone(lease, a, n)) ==
      EndsWith(InWork(s, lease, kind, k, now, leaseTime, pc, task), lease, LeftForRepair,
               ExpiredRow(s.jobs[s.tasks[k].schedule], kind, Some(k), lease, now))
  {
    hide Run, Next, Alone;
    MarkEnds(InWork(s, lease, kind, k, now, leaseTime, MarkingRepair, task), lease, kind, Some(k), a, n);
  }

  lemma FailedEnds(s: Sys, lease: LeaseId, k: Key, now: int, leaseTime: int, job: JobId, a: Answers, n: nat)
    requires CanStart(s, lease, k, a) && n >= 3
    ensures
      Run(InWork(s, lease, StartTask, k, now, leaseTime, Starting(k, job, ThenFail), QueuedTask(s.tasks[k], now)),
          Alone(lease, a, n)) ==
      EndsWith(InWork(s, lease, StartTask, k, now, leaseTime, CallingJob(k), StartedTask(s.tasks[k], now, a.time, job)),
               lease, LeftForRepair, ExpiredRow(s.jobs[s.tasks[k].schedule], StartTask, Some(k), lease, now))
  {
    hide Run, Next, Asking, Alone, InWork, QueuedTask, ExpiredRow, EndsWith;
    var started := StartedTask(s.tasks[k], now, a.time, job);
    var s1 :=
      InWork(s, lease, StartTask, k, now, leaseTime, Starting(k, job, ThenFail), QueuedTask(s.tasks[k], now));
    StartIsMarked(s, lease, k, now, leaseTime, job, ThenFail, a);
    Marks(s, lease, StartTask, k, now, leaseTime, FailingNow(k), started,
          MarkFailed(Queued, TaskState.Failed, a.text), a.time, a);
    AloneStep(s1, lease, a, n);
    AloneStep(Next(s1, Act(lease, a)), lease, a, n - 1);
    LeftEnds(s, lease, StartTask, k, now, leaseTime, CallingJob(k), started, a, n - 2);
  }

  lemma StartFailingEnds(s: Sys, lease: LeaseId, k: Key, now: int, leaseTime: int, rejected: bool, a: Answers, n: nat)
    requires CanStart(s, lease, k, a) && n >= 2
    ensures var row := s.jobs[s.tasks[k].schedule];
      var failed := QueuedTask(s.tasks[k], now).(
        state := StartError, executionStarted := Some(a.time), completedInfo := Some(a.text));
      var called := InWork(s, lease, StartTask, k, now, leaseTime, CallingJob(k), failed);
      Run(InWork(s, lease, StartTask, k, now, leaseTime, StartFailing(k, rejected), QueuedTask(s.tasks[k], now)),
          Alone(lease, a, n)) ==
      if rejected then EndsWith(called, lease, LeftForRepair, ExpiredRow(row, StartTask, Some(k), lease, now))
      else EndsWith(called, lease, Unlocked, UnlockedRow(row, false, None))
  {
    hide Run, Next, Alone, InWork, ExpiredRow, EndsWith;
    var queued := QueuedTask(s.tasks[k], now);
    var s1 := InWork(s, lease, StartTask, k, now, leaseTime, StartFailing(k, rejected), queued);
    Marks(s, lease, StartTask, k, now, leaseTime, StartFailing(k, rejected), queued, MarkStartFailed(a.text), a.time,
          a);
    AloneStep(s1, lease, a, n);
    var failed := MarkStartFailed(a.text).Marked(queued, a.time);
    if rejected {
      LeftEnds(s, lease, StartTask, k, now, leaseTime, CallingJob(k), failed, a, n - 1);
    } else {
      UnlockedEnds(s, lease, k, now, leaseTime, failed, a, n - 1);
    }
  }

  lemma UnlockedEnds(s: Sys, lease: LeaseId, k: Key, now: int, leaseTime: int, task: TaskRow, a: Answers, n: nat)
    requires k in s.tasks && s.tasks[k].schedule in s.jobs && n >= 1
    ensures Run(InWork(s, lease, StartTask, k, now, leaseTime, Releasing(false, None), task), Alone(lease, a, n)) ==
      EndsWith(InWork(s, lease, StartTask, k, now, leaseTime, CallingJob(k), task), lease, Unlocked,
               UnlockedRow(s.jobs[s.tasks[k].schedule], false, None))
  {
    hide Run, Next, Alone;
    ReleaseEnds(InWork(s, lease, StartTask, k, now, leaseTime, Releasing(false, None), task), lease, false, None, a, n);
  }

  /** From the call of the job on. */
  lemma CallingEnds(s: Sys, lease: LeaseId, k: Key, now: int, leaseTime: int, a: Answers, n: nat)
    requires CanStart(s, lease, k, a) && n >= 6
    ensures Run(InWork(s, lease, StartTask, k, now, leaseTime, CallingJob(k), QueuedTask(s.tasks[k], now)),
                Alone(lease, a, n)) == AfterCall(s, lease, k, now, leaseTime, a)
  {
    hide Run, Next, Alone, FollowedUp, EndsWith, ExpiredRow, UnlockedRow;
    var called := s.(calls := s.calls + [k]);
    var queued := QueuedTask(s.tasks[k], now);
    var s1 := InWork(s, lease, StartTask, k, now, leaseTime, CallingJob(k), queued);
    CallJobStep(s1, lease, k, a);
    AloneStep(s1, lease, a, n);
    assert Next(s1, Act(lease, a)) ==
      InWork(called, lease, StartTask, k, now, leaseTime, JobAnswered(k, a.job), queued);
    hide InWork;
    match a.job
    case JobRunning(job) => RunningEnds(called, lease, k, now, leaseTime, job, a, n - 1);
    case JobCompleted(job) => CompletedEnds(called, lease, k, now, leaseTime, job, a, n - 1);
    case JobFailed(job) => FailedEnds(called, lease, k, now, leaseTime, job, a, n - 1);
    case JobDidNotStart => StartFailingEnds(called, lease, k, now, leaseTime, false, a, n - 1);
    case JobRejected => StartFailingEnds(called, lease, k, now, leaseTime, true, a, n - 1);
    case JobUnknown => LeftEnds(called, lease, StartTask, k, now, leaseTime, CallingJob(k), queued, a, n - 1);
  }

  /**
   `startTask` of a pending task of an unlocked schedule, alone: the duplicate strategy decides whether the job is
   called, and its answer and that of the creation strategy decide on every row.
   */
  lemma StartOutcome(s: Sys, lease: LeaseId, k: Key, now: int, leaseTime: int, retries: nat, a: Answers)
    requires CanStart(s, lease, k, a)
    ensures Run(s, StartingAlone(lease, k, now, leaseTime, retries, a)) ==
      if Skipped(s, s.tasks[k].schedule, a) then AfterSkip(s, lease, k, now, leaseTime, a)
      else AfterCall(s, lease, k, now, leaseTime, a)
  {
    hide Run, Next, Alone, AfterSkip, AfterCall, SomeTask;
    var queued, job := QueuedTask(s.tasks[k], now), s.tasks[k].schedule;
    var s1 := InWork(s, lease, StartTask, k, now, leaseTime, CheckingStarted(k), queued);
    TaskLeases(s, lease, Start(k), now, leaseTime, retries, a, 10);
    QueueingCalls(s, lease, k, now, leaseTime, a, 8);
    QueuedIsNotStarted(s.tasks, job, k, now);
    CheckedStart(s1, lease, k, a);
    AloneStep(s1, lease, a, 7);
    var pc := if Skipped(s, job, a) then Skipping(k) else CallingJob(k);
    assert Next(s1, Act(lease, a)) == InWork(s, lease, StartTask, k, now, leaseTime, pc, queued);
    if Skipped(s, job, a) {
      SkippingEnds(s, lease, k, now, leaseTime, a, 6);
    } else {
      CallingEnds(s, lease, k, now, leaseTime, a, 6);
    }
  }

  /** The job is called if and only if the duplicate strategy lets it. */
  lemma JobIsCalledIff(s: Sys, lease: LeaseId, k: Key, now: int, leaseTime: int, retries: nat, a: Answers)
    requires CanStart(s, lease, k, a)
    ensures var job, s' := s.tasks[k].schedule, Run(s, StartingAlone(lease, k, now, leaseTime, retries, a));
      var lets := match s.jobs[job].duplicates
        case AlwaysRun => true
        case AlwaysSkip =>
          forall m :: m in s.tasks && s.tasks[m].schedule == job ==> s.tasks[m].state != Started
        case Custom => !a.skip;
      s'.calls == if lets then s.calls + [k] else s.calls
  {
    hide Run, StartingAlone;
    StartOutcome(s, lease, k, now, leaseTime, retries, a);
  }

  // ----- a finished task ------------------------------------------------------------------------------

  function FinishingAlone(lease: LeaseId, k: Key, report: JobReport, now: int, leaseTime: int, retries: nat, a: Answers)
    : seq<Event>
  {
    [BeginTask(lease, Finish(k, report), now, leaseTime, retries)] + Alone(lease, a, 6)
  }

  /** A task of an unlocked schedule. */
  ghost predicate CanFinish(s: Sys, lease: LeaseId, k: Key, a: Answers) {
    && lease !in s.operations && k in s.tasks && k in s.used && a.newKey !in s.used
    && s.tasks[k].schedule in s.jobs && s.jobs[s.tasks[k].schedule].updateState == None
  }

  /** What becomes of the state when a job has reported. */
  ghost function AfterReport(s: Sys, lease: LeaseId, k: Key, report: JobReport, now: int, leaseTime: int, a: Answers)
    : Sys
    requires k in s.tasks && s.tasks[k].schedule in s.jobs
  {
    var row, task := s.jobs[s.tasks[k].schedule], s.tasks[k];
    var asked := row.creation.AfterFinish?;
    if report.Unreadable? || task.state != Started then
      EndsWith(InWork(s, lease, EndTask, k, now, leaseTime, MarkingRepair, task), lease, LeftForRepair,
               ExpiredRow(row, EndTask, Some(k), lease, now))
    else if report.Succeeded? then
      var done := task.(state := Completed, executionFinished := Some(now), completedInfo := Some(a.text));
      FollowedUp(InWork(s, lease, EndTask, k, now, leaseTime, MarkingRepair, done), lease, EndTask, Some(k), asked,
                 false, a)
    else
      var done := task.(state := CompleteError, executionFinished := Some(now), completedInfo := Some(a.text));
      var failed := InWork(s, lease, EndTask, k, now, leaseTime, MarkingRepair, done);
      match a.retry
      case Some(seconds) =>
        EndsWith(WithTask(failed, lease, now + 1000 * seconds, a.newKey), lease, Unlocked,
                 UnlockedRow(row, false, None))
      case None => FollowedUp(failed, lease, EndTask, Some(k), asked, false, a)
  }

  lemma AskedAfterFinish(creation: Creation, now: int, a: Answers)
    ensures FinishUp(creation, true, a) == Asking(creation.AfterFinish?, false, a)
    ensures RetryUp(creation, now, false, a) ==
      match a.retry
      case Some(seconds) => CheckingPending(now + 1000 * seconds, false)
      case None => Asking(creation.AfterFinish?, false, a)
  {
  }

  lemma RetryEnds(s: Sys, lease: LeaseId, k: Key, now: int, leaseTime: int, at: int, task: TaskRow, a: Answers, n: nat)
    requires k in s.tasks && s.tasks[k].schedule in s.jobs && a.newKey !in s.used && n >= 3
    ensures Run(InWork(s, lease, EndTask, k, now, leaseTime, CheckingPending(at, false), task), Alone(lease, a, n)) ==
      EndsWith(WithTask(InWork(s, lease, EndTask, k, now, leaseTime, MarkingRepair, task), lease, at, a.newKey),
               lease, Unlocked, UnlockedRow(s.jobs[s.tasks[k].schedule], false, None))
  {
    hide Run, Next, Alone, SomeTask, PendingRow;
    CheckEnds(InWork(s, lease, EndTask, k, now, leaseTime, CheckingPending(at, false), task), lease, at, a, n);
  }

  lemma SuccessEnds(s: Sys, lease: LeaseId, k: Key, now: int, leaseTime: int, a: Answers, n: nat)
    requires CanFinish(s, lease, k, a) && n >= 4
    ensures Run(InWork(s, lease, EndTask, k, now, leaseTime, FinishCompleting(k), s.tasks[k]), Alone(lease, a, n)) ==
      AfterReport(s, lease, k, Succeeded, now, leaseTime, a)
  {
    hide Run, Next, Alone, FollowedUp, EndsWith, ExpiredRow, UnlockedRow, InWork, Asking, FinishUp, RetryUp;
    var task, creation := s.tasks[k], s.jobs[s.tasks[k].schedule].creation;
    var s1 := InWork(s, lease, EndTask, k, now, leaseTime, FinishCompleting(k), task);
    Marks(s, lease, EndTask, k, now, leaseTime, FinishCompleting(k), task, MarkCompleted(a.text), now, a);
    AskedAfterFinish(creation, now, a);
    AloneStep(s1, lease, a, n);
    if task.state == Started {
      WorkEnds(s, lease, EndTask, k, now, leaseTime, MarkingRepair, MarkCompleted(a.text).Marked(task, now),
               creation.AfterFinish?, false, a, n - 1);
    } else {
      LeftEnds(s, lease, EndTask, k, now, leaseTime, MarkingRepair, task, a, n - 1);
    }
  }

  lemma FailureEnds(s: Sys, lease: LeaseId, k: Key, now: int, leaseTime: int, a: Answers, n: nat)
    requires CanFinish(s, lease, k, a) && n >= 4
    ensures Run(InWork(s, lease, EndTask, k, now, leaseTime, FinishFailing(k), s.tasks[k]), Alone(lease, a, n)) ==
      AfterReport(s, lease, k, Failing, now, leaseTime, a)
  {
    hide Run, Next, Alone, FollowedUp, EndsWith, ExpiredRow, UnlockedRow, InWork, Asking, FinishUp, RetryUp, WithTask;
    var task, creation := s.tasks[k], s.jobs[s.tasks[k].schedule].creation;
    var s1 := InWork(s, lease, EndTask, k, now, leaseTime, FinishFailing(k), task);
    var mark := MarkFailed(Started, CompleteError, a.text);
    Marks(s, lease, EndTask, k, now, leaseTime, FinishFailing(k), task, mark, now, a);
    AskedAfterFinish(creation, now, a);
    AloneStep(s1, lease, a, n);
    if task.state != Started {
      LeftEnds(s, lease, EndTask, k, now, leaseTime, MarkingRepair, task, a, n - 1);
    } else if a.retry.Some? {
      RetryEnds(s, lease, k, now, leaseTime, now + 1000 * a.retry.value, mark.Marked(task, now), a, n - 1);
    } else {
      WorkEnds(s, lease, EndTask, k, now, leaseTime, MarkingRepair, mark.Marked(task, now), creation.AfterFinish?,
               false, a, n - 1);
    }
  }

  /**
   `taskFinished` for a task of an unlocked schedule, alone: the report and the answers of the retry and creation
   strategies decide on every row. A report on a task that is not started changes no task.
   */
  lemma FinishOutcome(s: Sys, lease: LeaseId, k: Key, report: JobReport, now: int, leaseTime: int, retries: nat,
                      a: Answers)
    requires CanFinish(s, lease, k, a)
    ensures Run(s, FinishingAlone(lease, k, report, now, leaseTime, retries, a)) ==
      AfterReport(s, lease, k, report, now, leaseTime, a)
  {
    hide Run, Next, Alone, AfterReport, InWork;
    TaskLeases(s, lease, Finish(k, report), now, leaseTime, retries, a, 6);
    match report
    case Succeeded => SuccessEnds(s, lease, k, now, leaseTime, a, 4);
    case Failing => FailureEnds(s, lease, k, now, leaseTime, a, 4);
    case Unreadable => UnreadableEnds(s, lease, k, now, leaseTime, a, 4);
  }

  lemma UnreadableEnds(s: Sys, lease: LeaseId, k: Key, now: int, leaseTime: int, a: Answers, n: nat)
    requires CanFinish(s, lease, k, a) && n >= 1
    ensures Run(InWork(s, lease, EndTask, k, now, leaseTime, MarkingRepair, s.tasks[k]), Alone(lease, a, n)) ==
      AfterReport(s, lease, k, Unreadable, now, leaseTime, a)
  {
    hide Run, Next, Alone, InWork;
    LeftEnds(s, lease, EndTask, k, now, leaseTime, MarkingRepair, s.tasks[k], a, n);
  }

  /**
   The end of a started task, while none is pending, adds one task if and only if a strategy answers with a date:
   that of the retry, or of a schedule that creates its tasks after a finish.
   */
  lemma FinishAddsIff(s: Sys, lease: LeaseId, k: Key, report: JobReport, now: int, leaseTime: int, retries: nat,
                      a: Answers)
    requires CanFinish(s, lease, k, a) && s.tasks[k].state == Started && !report.Unreadable?
    requires forall m :: m in s.tasks && s.tasks[m].schedule == s.tasks[k].schedule ==> s.tasks[m].state != Pending
    ensures var job, s' := s.tasks[k].schedule, Run(s, FinishingAlone(lease, k, report, now, leaseTime, retries, a));
      var retried := report.Failing? && a.retry.Some?;
      var dated := s.jobs[job].creation.AfterFinish? && a.creation.QueueAt?;
      && s'.tasks.Keys == s.tasks.Keys + (if retried || dated then {a.newKey} else {})
      && (retried || dated ==>
            a.newKey in s'.tasks && s'.tasks[a.newKey] == TaskRow(
              job, Pending, now, if retried then now + 1000 * a.retry.value else a.creation.at,
              None, None, None, None, None))
      && (forall m :: m in s.tasks && m != k && m != a.newKey ==> m in s'.tasks && s'.tasks[m] == s.tasks[m])
  {
    hide Run, FinishingAlone;
    FinishOutcome(s, lease, k, report, now, leaseTime, retries, a);
    var job, asked := s.tasks[k].schedule, s.jobs[s.tasks[k].schedule].creation.AfterFinish?;
    var done := s.tasks[k].(state := if report.Succeeded? then Completed else CompleteError,
                            executionFinished := Some(now), completedInfo := Some(a.text));
    var reported := InWork(s, lease, EndTask, k, now, leaseTime, MarkingRepair, done);
    assert !SomeTask(reported.tasks, job, Pending);
    hide FollowedUp, SomeTask;
    FollowedUpAdds(reported, lease, EndTask, Some(k), asked, false, a);
  }

  /** A skipped start, or one whose job runs or has completed, adds a task exactly if its strategy gives a date. */
  lemma StartAddsIff(s: Sys, lease: LeaseId, k: Key, now: int, leaseTime: int, retries: nat, a: Answers)
    requires CanStart(s, lease, k, a)
    requires forall m :: m in s.tasks && s.tasks[m].schedule == s.tasks[k].schedule && m != k ==>
      s.tasks[m].state != Pending
    ensures var job, s' := s.tasks[k].schedule, Run(s, StartingAlone(lease, k, now, leaseTime, retries, a));
      var goesOn := Skipped(s, job, a) || a.job.JobRunning? || a.job.JobCompleted?;
      var dated := goesOn && s.jobs[job].creation.AfterStart? && a.creation.QueueAt?;
      && s'.tasks.Keys == s.tasks.Keys + (if dated then {a.newKey} else {})
      && (dated ==>
            a.newKey in s'.tasks
            && s'.tasks[a.newKey] == TaskRow(job, Pending, now, a.creation.at, None, None, None, None, None))
      && (forall m :: m in s.tasks && m != k && m != a.newKey ==> m in s'.tasks && s'.tasks[m] == s.tasks[m])
  {
    hide Run, StartingAlone, Skipped, AfterSkip, AfterCall, SkippedTask, CalledTask;
    StartOutcome(s, lease, k, now, leaseTime, retries, a);
    if Skipped(s, s.tasks[k].schedule, a) {
      SkipAdds(s, lease, k, now, leaseTime, a);
    } else {
      CallAdds(s, lease, k, now, leaseTime, a);
    }
  }

  /** The tasks after a follow-up of this task, if its strategy is asked and gives a date. */
  function WithFollowUp(s: Sys, k: Key, task: TaskRow, dated: bool, now: int, a: Answers): map<Key, TaskRow>
    requires k in s.tasks
  {
    var tasks := s.tasks[k := task];
    if dated && a.creation.QueueAt? then
      tasks[a.newKey := TaskRow(s.tasks[k].schedule, Pending, now, a.creation.at, None, None, None, None, None)]
    else tasks
  }

  ghost predicate NoneBeside(s: Sys, k: Key)
    requires k in s.tasks
  {
    forall m :: m in s.tasks && s.tasks[m].schedule == s.tasks[k].schedule && m != k ==> s.tasks[m].state != Pending
  }

  lemma SkipAdds(s: Sys, lease: LeaseId, k: Key, now: int, leaseTime: int, a: Answers)
    requires CanStart(s, lease, k, a) && NoneBeside(s, k)
    ensures AfterSkip(s, lease, k, now, leaseTime, a).tasks == WithFollowUp(
      s, k, SkippedTask(s.tasks[k], now, a), s.jobs[s.tasks[k].schedule].creation.AfterStart?, now, a)
  {
    var skipped := InWork(s, lease, StartTask, k, now, leaseTime, Skipping(k), SkippedTask(s.tasks[k], now, a));
    assert !SomeTask(skipped.tasks, s.tasks[k].schedule, Pending);
    hide FollowedUp, SomeTask;
    FollowedUpAdds(skipped, lease, StartTask, Some(k), s.jobs[s.tasks[k].schedule].creation.AfterStart?, true, a);
  }

  lemma CallAdds(s: Sys, lease: LeaseId, k: Key, now: int, leaseTime: int, a: Answers)
    requires CanStart(s, lease, k, a) && NoneBeside(s, k)
    ensures AfterCall(s, lease, k, now, leaseTime, a).tasks == WithFollowUp(
      s, k, CalledTask(s.tasks[k], now, a),
      s.jobs[s.tasks[k].schedule].creation.AfterStart? && (a.job.JobRunning? || a.job.JobCompleted?), now, a)
  {
    var called := InWork(
      s.(calls := s.calls + [k]), lease, StartTask, k, now, leaseTime, CallingJob(k), CalledTask(s.tasks[k], now, a));
    assert !SomeTask(called.tasks, s.tasks[k].schedule, Pending);
    hide FollowedUp, SomeTask;
    FollowedUpAdds(called, lease, StartTask, Some(k), s.jobs[s.tasks[k].schedule].creation.AfterStart?, true, a);
  }
}
