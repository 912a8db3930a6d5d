/** Runs from the empty store that end badly, event by event. */
module BadRuns {
  import opened Wrappers
  import opened Model
  import opened DbImpl
  import opened Protocol
  import opened Steps
  import opened LeaseSafety
  import opened PendingTasks
  import opened FailedStarts
  import T = TaskSafety
  import G = Guarantees
  import O = Outcomes
  import E = ScheduleOutcomes

  // ----- stages that the runs share -----------------------------------------------------------

  /** What the outside answers; the fields that a call does not ask for do not matter. */
  function Says(job: JobAnswer, newKey: Key): Answers {
    Answers(job, QueueAt(0), false, Some(0), newKey, false, 0, "")
  }

  function Quiet(): Answers {
    Says(JobRunning(0), 0)
  }

  function NewRow(creation: Creation): JobRow {
    JobRow(creation, AlwaysSkip, None, None, None, None, None, false, None)
  }

  /** `createScheduledJob`, alone. */
  function CreateAlone(lease: LeaseId, job: Key, first: Key, creation: Creation): seq<Event> {
    [BeginCreate(lease, job, first, creation, AlwaysSkip, 0, 10)] + Alone(lease, Quiet(), 3)
  }

  /** `startTask`, alone, up to its call of the job. */
  function StartAlone(lease: LeaseId, task: Key): seq<Event> {
    [BeginTask(lease, Start(task), 0, 10, 0)] + Alone(lease, Quiet(), 4)
  }

  /** `repairExpiredSchedule`, alone, of a start. */
  function RepairAlone(lease: LeaseId, job: Key): seq<Event> {
    E.RepairingAlone(lease, job, 100, 10, Quiet())
  }

  /** The state after one more call. */
  function Goes(s: Sys, lease: LeaseId): Sys {
    Next(s, Act(lease, Quiet()))
  }

  lemma RunCalls(s: Sys, lease: LeaseId, n: nat)
    ensures n > 0 ==> Run(s, Alone(lease, Quiet(), n)) == Run(Goes(s, lease), Alone(lease, Quiet(), n - 1))
    ensures n == 0 ==> Run(s, Alone(lease, Quiet(), n)) == s
  {
    hide Next;
    if n > 0 {
      RunFirst(s, Act(lease, Quiet()), Alone(lease, Quiet(), n - 1));
    }
  }

  lemma TwoCalls(s: Sys, lease: LeaseId)
    ensures Run(s, Alone(lease, Quiet(), 2)) == Goes(Goes(s, lease), lease)
  {
    hide Next, Run, Goes;
    RunCalls(s, lease, 2);
    RunCalls(Goes(s, lease), lease, 1);
    RunCalls(Goes(Goes(s, lease), lease), lease, 0);
  }

  lemma ThreeCalls(s: Sys, lease: LeaseId)
    ensures Run(s, Alone(lease, Quiet(), 3)) == Goes(Goes(Goes(s, lease), lease), lease)
  {
    hide Next, Run, Goes;
    RunCalls(s, lease, 3);
    TwoCalls(Goes(s, lease), lease);
  }

  lemma FourCalls(s: Sys, lease: LeaseId)
    ensures Run(s, Alone(lease, Quiet(), 4)) == Goes(Goes(Goes(Goes(s, lease), lease), lease), lease)
  {
    hide Next, Run, Goes;
    RunCalls(s, lease, 4);
    ThreeCalls(Goes(s, lease), lease);
  }

  lemma Creates(lease: LeaseId, job: Key, first: Key, creation: Creation)
    requires job != first
    ensures Run(Init(), CreateAlone(lease, job, first, creation)) ==
      Sys(map[job := NewRow(creation)], map[first := NewTask(job, 0, 0)],
          map[lease := Operation(job, 0, 10, Ended(Unlocked))], {job, first}, [])
  {
    hide Run, Next, NewTask;
    var e := BeginCreate(lease, job, first, creation, AlwaysSkip, 0, 10);
    var s1 := Next(Init(), e);
    var s2 := Goes(s1, lease);
    var s3 := Goes(s2, lease);
    CreateBegins(lease, job, first, creation);
    CreateAdds(s1, lease, job, first, creation);
    FirstTaskAdds(s2, lease, job, first);
    ReleaseStep(s3, lease, false, None, Quiet());
    RunFirst(Init(), e, Alone(lease, Quiet(), 3));
    ThreeCalls(s1, lease);
  }

  lemma CreateBegins(lease: LeaseId, job: Key, first: Key, creation: Creation)
    requires job != first
    ensures Next(Init(), BeginCreate(lease, job, first, creation, AlwaysSkip, 0, 10)) ==
      Sys(map[], map[], map[lease := Operation(job, 0, 10, CreatingJob(first, creation, AlwaysSkip))], {job, first}, [])
  {
  }

  lemma CreateAdds(s: Sys, lease: LeaseId, job: Key, first: Key, creation: Creation)
    requires lease in s.operations && job !in s.jobs
    requires s.operations[lease] == Operation(job, 0, 10, CreatingJob(first, creation, AlwaysSkip))
    ensures Next(s, Act(lease, Quiet())) == Moved(s, lease, AddingFirstTask(first)).(
      jobs := s.jobs[job := NewJob(creation, AlwaysSkip, first, lease, 10)])
  {
    hide WorkCall, ScheduleCall, RepairCall, NewJob;
  }

  lemma FirstTaskAdds(s: Sys, lease: LeaseId, job: Key, first: Key)
    requires At(s, lease, AddingFirstTask(first)) && first !in s.tasks && first in s.used
    requires s.operations[lease] == Operation(job, 0, 10, AddingFirstTask(first))
    ensures Next(s, Act(lease, Quiet())) == Moved(s, lease, Releasing(false, None)).(
      tasks := s.tasks[first := NewTask(job, 0, 0)])
  {
    hide ScheduleCall, RepairCall, NewTask;
    assert s.used + {first} == s.used;
  }

  /** A pending task of an unlocked schedule, while none is started. */
  ghost predicate CanStart(s: Sys, lease: LeaseId, k: Key) {
    && lease !in s.operations && k in s.tasks && k in s.used && s.tasks[k].state == Pending
    && s.tasks[k].schedule in s.jobs && s.jobs[s.tasks[k].schedule].updateState == None
    && s.jobs[s.tasks[k].schedule].duplicates == AlwaysSkip
    && !HasTaskIn(s.tasks, s.tasks[k].schedule, Started)
  }

  function Calling(s: Sys, lease: LeaseId, k: Key): Sys
    requires k in s.tasks && s.tasks[k].schedule in s.jobs
  {
    var job := s.tasks[k].schedule;
    s.(jobs := s.jobs[job := Leased(s.jobs[job], StartTask, Some(k), lease, 10)],
       tasks := s.tasks[k := MarkQueued.Marked(s.tasks[k], 0)],
       operations := s.operations[lease := Operation(job, 0, 10, CallingJob(k))])
  }

  lemma Starts(s: Sys, lease: LeaseId, k: Key)
    requires CanStart(s, lease, k)
    ensures Run(s, StartAlone(lease, k)) == Calling(s, lease, k)
  {
    hide Run, Next, HasTaskIn, Leased, Mark.Marked, Goes;
    var job := s.tasks[k].schedule;
    var e := BeginTask(lease, Start(k), 0, 10, 0);
    var s3 := Goes(Goes(Next(s, e), lease), lease);
    StartLeases(s, lease, k);
    LeasedKeeps(s.jobs[job], StartTask, Some(k), lease, 10);
    QueuedNotStarted(s.tasks, job, k);
    StartCalls(s3, lease, k);
    RunFirst(s, e, Alone(lease, Quiet(), 4));
    FourCalls(Next(s, e), lease);
  }

  lemma StartLeases(s: Sys, lease: LeaseId, k: Key)
    requires CanStart(s, lease, k)
    ensures var job := s.tasks[k].schedule;
      Goes(Goes(Next(s, BeginTask(lease, Start(k), 0, 10, 0)), lease), lease) == s.(
        jobs := s.jobs[job := Leased(s.jobs[job], StartTask, Some(k), lease, 10)],
        operations := s.operations[lease := Operation(job, 0, 10, Queueing(k))])
  {
    hide Next, HasTaskIn, Leased;
    var work := Start(k);
    var s1 := Next(s, BeginTask(lease, work, 0, 10, 0));
    O.TaskBegins(s, lease, work, 0, 10, 0);
    LeaseStep(s1, lease, work, 0, Quiet());
    ReadStep(Goes(s1, lease), lease, work, Quiet());
  }

  lemma StartCalls(s: Sys, lease: LeaseId, k: Key)
    requires At(s, lease, Queueing(k)) && k in s.tasks && k in s.used && s.tasks[k].state == Pending
    requires s.operations[lease].now == 0 && !s.jobs[s.operations[lease].job].duplicates.Custom?
    requires !HasTaskIn(s.tasks[k := MarkQueued.Marked(s.tasks[k], 0)], s.operations[lease].job, Started)
    ensures Goes(Goes(s, lease), lease) ==
      Moved(s, lease, CallingJob(k)).(tasks := s.tasks[k := MarkQueued.Marked(s.tasks[k], 0)])
  {
    hide Next, HasTaskIn, Mark.Marked;
    MarkStep(s, lease, Quiet());
    CheckStartedStep(Goes(s, lease), lease, k, Quiet());
  }

  lemma LeasedKeeps(row: JobRow, op: UpdateState, task: Option<Key>, lease: LeaseId, expires: int)
    ensures var leased := Leased(row, op, task, lease, expires);
      && leased.duplicates == row.duplicates && leased.creation == row.creation && leased.pasture == row.pasture
      && OwnedBy(leased, lease)
  {
  }

  lemma QueuedNotStarted(tasks: map<Key, TaskRow>, job: Key, k: Key)
    requires k in tasks && !HasTaskIn(tasks, job, Started)
    ensures !HasTaskIn(tasks[k := MarkQueued.Marked(tasks[k], 0)], job, Started)
  {
    forall p | p in tasks && p != k ensures !(tasks[p].schedule == job && tasks[p].state == Started) {
    }
  }

  lemma Repairs(s: Sys, lease: LeaseId, job: Key)
    requires lease !in s.operations && job in s.jobs
    requires s.jobs[job].updateState == Some(StartTask) && s.jobs[job].leaseExpires == Some(10)
    requires s.jobs[job].repairState == None
    ensures Run(s, RepairAlone(lease, job)) == s.(
      jobs := s.jobs[job := Released(s.jobs[job], true, Some(""))],
      operations := s.operations[lease := Operation(job, 100, 10, Ended(Unlocked))])
  {
    hide Run, Next, E.RepairingAlone;
    E.RepairEnds(s, lease, job, 100, 10, Quiet());
    O.ReleasedRow(s.jobs[job], true, Some(""));
  }

  // ----- schedules that run dry ------------------------------------------------------------------

  /** A schedule whose first task is about to be run. */
  function FirstRun(creation: Creation): seq<Event> {
    CreateAlone(1, 1, 2, creation) + StartAlone(2, 2)
  }

  function FirstRunning(creation: Creation): Sys {
    Sys(map[1 := Leased(NewRow(creation), StartTask, Some(2), 2, 10)],
        map[2 := MarkQueued.Marked(NewTask(1, 0, 0), 0)],
        map[1 := Operation(1, 0, 10, Ended(Unlocked)), 2 := Operation(1, 0, 10, CallingJob(2))], {1, 2}, [])
  }

  lemma FirstRuns(creation: Creation)
    ensures Run(Init(), FirstRun(creation)) == FirstRunning(creation)
  {
    hide Run, Next, Leased, Mark.Marked, CreateAlone, StartAlone;
    Creates(1, 1, 2, creation);
    Starts(Run(Init(), CreateAlone(1, 1, 2, creation)), 2, 2);
    RunAppend(Init(), CreateAlone(1, 1, 2, creation), StartAlone(2, 2));
  }

  /**
   Without any crash, and within the lease: a schedule is created, and its job does not start. The
   schedule ends unlocked, not put out to pasture, and dry.
   */
  lemma NotStartedEndsDry()
    ensures var s := Run(Init(), FirstRun(AfterStart) + [Act(2, Says(JobDidNotStart, 0))] + Alone(2, Quiet(), 2));
      Dry(s, 1) && s.jobs[1].updateState == None && !s.jobs[1].pasture
  {
    hide Run, Next, FirstRun, Dry;
    var s, e := FirstRunning(AfterStart), Act(2, Says(JobDidNotStart, 0));
    FirstRuns(AfterStart);
    RunAppend(Init(), FirstRun(AfterStart), [e]);
    RunAppend(Init(), FirstRun(AfterStart) + [e], Alone(2, Quiet(), 2));
    RunOne(s, e);
    CallJobStep(s, 2, 2, Says(JobDidNotStart, 0));
    SoundFromInit(FirstRun(AfterStart) + [e]);
    NotStartedRunsDry(Next(s, e), 2, Quiet(), Quiet());
    TwoCalls(Next(s, e), 2);
  }

  lemma SoundFromInit(events: seq<Event>)
    ensures Sound(Run(Init(), events))
  {
    hide Run, Sound;
    G.InitSound(0);
    G.SoundRun(Init(), events);
  }

  lemma CompletesAtOnce()
    ensures Goes(Next(FirstRunning(AfterFinish), Act(2, Says(JobCompleted(0), 0))), 2) ==
      Sys(map[1 := Leased(NewRow(AfterFinish), StartTask, Some(2), 2, 10)],
          map[2 := MarkStarted(0).Marked(MarkQueued.Marked(NewTask(1, 0, 0), 0), 0)],
          map[1 := Operation(1, 0, 10, Ended(Unlocked)), 2 := Operation(1, 0, 10, CompletingNow(2))],
          {1, 2}, [2])
  {
    hide Next, Leased;
    var s, a := FirstRunning(AfterFinish), Says(JobCompleted(0), 0);
    LeasedKeeps(NewRow(AfterFinish), StartTask, Some(2), 2, 10);
    CallJobStep(s, 2, 2, a);
    MarkStep(Next(s, Act(2, a)), 2, Quiet());
  }

  /** So does a schedule that creates its tasks after a finish, when its job completes within its start. */
  lemma CompletedAtOnceEndsDry()
    ensures var s := Run(Init(), FirstRun(AfterFinish) + [Act(2, Says(JobCompleted(0), 0))] + Alone(2, Quiet(), 3));
      Dry(s, 1) && s.jobs[1].updateState == None && !s.jobs[1].pasture
  {
    hide Run, Next, FirstRun, Dry, Sound, Leased, FirstRunning;
    var s, e := FirstRunning(AfterFinish), Act(2, Says(JobCompleted(0), 0));
    FirstRuns(AfterFinish);
    RunAppend(Init(), FirstRun(AfterFinish), [e]);
    RunAppend(Init(), FirstRun(AfterFinish) + [e], Alone(2, Quiet(), 3));
    RunOne(s, e);
    SoundFromInit(FirstRun(AfterFinish) + [e]);
    SoundStep(Next(s, e), Act(2, Quiet()));
    CompletesAtOnce();
    LeasedKeeps(NewRow(AfterFinish), StartTask, Some(2), 2, 10);
    CompletedAtOnceRunsDry(Goes(Next(s, e), 2), 2, Quiet(), Quiet());
    ThreeCalls(Next(s, e), 2);
  }

  // ----- late writes -----------------------------------------------------------------------------

  /** `taskFinished` for a job that failed, alone, with a retry at once. */
  function Retry(lease: LeaseId, k: Key, newKey: Key): seq<Event> {
    O.FinishingAlone(lease, k, Failing, 0, 10, 0, Says(JobRunning(0), newKey))
  }

  function Retried(s: Sys, lease: LeaseId, k: Key, newKey: Key): Sys
    requires k in s.tasks && s.tasks[k].schedule in s.jobs
  {
    var job := s.tasks[k].schedule;
    s.(jobs := s.jobs[job := Released(s.jobs[job], false, None)],
       tasks := s.tasks[k := Failure(s.tasks[k])][newKey := NewTask(job, 0, 0)],
       operations := s.operations[lease := Operation(job, 0, 10, Ended(Unlocked))],
       used := s.used + {newKey})
  }

  function Failure(row: TaskRow): TaskRow {
    MarkFailed(Started, CompleteError, "").Marked(row, 0)
  }

  /** A started task of an unlocked schedule, while none is pending. */
  ghost predicate CanRetry(s: Sys, lease: LeaseId, k: Key) {
    && lease !in s.operations && k in s.tasks && k in s.used && s.tasks[k].state == Started
    && s.tasks[k].schedule in s.jobs && s.jobs[s.tasks[k].schedule].updateState == None
    && !HasTaskIn(s.tasks, s.tasks[k].schedule, Pending)
  }

  lemma Retries(s: Sys, lease: LeaseId, k: Key, newKey: Key)
    requires CanRetry(s, lease, k) && newKey !in s.used
    ensures Run(s, Retry(lease, k, newKey)) == Retried(s, lease, k, newKey)
  {
    hide Run, Next, O.FinishingAlone, NewTask, Released;
    var failed := s.tasks[k := Failure(s.tasks[k])];
    assert !O.SomeTask(failed, s.tasks[k].schedule, Pending);
    O.FinishOutcome(s, lease, k, Failing, 0, 10, 0, Says(JobRunning(0), newKey));
    O.ReleasedRow(s.jobs[s.tasks[k].schedule], false, None);
    O.NewTaskRow(s.tasks[k].schedule, 0, 0);
  }

  lemma OneCall(s: Sys, lease: LeaseId)
    ensures Run(s, Alone(lease, Quiet(), 1)) == Goes(s, lease)
  {
    hide Next, Run, Goes;
    RunCalls(s, lease, 1);
    RunCalls(Goes(s, lease), lease, 0);
  }

  /**
   A start that outlives its lease: it has seen that no task is pending. The schedule is repaired,
   and the task's report, with its retry, follows up first.
   */
  function LateInsert(): seq<Event> {
    FirstRun(AfterStart) + Alone(2, Quiet(), 3) + RepairAlone(3, 1) + Retry(4, 2, 3) + [Act(2, Says(JobRunning(0), 4))]
  }

  function Over(): Operation {
    Operation(1, 0, 10, Ended(Unlocked))
  }

  function Repairer(): Operation {
    Operation(1, 100, 10, Ended(Unlocked))
  }

  function FirstStarted(): TaskRow {
    MarkStarted(0).Marked(MarkQueued.Marked(NewTask(1, 0, 0), 0), 0)
  }

  function AboutToInsert(): Sys {
    Sys(map[1 := Leased(NewRow(AfterStart), StartTask, Some(2), 2, 10)], map[2 := FirstStarted()],
        map[1 := Over(), 2 := Operation(1, 0, 10, AddingTask(0, false))], {1, 2}, [2])
  }

  function InsertedLate(): Sys {
    Sys(map[1 := NewRow(AfterStart)],
        map[2 := Failure(FirstStarted()), 3 := NewTask(1, 0, 0), 4 := NewTask(1, 0, 0)],
        map[1 := Over(), 2 := Operation(1, 0, 10, Releasing(false, None)), 3 := Repairer(), 4 := Over()],
        {1, 2, 3, 4}, [2])
  }

  lemma ReachesInsert()
    ensures Run(FirstRunning(AfterStart), Alone(2, Quiet(), 3)) == AboutToInsert()
  {
    hide Next, Run, Leased, NewTask;
    var s := FirstRunning(AfterStart);
    LeasedKeeps(NewRow(AfterStart), StartTask, Some(2), 2, 10);
    CallJobStep(s, 2, 2, Quiet());
    MarkStep(Goes(s, 2), 2, Quiet());
    CheckPendingStep(Goes(Goes(s, 2), 2), 2, 0, Quiet());
    ThreeCalls(s, 2);
  }

  lemma InsertsLate()
    ensures Run(Init(), LateInsert()) == InsertedLate()
  {
    hide Next, Run, FirstRun, RepairAlone, Retry, Alone, Goes;
    var a, b, c := FirstRun(AfterStart), Alone(2, Quiet(), 3), RepairAlone(3, 1);
    FirstRuns(AfterStart);
    ReachesInsert();
    RunAppend(Init(), a, b);
    RunAppend(Init(), a + b, c);
    RepairsFirst();
    RunAppend(Init(), a + b + c, Retry(4, 2, 3));
    InsertedFirst();
    RunAppend(Init(), a + b + c + Retry(4, 2, 3), [Act(2, Says(JobRunning(0), 4))]);
    RunOne(Run(Init(), a + b + c + Retry(4, 2, 3)), Act(2, Says(JobRunning(0), 4)));
  }

  function AfterRepair(): Sys {
    AboutToInsert().(
      jobs := map[1 := Released(Leased(NewRow(AfterStart), StartTask, Some(2), 2, 10), true, Some(""))],
      operations := AboutToInsert().operations[3 := Repairer()])
  }

  lemma RepairsFirst()
    ensures Run(AboutToInsert(), RepairAlone(3, 1)) == AfterRepair()
  {
    hide Run, Released, RepairAlone;
    Repairs(AboutToInsert(), 3, 1);
  }

  lemma InsertedFirst()
    ensures Next(Run(AfterRepair(), Retry(4, 2, 3)), Act(2, Says(JobRunning(0), 4))) == InsertedLate()
  {
    hide Next, Run, Retry;
    Retries(AfterRepair(), 4, 2, 3);
    AddTaskStep(Retried(AfterRepair(), 4, 2, 3), 2, 0, Says(JobRunning(0), 4));
  }

  /** From the empty store: a schedule with two pending tasks. */
  lemma TwoPendingTasks()
    ensures !AtMostOne(Run(Init(), LateInsert()), 1, Pending)
  {
    hide Run, LateInsert;
    InsertsLate();
    var s := InsertedLate();
    assert 3 in s.tasks && 4 in s.tasks && s.tasks[3].schedule == s.tasks[4].schedule;
  }

  /**
   It goes on: a start outlives its lease while its job is being called. The schedule is repaired, and
   its other pending task is started first.
   */
  function LateStart(): seq<Event> {
    LateInsert() + (StartAlone(5, 3) + Alone(5, Quiet(), 1)) + RepairAlone(6, 1)
    + (StartAlone(7, 4) + Alone(7, Quiet(), 2)) + Alone(5, Quiet(), 1)
  }

  /** From the empty store: a schedule that always skips duplicates, with two started tasks. */
  lemma TwoStartedTasks()
    ensures var s := Run(Init(), LateStart());
      1 in s.jobs && s.jobs[1].duplicates == AlwaysSkip && !AtMostOne(s, 1, Started)
  {
    hide Run, Next, LateInsert, StartAlone, Alone, RepairAlone;
    var a, b, c := LateInsert(), StartAlone(5, 3) + Alone(5, Quiet(), 1), RepairAlone(6, 1);
    var d := StartAlone(7, 4) + Alone(7, Quiet(), 2);
    InsertsLate();
    RunAppend(Init(), a, b);
    RunAppend(Init(), a + b, c);
    RunAppend(Init(), a + b + c, d);
    RunAppend(Init(), a + b + c + d, Alone(5, Quiet(), 1));
    StartsThird();
    Repairs(ThirdStarting(), 6, 1);
    StartsFourth();
    StartsBoth();
  }

  function Queued3(): TaskRow {
    MarkQueued.Marked(NewTask(1, 0, 0), 0)
  }

  function ThirdStarting(): Sys {
    Sys(map[1 := Leased(NewRow(AfterStart), StartTask, Some(3), 5, 10)],
        InsertedLate().tasks[3 := Queued3()],
        InsertedLate().operations[5 := Operation(1, 0, 10, Starting(3, 0, Nothing))],
        {1, 2, 3, 4}, [2, 3])
  }

  lemma StartsThird()
    ensures Run(InsertedLate(), StartAlone(5, 3) + Alone(5, Quiet(), 1)) == ThirdStarting()
  {
    hide Next, Run, Leased, NewTask, StartAlone, Alone;
    NewTaskIs();
    Starts(InsertedLate(), 5, 3);
    RunAppend(InsertedLate(), StartAlone(5, 3), Alone(5, Quiet(), 1));
    CallJobStep(Calling(InsertedLate(), 5, 3), 5, 3, Quiet());
    OneCall(Calling(InsertedLate(), 5, 3), 5);
  }

  lemma NewTaskIs()
    ensures var row := NewTask(1, 0, 0); row.schedule == 1 && row.state == Pending
  {
  }

  /** The third task is still queued, and the fourth is started. */
  function FourthStarted(): Sys {
    var s := ThirdRepaired();
    s.(jobs := map[1 := Leased(s.jobs[1], StartTask, Some(4), 7, 10)],
       tasks := s.tasks[4 := FirstStarted()],
       operations := s.operations[7 := Operation(1, 0, 10, CheckingPending(0, false))],
       calls := [2, 3, 4])
  }

  function ThirdRepaired(): Sys {
    var s := ThirdStarting();
    s.(jobs := s.jobs[1 := Released(s.jobs[1], true, Some(""))], operations := s.operations[6 := Repairer()])
  }

  lemma StartsFourth()
    ensures Run(ThirdRepaired(), StartAlone(7, 4) + Alone(7, Quiet(), 2)) == FourthStarted()
  {
    hide Next, Run, Goes, Calling, FourthStarted, ThirdRepaired, StartAlone, Alone;
    FourthCanStart();
    var t := Calling(ThirdRepaired(), 7, 4);
    Starts(ThirdRepaired(), 7, 4);
    RunAppend(ThirdRepaired(), StartAlone(7, 4), Alone(7, Quiet(), 2));
    TwoCalls(t, 7);
    FourthIsMarked();
  }

  lemma FourthCanStart()
    ensures CanStart(ThirdRepaired(), 7, 4)
  {
    hide Leased, NewTask, HasTaskIn;
    NewTaskIs();
    NoneStarted();
  }

  lemma FourthIsMarked()
    requires CanStart(ThirdRepaired(), 7, 4)
    ensures Goes(Goes(Calling(ThirdRepaired(), 7, 4), 7), 7) == FourthStarted()
  {
    hide Next, Leased, NewTask, HasTaskIn;
    NewTaskIs();
    NoneStarted();
    var s := ThirdRepaired();
    var t := Calling(s, 7, 4);
    CallJobStep(t, 7, 4, Quiet());
    LeasedKeeps(s.jobs[1], StartTask, Some(4), 7, 10);
    MarkStep(Goes(t, 7), 7, Quiet());
  }

  lemma NoneStarted()
    ensures !HasTaskIn(ThirdRepaired().tasks, 1, Started)
    ensures var s := ThirdRepaired(); s.jobs[1].updateState == None && s.jobs[1].duplicates == AlwaysSkip
    ensures ThirdRepaired().jobs[1].creation == AfterStart
  {
  }

  lemma StartsBoth()
    ensures var s := Run(FourthStarted(), Alone(5, Quiet(), 1));
      1 in s.jobs && s.jobs[1].duplicates == AlwaysSkip && !AtMostOne(s, 1, Started)
  {
    hide Next, Run, Alone;
    var s := FourthStarted();
    OneCall(s, 5);
    MarkStep(s, 5, Quiet());
    assert Goes(s, 5).tasks[3].schedule == 1 && Goes(s, 5).tasks[4].schedule == 1;
  }
}
