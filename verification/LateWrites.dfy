/**
 Writes of an operation whose check came earlier: exactly when the check does not protect them.

 Between the check and the write any events may happen, also ones that take the operation's lease.
 */
module LateWrites {
  import opened Wrappers
  import opened Model
  import opened DbImpl
  import opened Protocol
  import opened LeaseSafety
  import opened PendingTasks
  import T = TaskSafety

  // ----- what happened to a schedule in a run ---------------------------------------------------

  predicate IsIn(s: Sys, k: Key, job: Key, state: TaskState) {
    k in s.tasks && s.tasks[k].schedule == job && s.tasks[k].state == state
  }

  /** The tasks that one event adds to the schedule. */
  function AddedBy(s: Sys, e: Event, job: Key): set<Key> {
    set k | k in Next(s, e).tasks && k !in s.tasks && Next(s, e).tasks[k].schedule == job
  }

  /** The tasks that a run adds to the schedule. */
  function AddedIn(s: Sys, events: seq<Event>, job: Key): set<Key>
    decreases |events|
  {
    if events == [] then {} else AddedBy(s, events[0], job) + AddedIn(Next(s, events[0]), events[1..], job)
  }

  /** The tasks of the schedule that one event marks as started. */
  function StartedBy(s: Sys, e: Event, job: Key): set<Key> {
    set k | k in Next(s, e).tasks && IsIn(Next(s, e), k, job, Started) && !IsIn(s, k, job, Started)
  }

  function StartedIn(s: Sys, events: seq<Event>, job: Key): set<Key>
    decreases |events|
  {
    if events == [] then {} else StartedBy(s, events[0], job) + StartedIn(Next(s, events[0]), events[1..], job)
  }

  lemma {:induction false} StaysSound(s: Sys, events: seq<Event>)
    requires Sound(s)
    ensures Sound(Run(s, events))
    decreases |events|
  {
    hide Sound, Next;
    if events != [] {
      SoundStep(s, events[0]);
      StaysSound(Next(s, events[0]), events[1..]);
    }
  }

  /** A task is pending only since it was added: nothing goes back to pending. */
  lemma {:induction false} PendingWasAdded(s: Sys, events: seq<Event>, job: Key, k: Key)
    requires T.TaskInv(s) && IsIn(Run(s, events), k, job, Pending)
    ensures k in AddedIn(s, events, job) || IsIn(s, k, job, Pending)
    decreases |events|
  {
    if events != [] {
      hide Next, T.TaskInv;
      T.TaskInvStep(s, events[0]);
      PendingWasAdded(Next(s, events[0]), events[1..], job, k);
      if IsIn(Next(s, events[0]), k, job, Pending) {
        PendingBefore(s, events[0], job, k);
      }
    }
  }

  lemma PendingBefore(s: Sys, e: Event, job: Key, k: Key)
    requires T.TaskInv(s) && IsIn(Next(s, e), k, job, Pending)
    ensures k in AddedBy(s, e, job) || IsIn(s, k, job, Pending)
  {
    hide Next, T.Dated;
    if k in s.tasks {
      T.ForwardStep(s, e, k);
    }
  }

  lemma {:induction false} StartedWasMarked(s: Sys, events: seq<Event>, job: Key, k: Key)
    requires IsIn(Run(s, events), k, job, Started)
    ensures k in StartedIn(s, events, job) || IsIn(s, k, job, Started)
    decreases |events|
  {
    hide Next;
    if events != [] {
      StartedWasMarked(Next(s, events[0]), events[1..], job, k);
    }
  }

  /** The operation is on this stored schedule. */
  predicate IsOn(s: Sys, lease: LeaseId, job: Key) {
    lease in s.operations && s.operations[lease].job == job && job in s.jobs
  }

  lemma {:induction false} StaysOn(s: Sys, events: seq<Event>, lease: LeaseId, job: Key)
    requires IsOn(s, lease, job)
    ensures IsOn(Run(s, events), lease, job)
    decreases |events|
  {
    if events != [] {
      StaysOnStep(s, events[0], lease, job);
      StaysOn(Next(s, events[0]), events[1..], lease, job);
    }
  }

  lemma StaysOnStep(s: Sys, e: Event, lease: LeaseId, job: Key)
    requires IsOn(s, lease, job)
    ensures IsOn(Next(s, e), lease, job)
  {
    hide Call, Faulted, KeyIsFresh;
  }

  lemma FoundNone(s: Sys, lease: LeaseId, a: Answers)
    requires lease in s.operations && s.operations[lease].pc.CheckingPending? && s.operations[lease].job in s.jobs
    requires Next(s, Act(lease, a)).operations[lease].pc.AddingTask?
    ensures !HasTaskIn(s.tasks, s.operations[lease].job, Pending) && Next(s, Act(lease, a)).tasks == s.tasks
  {
    hide HasTaskIn, ScheduleCall, RepairCall;
  }

  lemma FoundNoneStarted(s: Sys, lease: LeaseId, a: Answers)
    requires lease in s.operations && s.operations[lease].pc.CheckingStarted? && s.operations[lease].job in s.jobs
    requires s.jobs[s.operations[lease].job].duplicates.AlwaysSkip?
    requires Next(s, Act(lease, a)).operations[lease].pc.CallingJob?
    ensures !HasTaskIn(s.tasks, s.operations[lease].job, Started) && Next(s, Act(lease, a)).tasks == s.tasks
  {
    hide HasTaskIn, ScheduleCall, RepairCall;
  }

  // ----- the two late writes ----------------------------------------------------------------------

  /**
   An operation finds that no task of the schedule is pending, any events follow, and it inserts its
   task. Then more than one task is pending if and only if one that was added to the schedule in
   between still is.
   */
  lemma LateInsertIff(s: Sys, lease: LeaseId, a: Answers, events: seq<Event>, b: Answers)
    requires Sound(s) && lease in s.operations && s.operations[lease].pc.CheckingPending?
    requires s.operations[lease].job in s.jobs && KeyIsFresh(s, s.operations[lease], a)
    requires var s1 := Next(s, Act(lease, a)); var s2 := Run(s1, events);
      && s1.operations[lease].pc.AddingTask?
      && lease in s2.operations && s2.operations[lease].pc.AddingTask? && KeyIsFresh(s2, s2.operations[lease], b)
    ensures var job, s1 := s.operations[lease].job, Next(s, Act(lease, a));
      var s2 := Run(s1, events);
      AtMostOne(Next(s2, Act(lease, b)), job, Pending) <==>
        forall k :: k in AddedIn(s1, events, job) ==> !IsIn(s2, k, job, Pending)
  {
    hide Run, LeaseInv, T.TaskInv, OwnTasks, AtMostOne, Next, Call;
    var job, s1 := s.operations[lease].job, Next(s, Act(lease, a));
    var s2 := Run(s1, events);
    FoundNone(s, lease, a);
    SoundStep(s, Act(lease, a));
    StaysSound(s1, events);
    StaysOnStep(s, Act(lease, a), lease, job);
    StaysOn(s1, events, lease, job);
    InsertIff(s2, lease, b);
    if HasTaskIn(s2.tasks, job, Pending) {
      var k :| k in s2.tasks && s2.tasks[k].schedule == job && s2.tasks[k].state == Pending;
      PendingWasAdded(s1, events, job, k);
    }
  }

  /**
   On an always-skip schedule, a start finds that no task of the schedule is started, any events
   follow, its job's call among them, and it marks its queued task as started. Then more than one task
   is started if and only if one that was marked as started in between still is.
   */
  lemma LateStartIff(s: Sys, lease: LeaseId, a: Answers, events: seq<Event>, b: Answers)
    requires Sound(s) && lease in s.operations && s.operations[lease].pc.CheckingStarted?
    requires s.operations[lease].job in s.jobs && s.jobs[s.operations[lease].job].duplicates.AlwaysSkip?
    requires var s1 := Next(s, Act(lease, a)); var s2 := Run(s1, events);
      && s1.operations[lease].pc.CallingJob?
      && lease in s2.operations && s2.operations[lease].pc.Starting?
      && var k := s2.operations[lease].pc.task; k in s2.tasks && s2.tasks[k].state == Queued
    ensures var job, s1 := s.operations[lease].job, Next(s, Act(lease, a));
      var s2 := Run(s1, events);
      AtMostOne(Next(s2, Act(lease, b)), job, Started) <==>
        forall k :: k in StartedIn(s1, events, job) ==> !IsIn(s2, k, job, Started)
  {
    hide Run, LeaseInv, T.TaskInv, OwnTasks, AtMostOne, Next, Call, KeyIsFresh;
    var job, s1 := s.operations[lease].job, Next(s, Act(lease, a));
    var s2 := Run(s1, events);
    FoundNoneStarted(s, lease, a);
    SoundStep(s, Act(lease, a));
    StaysSound(s1, events);
    StaysOnStep(s, Act(lease, a), lease, job);
    StaysOn(s1, events, lease, job);
    OwnTask(s2, lease);
    StartIff(s2, lease, b);
    if HasTaskIn(s2.tasks, job, Started) {
      var k :| k in s2.tasks && s2.tasks[k].schedule == job && s2.tasks[k].state == Started;
      StartedWasMarked(s1, events, job, k);
    }
  }

  lemma OwnTask(s: Sys, lease: LeaseId)
    requires Sound(s) && lease in s.operations && s.operations[lease].pc.Starting?
    ensures var k := s.operations[lease].pc.task; k in s.tasks ==> s.tasks[k].schedule == s.operations[lease].job
  {
    hide LeaseInv, T.TaskInv;
  }
}
