/**
 Lost replies: a call that took effect and still failed for its caller. Its operation goes on as
 after a fault, and its write stays.
 */
module LostReplies {
  import opened Wrappers
  import opened Model
  import opened DbImpl
  import opened Protocol
  import opened LeaseSafety
  import opened PendingTasks
  import T = TaskSafety

  datatype Happening = Plain(event: Event) | Lost(lease: LeaseId, answers: Answers)

  function Forgets(s: Sys, lease: LeaseId, pc: Pc): Sys
    requires lease in s.operations
  {
    s.(operations := s.operations[lease := s.operations[lease].(pc := Faulted(pc))])
  }

  function Happens(s: Sys, h: Happening): Sys {
    match h
    case Plain(e) => Next(s, e)
    case Lost(lease, answers) =>
      if lease !in s.operations then s
      else
        StillKnown(s, Act(lease, answers), lease);
        Forgets(Next(s, Act(lease, answers)), lease, s.operations[lease].pc)
  }

  lemma StillKnown(s: Sys, e: Event, lease: LeaseId)
    requires lease in s.operations
    ensures lease in Next(s, e).operations && Next(s, e).operations[lease].job == s.operations[lease].job
  {
    hide Call, Faulted, KeyIsFresh;
  }

  function LossyRun(s: Sys, happenings: seq<Happening>): Sys
    decreases |happenings|
  {
    if happenings == [] then s else LossyRun(Happens(s, happenings[0]), happenings[1..])
  }

  /** What the happening does to the data, as an event. */
  function EventOf(h: Happening): Event {
    match h
    case Plain(e) => e
    case Lost(lease, answers) => Act(lease, answers)
  }

  // ----- what a failure of the caller keeps --------------------------------------------------------

  ghost predicate Kept(s: Sys, job: Key) {
    && OwnersKnown(s) && T.TaskInv(s) && OwnTasks(s) && T.OnceInv(s)
    && PendingOk(s, job) && StartedOk(s, job)
  }

  lemma FaultedTask(pc: Pc)
    ensures T.Reserved(Faulted(pc)).None? && T.Claimed(Faulted(pc)).None?
    ensures TaskOf(Faulted(pc)).Some? ==> TaskOf(Faulted(pc)) == TaskOf(pc)
    ensures !Faulted(pc).AddingTask? && !Faulted(pc).AddingFirstTask?
    ensures !Faulted(pc).CallingJob? && !Faulted(pc).Starting?
  {
  }

  lemma ForgettingKeepsTasks(s: Sys, lease: LeaseId, pc: Pc)
    requires lease in s.operations && T.TaskInv(s)
    ensures T.TaskInv(Forgets(s, lease, pc))
  {
    hide Faulted, T.Dated, T.Reserved, T.Claimed;
    FaultedTask(pc);
  }

  lemma ForgettingKeepsOnce(s: Sys, lease: LeaseId, pc: Pc)
    requires lease in s.operations && T.OnceInv(s)
    ensures T.OnceInv(Forgets(s, lease, pc))
  {
    hide Faulted, T.NoRepeats, T.Reserved, T.Claimed;
    FaultedTask(pc);
  }

  lemma ForgettingKeepsLimits(s: Sys, lease: LeaseId, pc: Pc, job: Key)
    requires lease in s.operations && OwnersKnown(s)
    ensures OwnersKnown(Forgets(s, lease, pc))
    ensures PendingOk(s, job) ==> PendingOk(Forgets(s, lease, pc), job)
    ensures StartedOk(s, job) ==> StartedOk(Forgets(s, lease, pc), job)
  {
    hide Faulted;
    FaultedTask(pc);
  }

  /** The task of an operation is still known after any event that is not its deletion. */
  lemma TaskStaysKnown(s: Sys, lease: LeaseId, a: Answers)
    requires T.TaskInv(s) && OwnTasks(s) && lease in s.operations && TaskOf(s.operations[lease].pc).Some?
    ensures var k, s' := TaskOf(s.operations[lease].pc).value, Next(s, Act(lease, a));
      && k in s'.used && (k in s'.tasks ==> s'.tasks[k].schedule == s.operations[lease].job)
      && forall m :: m in s'.operations ==> T.Reserved(s'.operations[m].pc) != Some(k)
  {
    hide Next, T.Dated, T.Reserved, TaskOf;
    var k := TaskOf(s.operations[lease].pc).value;
    T.TaskInvStep(s, Act(lease, a));
    T.ForwardStep(s, Act(lease, a), k);
    ActDeletesNothing(s, lease, a, k);
  }

  lemma ActDeletesNothing(s: Sys, lease: LeaseId, a: Answers, k: Key)
    ensures k in s.tasks ==> k in Next(s, Act(lease, a)).tasks
  {
    hide Call, KeyIsFresh;
  }

  lemma LosingKeepsOwnTasks(s: Sys, lease: LeaseId, a: Answers)
    requires T.TaskInv(s) && OwnTasks(s)
    ensures OwnTasks(Happens(s, Lost(lease, a)))
  {
    if lease in s.operations {
      var pc, s1 := s.operations[lease].pc, Next(s, Act(lease, a));
      hide Next, Faulted, T.TaskInv, T.Reserved, TaskOf;
      StillKnown(s, Act(lease, a), lease);
      OwnTasksStep(s, Act(lease, a));
      FaultedTask(pc);
      if TaskOf(pc).Some? {
        TaskStaysKnown(s, lease, a);
      }
    }
  }

  // ----- runs with lost replies ----------------------------------------------------------------------

  /** No operation on the schedule writes a task after losing its lease. */
  ghost predicate LossyInLease(s: Sys, happenings: seq<Happening>, job: Key)
    decreases |happenings|
  {
    happenings != [] ==>
      InLease(s, EventOf(happenings[0]), job) && LossyInLease(Happens(s, happenings[0]), happenings[1..], job)
  }

  lemma TasksStep(s: Sys, h: Happening)
    requires T.TaskInv(s) && T.OnceInv(s)
    ensures T.TaskInv(Happens(s, h)) && T.OnceInv(Happens(s, h))
  {
    hide Next, T.TaskInv, T.OnceInv, Faulted;
    T.TaskInvStep(s, EventOf(h));
    T.OnceInvStep(s, EventOf(h));
    if h.Lost? && h.lease in s.operations {
      StillKnown(s, EventOf(h), h.lease);
      ForgettingKeepsTasks(Next(s, EventOf(h)), h.lease, s.operations[h.lease].pc);
      ForgettingKeepsOnce(Next(s, EventOf(h)), h.lease, s.operations[h.lease].pc);
    }
  }

  lemma KeptStep(s: Sys, h: Happening, job: Key)
    requires Kept(s, job) && InLease(s, EventOf(h), job)
    ensures Kept(Happens(s, h), job)
  {
    hide Next, T.TaskInv, T.OnceInv, OwnTasks, OwnersKnown, PendingOk, StartedOk, Faulted, InLease;
    TasksStep(s, h);
    OwnersKnownStep(s, EventOf(h));
    OwnTasksStep(s, EventOf(h));
    PendingStep(s, EventOf(h), job);
    StartedStep(s, EventOf(h), job);
    if h.Lost? && h.lease in s.operations {
      StillKnown(s, EventOf(h), h.lease);
      LosingKeepsOwnTasks(s, h.lease, h.answers);
      ForgettingKeepsLimits(Next(s, EventOf(h)), h.lease, s.operations[h.lease].pc, job);
    }
  }

  lemma {:induction false} NeverTwice(s: Sys, happenings: seq<Happening>)
    requires T.TaskInv(s) && T.OnceInv(s)
    ensures T.OnceInv(LossyRun(s, happenings))
    decreases |happenings|
  {
    hide Happens, T.TaskInv, T.OnceInv;
    if happenings != [] {
      TasksStep(s, happenings[0]);
      NeverTwice(Happens(s, happenings[0]), happenings[1..]);
    }
  }

  /** `startJob` is called at most once for any task, also when replies get lost. */
  lemma NoDoubleExecution(happenings: seq<Happening>)
    ensures T.NoRepeats(LossyRun(Init(), happenings).calls)
  {
    hide LossyRun;
    NeverTwice(Init(), happenings);
  }

  lemma {:induction false} StaysKept(s: Sys, happenings: seq<Happening>, job: Key)
    requires Kept(s, job) && LossyInLease(s, happenings, job)
    ensures Kept(LossyRun(s, happenings), job)
    decreases |happenings|
  {
    hide Happens, Kept, InLease;
    if happenings != [] {
      KeptStep(s, happenings[0], job);
      StaysKept(Happens(s, happenings[0]), happenings[1..], job);
    }
  }

  /** Within the leases, one task is pending at most, and one is started if duplicates are skipped. */
  lemma OneTask(happenings: seq<Happening>, job: Key)
    requires LossyInLease(Init(), happenings, job)
    ensures var s := LossyRun(Init(), happenings);
      && AtMostOne(s, job, Pending)
      && (job in s.jobs && s.jobs[job].duplicates.AlwaysSkip? ==> AtMostOne(s, job, Started))
  {
    hide LossyRun, LossyInLease;
    StaysKept(Init(), happenings, job);
  }
}
