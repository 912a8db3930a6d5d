/** What `repairState` remembers while a schedule is repaired. */
module RepairState {
  import opened Wrappers
  import opened Model
  import opened DbImpl
  import opened Protocol
  import opened LeaseSafety
  import opened Steps

  /** `repairState` is set exactly while the row is in repair, and is never repair itself. */
  predicate RemembersRepair(row: JobRow) {
    && (row.repairState.Some? <==> row.updateState == Some(Repair))
    && row.repairState != Some(Repair)
  }

  /** The schedule's row remembers its repair, and so does what repairers have read of it. */
  ghost predicate RepairOk(s: Sys, job: Key) {
    && (job in s.jobs ==> RemembersRepair(s.jobs[job]))
    && (forall l :: l in s.operations && s.operations[l].job == job && s.operations[l].pc.RepairTaking? ==>
          s.operations[l].pc.interrupted != Some(Repair))
  }

  /** The operation that a locked row was leased for, seen through any repair of it. */
  function Origin(row: JobRow): Option<UpdateState> {
    if row.updateState == Some(Repair) then row.repairState else row.updateState
  }

  ghost predicate WinsRepair(s: Sys, e: Event, job: Key) {
    && e.Act? && e.lease in s.operations && s.operations[e.lease].job == job
    && s.operations[e.lease].pc.RepairTaking? && job in s.jobs && Expired(s.jobs[job], s.operations[e.lease].now)
  }

  /** A winning repair of the schedule had found its row locked. */
  ghost predicate ReadLocked(s: Sys, e: Event, job: Key) {
    WinsRepair(s, e, job) ==> s.operations[e.lease].pc.interrupted.Some?
  }

  /** A winning repair writes what its row still says: its read and its write act as one step. */
  ghost predicate ReadsFresh(s: Sys, e: Event, job: Key) {
    WinsRepair(s, e, job) ==> s.operations[e.lease].pc.interrupted == Interrupted(s.jobs[job])
  }

  /** One event keeps the memory exactly when a winning repair had found the row locked. */
  lemma RepairStep(s: Sys, e: Event, job: Key)
    requires RepairOk(s, job)
    ensures RepairOk(Next(s, e), job) <==> ReadLocked(s, e, job)
  {
    hide Call, Faulted;
    if e.Act? && e.lease in s.operations && KeyIsFresh(s, s.operations[e.lease], e.answers) {
      var w := CallWrites(s, e.lease, s.operations[e.lease], e.answers);
      RepairReads(s, e.lease, s.operations[e.lease], e.answers);
    } else if e.Fault? && e.lease in s.operations {
      FaultedTakesNothing(s.operations[e.lease].pc);
    }
  }

  /** Only the read before it leads to the write of a repair. */
  lemma RepairReads(s: Sys, lease: LeaseId, op: Operation, a: Answers)
    ensures var pc := Call(s, lease, op, a).pc;
      pc.RepairTaking? ==> op.job in s.jobs && op.pc.RepairReading? && pc.interrupted == Interrupted(s.jobs[op.job])
                           && Call(s, lease, op, a).job.None?
    ensures op.pc.RepairTaking? && op.job in s.jobs && Expired(s.jobs[op.job], op.now) ==>
      Call(s, lease, op, a).job.Some?
  {
    hide Leased, Released, MarkedForRepair, TakenForRepair, NewJob, HasTaskIn, NewTask, Mark.Marked, Mark.Expects;
  }

  lemma FaultedTakesNothing(pc: Pc)
    ensures !Faulted(pc).RepairTaking?
  {
  }

  ghost predicate RunsReadLocked(s: Sys, events: seq<Event>, job: Key)
    decreases |events|
  {
    events != [] ==> ReadLocked(s, events[0], job) && RunsReadLocked(Next(s, events[0]), events[1..], job)
  }

  ghost predicate RemembersThroughout(s: Sys, events: seq<Event>, job: Key)
    decreases |events|
  {
    RepairOk(s, job) && (events != [] ==> RemembersThroughout(Next(s, events[0]), events[1..], job))
  }

  /** In a run the memory holds throughout if and only if every winning repair had found the row locked. */
  lemma {:induction false} RemembersIff(s: Sys, events: seq<Event>, job: Key)
    requires RepairOk(s, job)
    ensures RemembersThroughout(s, events, job) <==> RunsReadLocked(s, events, job)
    decreases |events|
  {
    if events != [] {
      RepairStep(s, events[0], job);
      if ReadLocked(s, events[0], job) {
        RemembersIff(Next(s, events[0]), events[1..], job);
      }
    }
  }

  // ----- chains of repairs ----------------------------------------------------------

  ghost predicate RunsFresh(s: Sys, events: seq<Event>, job: Key)
    decreases |events|
  {
    events != [] ==> ReadsFresh(s, events[0], job) && RunsFresh(Next(s, events[0]), events[1..], job)
  }

  ghost predicate StaysLocked(s: Sys, events: seq<Event>, job: Key)
    decreases |events|
  {
    && job in s.jobs && s.jobs[job].updateState.Some?
    && (events != [] ==> StaysLocked(Next(s, events[0]), events[1..], job))
  }

  /** A row that stays locked keeps its origin in one event exactly when a winning repair reads fresh. */
  lemma OriginStep(s: Sys, e: Event, job: Key)
    requires RepairOk(s, job) && job in s.jobs && s.jobs[job].updateState.Some?
    ensures job in Next(s, e).jobs
    ensures Next(s, e).jobs[job].updateState.Some? ==>
      (Origin(Next(s, e).jobs[job]) == Origin(s.jobs[job]) <==> ReadsFresh(s, e, job))
    ensures Next(s, e).jobs[job].updateState.None? ==> ReadsFresh(s, e, job)
  {
    hide Call, Faulted;
    if e.Act? && e.lease in s.operations && KeyIsFresh(s, s.operations[e.lease], e.answers) {
      var w := CallWrites(s, e.lease, s.operations[e.lease], e.answers);
      RepairReads(s, e.lease, s.operations[e.lease], e.answers);
    }
  }

  /** If the row is locked before and after the event, it has the same origin. */
  ghost predicate KeepsOrigin(s: Sys, e: Event, job: Key) {
    && job in s.jobs && s.jobs[job].updateState.Some?
    && job in Next(s, e).jobs && Next(s, e).jobs[job].updateState.Some?
    ==> Origin(Next(s, e).jobs[job]) == Origin(s.jobs[job])
  }

  ghost predicate KeepsOriginThroughout(s: Sys, events: seq<Event>, job: Key)
    decreases |events|
  {
    events != [] ==> KeepsOrigin(s, events[0], job) && KeepsOriginThroughout(Next(s, events[0]), events[1..], job)
  }

  /** A run keeps the origin of the row throughout if and only if every winning repair reads fresh. */
  lemma {:induction false} KeepsOriginIff(s: Sys, events: seq<Event>, job: Key)
    requires RepairOk(s, job)
    ensures KeepsOriginThroughout(s, events, job) <==> RunsFresh(s, events, job)
    decreases |events|
  {
    hide Next, KeepsOrigin, RepairOk;
    if events != [] {
      RepairStep(s, events[0], job);
      FreshReadLocked(s, events[0], job);
      OriginOf(s, events[0], job);
      if ReadsFresh(s, events[0], job) {
        KeepsOriginIff(Next(s, events[0]), events[1..], job);
      }
    }
  }

  lemma FreshReadLocked(s: Sys, e: Event, job: Key)
    ensures ReadsFresh(s, e, job) ==> ReadLocked(s, e, job)
    ensures WinsRepair(s, e, job) ==> job in s.jobs && s.jobs[job].updateState.Some?
  {
  }

  lemma OriginOf(s: Sys, e: Event, job: Key)
    requires RepairOk(s, job)
    ensures KeepsOrigin(s, e, job) <==> ReadsFresh(s, e, job)
  {
    hide Next, Origin, RepairOk, ReadsFresh;
    if job in s.jobs && s.jobs[job].updateState.Some? {
      OriginStep(s, e, job);
    } else {
      OthersReadFresh(s, e, job);
    }
  }

  lemma OthersReadFresh(s: Sys, e: Event, job: Key)
    requires !(job in s.jobs && s.jobs[job].updateState.Some?)
    ensures ReadsFresh(s, e, job)
  {
  }

  /**
   However many repairs take the row from each other, its `repairState` still names the operation
   that held it before the first of them.
   */
  lemma {:induction false} RepairsKeepOrigin(s: Sys, events: seq<Event>, job: Key)
    requires RepairOk(s, job) && RunsFresh(s, events, job) && StaysLocked(s, events, job)
    ensures RepairOk(Run(s, events), job) && job in Run(s, events).jobs
    ensures Origin(Run(s, events).jobs[job]) == Origin(s.jobs[job])
    ensures s.jobs[job].updateState != Some(Repair) && Run(s, events).jobs[job].updateState == Some(Repair) ==>
      Run(s, events).jobs[job].repairState == s.jobs[job].updateState
    decreases |events|
  {
    if events != [] {
      RepairStep(s, events[0], job);
      OriginStep(s, events[0], job);
      RepairsKeepOrigin(Next(s, events[0]), events[1..], job);
    }
  }

  // ----- from the read of a repair to its write ----------------------------------------------

  /** The operation that the event leases the unlocked row for, or creates it for. */
  function LeasedFor(s: Sys, e: Event, job: Key): Option<UpdateState> {
    if !(job in s.jobs && s.jobs[job].updateState.Some?) && job in Next(s, e).jobs then Next(s, e).jobs[job].updateState
    else None
  }

  /** The last such operation of a run. */
  function LastLeasedFor(s: Sys, events: seq<Event>, job: Key): Option<UpdateState>
    decreases |events|
  {
    if events == [] then None
    else
      var later := LastLeasedFor(Next(s, events[0]), events[1..], job);
      if later.Some? then later else LeasedFor(s, events[0], job)
  }

  function OriginIn(s: Sys, job: Key): Option<UpdateState> {
    if job in s.jobs then Origin(s.jobs[job]) else None
  }

  lemma LeasedOrigin(s: Sys, e: Event, job: Key)
    requires RepairOk(s, job) && ReadsFresh(s, e, job)
    ensures RepairOk(Next(s, e), job)
    ensures OriginIn(Next(s, e), job).Some? ==>
      OriginIn(Next(s, e), job) == if LeasedFor(s, e, job).Some? then LeasedFor(s, e, job) else OriginIn(s, job)
  {
    hide Next, ReadsFresh, ReadLocked;
    RepairStep(s, e, job);
    FreshReadLocked(s, e, job);
    if job in s.jobs && s.jobs[job].updateState.Some? {
      OriginStep(s, e, job);
    } else {
      UnlockedStep(s, e, job);
    }
  }

  /** Nobody leases a row for a repair. */
  lemma UnlockedStep(s: Sys, e: Event, job: Key)
    requires !(job in s.jobs && s.jobs[job].updateState.Some?)
    ensures LeasedFor(s, e, job) != Some(Repair)
  {
    hide Call, Faulted;
    if e.Act? && e.lease in s.operations && KeyIsFresh(s, s.operations[e.lease], e.answers) {
      var w := CallWrites(s, e.lease, s.operations[e.lease], e.answers);
    }
  }

  /** While repairs read fresh, a locked row names what it was last leased for, or what it named before. */
  lemma {:induction false} OriginSince(s: Sys, events: seq<Event>, job: Key)
    requires RepairOk(s, job) && RunsFresh(s, events, job)
    ensures RepairOk(Run(s, events), job)
    ensures OriginIn(Run(s, events), job).Some? ==>
      OriginIn(Run(s, events), job) ==
      if LastLeasedFor(s, events, job).Some? then LastLeasedFor(s, events, job) else OriginIn(s, job)
    decreases |events|
  {
    hide Next, RepairOk, ReadsFresh, OriginIn, LeasedFor;
    if events != [] {
      LeasedOrigin(s, events[0], job);
      OriginSince(Next(s, events[0]), events[1..], job);
    }
  }

  /** A repair past its read keeps what it has read, and never reads again. */
  predicate HasRead(s: Sys, lease: LeaseId, interrupted: Option<UpdateState>) {
    && lease in s.operations && !s.operations[lease].pc.RepairReading?
    && (s.operations[lease].pc.RepairTaking? ==> s.operations[lease].pc.interrupted == interrupted)
  }

  lemma NeverReads(s: Sys, lease: LeaseId, op: Operation, a: Answers)
    ensures !op.pc.RepairReading? ==> !Call(s, lease, op, a).pc.RepairReading?
    ensures Call(s, lease, op, a).pc.RepairTaking? ==> op.pc.RepairReading?
    ensures !Faulted(op.pc).RepairReading? && !Faulted(op.pc).RepairTaking?
  {
    hide Leased, Released, MarkedForRepair, TakenForRepair, NewJob, HasTaskIn, NewTask, Mark.Marked, Mark.Expects;
  }

  lemma {:induction false} ReadsOnce(s: Sys, events: seq<Event>, lease: LeaseId, interrupted: Option<UpdateState>)
    requires HasRead(s, lease, interrupted)
    ensures HasRead(Run(s, events), lease, interrupted)
    ensures Run(s, events).operations[lease].job == s.operations[lease].job
    decreases |events|
  {
    hide Next, HasRead;
    if events != [] {
      ReadsOnceStep(s, events[0], lease, interrupted);
      ReadsOnce(Next(s, events[0]), events[1..], lease, interrupted);
    }
  }

  lemma ReadsOnceStep(s: Sys, e: Event, lease: LeaseId, interrupted: Option<UpdateState>)
    requires HasRead(s, lease, interrupted)
    ensures HasRead(Next(s, e), lease, interrupted)
    ensures Next(s, e).operations[lease].job == s.operations[lease].job
  {
    hide Call, Faulted, KeyIsFresh;
    if e.Act? && e.lease == lease {
      NeverReads(s, lease, s.operations[lease], e.answers);
    } else if e.Fault? && e.lease == lease {
      NeverReads(s, lease, s.operations[lease], Answers(JobUnknown, Throws, false, None, 0, false, 0, ""));
    }
  }

  /**
   A repair reads the row, any events follow in which other repairs read fresh, and it wins the row. It
   names the operation that it interrupts if and only if the row was not leased in between, or last for
   the operation that it named when it was read.
   */
  lemma RepairWindowIff(s: Sys, lease: LeaseId, a: Answers, events: seq<Event>, b: Answers)
    requires lease in s.operations && s.operations[lease].pc.RepairReading? && s.operations[lease].job in s.jobs
    requires RepairOk(s, s.operations[lease].job)
    requires var job, s1 := s.operations[lease].job, Next(s, Act(lease, a));
      RunsFresh(s1, events, job) && WinsRepair(Run(s1, events), Act(lease, b), job)
    ensures var job, s1 := s.operations[lease].job, Next(s, Act(lease, a));
      KeepsOrigin(Run(s1, events), Act(lease, b), job) <==>
        LastLeasedFor(s1, events, job) == None || LastLeasedFor(s1, events, job) == Origin(s.jobs[job])
  {
    hide Next, Run, RunsFresh, KeepsOrigin, LastLeasedFor;
    var job, s1 := s.operations[lease].job, Next(s, Act(lease, a));
    var s2 := Run(s1, events);
    RepairReadStep(s, lease, a);
    ReadsOnce(s1, events, lease, Interrupted(s.jobs[job]));
    OriginSince(s1, events, job);
    OriginOf(s2, Act(lease, b), job);
  }

  // ----- a stale read -----------------------------------------------------------

  /** Unlocked, the schedule is read by a repairer; then it is leased, and that lease expires. */
  function StaleRead(job: Key, repairer: LeaseId, leaser: LeaseId, expires: int, now: int, a: Answers): seq<Event> {
    [BeginRepair(repairer, job, now, 0), Act(repairer, a),
     BeginDisable(leaser, job, None, expires, 0, 0), Act(leaser, a),
     Act(repairer, a)]
  }

  /**
   The read and the write of a repair are two calls. From every state in which the schedule is
   unlocked, a lease in between leaves its row in repair without a memory of what to repair.
   */
  lemma StaleReadForgets(s: Sys, job: Key, repairer: LeaseId, leaser: LeaseId, expires: int, now: int, a: Answers)
    requires RepairOk(s, job) && job in s.jobs && s.jobs[job].updateState == None && expires < now
    requires repairer !in s.operations && leaser !in s.operations && repairer != leaser
    ensures var s' := Run(s, StaleRead(job, repairer, leaser, expires, now, a));
      && job in s'.jobs
      && s'.jobs[job].updateState == Some(Repair) && s'.jobs[job].repairState == None
      && s'.jobs[job].leaseOwner == Some(repairer)
  {
    hide Run, Next;
    var es := StaleRead(job, repairer, leaser, expires, now, a);
    assert es[0..] == es && es[5..] == [];
    RunFrom(s, es, 0);
    var s2 := ReadUnlocked(s, job, repairer, now, a);
    RunFrom(Next(s, es[0]), es, 1);
    RunFrom(s2, es, 2);
    var s4 := LeaseRead(s2, job, leaser, expires, a);
    RunFrom(Next(s2, es[2]), es, 3);
    RunFrom(s4, es, 4);
    TakeForgotten(s4, job, repairer, a);
    RunNothing(Next(s4, es[4]));
  }

  lemma ReadUnlocked(s: Sys, job: Key, repairer: LeaseId, now: int, a: Answers) returns (s': Sys)
    requires job in s.jobs && repairer !in s.operations && RemembersRepair(s.jobs[job])
    requires s.jobs[job].updateState == None
    ensures s' == Next(Next(s, BeginRepair(repairer, job, now, 0)), Act(repairer, a))
    ensures s'.jobs == s.jobs && s'.operations == s.operations[repairer := Operation(job, now, 0, RepairTaking(None))]
  {
    var s1 := Next(s, BeginRepair(repairer, job, now, 0));
    s' := Next(s1, Act(repairer, a));
  }

  lemma LeaseRead(s: Sys, job: Key, leaser: LeaseId, expires: int, a: Answers) returns (s': Sys)
    requires job in s.jobs && leaser !in s.operations && RemembersRepair(s.jobs[job])
    requires s.jobs[job].updateState == None
    ensures s' == Next(Next(s, BeginDisable(leaser, job, None, expires, 0, 0)), Act(leaser, a))
    ensures job in s'.jobs && s'.jobs[job] == Leased(s.jobs[job], Pasture, None, leaser, expires)
    ensures forall l :: l in s.operations ==> l in s'.operations && s'.operations[l] == s.operations[l]
  {
    var s1 := Next(s, BeginDisable(leaser, job, None, expires, 0, 0));
    s' := Next(s1, Act(leaser, a));
  }

  lemma TakeForgotten(s: Sys, job: Key, repairer: LeaseId, a: Answers)
    requires job in s.jobs && repairer in s.operations && s.operations[repairer].job == job
    requires s.operations[repairer].pc == RepairTaking(None) && Expired(s.jobs[job], s.operations[repairer].now)
    ensures var s' := Next(s, Act(repairer, a));
      && job in s'.jobs
      && s'.jobs[job].updateState == Some(Repair) && s'.jobs[job].repairState == None
      && s'.jobs[job].leaseOwner == Some(repairer)
  {
  }

  // ----- the wrong repair -----------------------------------------------------------------------

  /**
   A repairer reads the row while it is leased for its pasture; that lease is released, and the row is
   leased again, to start a task.
   */
  function WrongRead(job: Key, task: Key, p: LeaseId, r: LeaseId, q: LeaseId, expires: int, now: int, a: Answers)
    : seq<Event>
  {
    [BeginDisable(p, job, None, expires, 0, 0), Act(p, a)] + [BeginRepair(r, job, now, 0), Act(r, a)]
    + [Act(p, a), Act(p, a)] + [BeginTask(q, Start(task), expires, 0, 0), Act(q, a)]
  }

  /**
   From every state in which the schedule is unlocked and has a task: when that second lease expires, the
   repairer takes the row with a memory of the first. It read the row locked, and repairs the wrong operation.
   */
  lemma WrongRepair(s: Sys, job: Key, task: Key, p: LeaseId, r: LeaseId, q: LeaseId, expires: int, now: int, a: Answers)
    requires RepairOk(s, job) && job in s.jobs && s.jobs[job].updateState == None && expires < now
    requires task in s.tasks && s.tasks[task].schedule == job
    requires p !in s.operations && r !in s.operations && q !in s.operations && p != r && q != r && p != q
    ensures var before := Run(s, WrongRead(job, task, p, r, q, expires, now, a)); var after := Next(before, Act(r, a));
      && job in before.jobs && before.jobs[job].updateState == Some(StartTask)
      && ReadLocked(before, Act(r, a), job) && !ReadsFresh(before, Act(r, a), job)
      && job in after.jobs && RemembersRepair(after.jobs[job]) && after.jobs[job].repairState == Some(Pasture)
  {
    hide Run, Next, RepairOk, ReadsFresh, ReadLocked, RemembersRepair, Leased, Released, OwnedBy, Expired;
    UnlockedForgets(s, job);
    var s2 := LeasedForPasture(s, job, p, expires, a);
    var s4 := ReadForPasture(s2, job, r, now, a);
    var s6 := PastureReleased(s4, job, p, a);
    var s8 := LeasedForStart(s6, job, task, q, expires, a);
    var es2, es4 := [BeginDisable(p, job, None, expires, 0, 0), Act(p, a)], [BeginRepair(r, job, now, 0), Act(r, a)];
    var es6, es8 := [Act(p, a), Act(p, a)], [BeginTask(q, Start(task), expires, 0, 0), Act(q, a)];
    RunTwo(s, es2[0], es2[1]);
    RunTwoMore(s, es2, es4[0], es4[1], s2);
    RunTwoMore(s, es2 + es4, es6[0], es6[1], s4);
    RunTwoMore(s, es2 + es4 + es6, es8[0], es8[1], s6);
    AlreadyExpired(s8.jobs[job], expires, now);
    TakenWrongly(s8, job, r, a);
  }

  lemma RunTwoMore(s: Sys, events: seq<Event>, d: Event, e: Event, s1: Sys)
    requires s1 == Run(s, events)
    ensures Run(s, events + [d, e]) == Next(Next(s1, d), e)
  {
    hide Next, Run;
    RunAppend(s, events, [d, e]);
    RunTwo(s1, d, e);
  }

  lemma AlreadyExpired(row: JobRow, expires: int, now: int)
    requires row.updateState.Some? && row.leaseExpires == Some(expires) && expires < now
    ensures Expired(row, now)
  {
  }

  lemma UnlockedForgets(s: Sys, job: Key)
    requires RepairOk(s, job) && job in s.jobs && s.jobs[job].updateState == None
    ensures s.jobs[job].repairState == None
  {
  }

  lemma LeasedForPasture(s: Sys, job: Key, p: LeaseId, expires: int, a: Answers) returns (s': Sys)
    requires job in s.jobs && s.jobs[job].updateState == None && p !in s.operations
    ensures s' == Next(Next(s, BeginDisable(p, job, None, expires, 0, 0)), Act(p, a))
    ensures s'.tasks == s.tasks
    ensures job in s'.jobs && s'.jobs[job].updateState == Some(Pasture) && OwnedBy(s'.jobs[job], p)
    ensures s'.jobs[job].repairState == s.jobs[job].repairState
    ensures s'.operations == s.operations[p := Operation(job, expires, 0, Reading(DisableJob(None)))]
  {
    hide Call;
    var s1 := Next(s, BeginDisable(p, job, None, expires, 0, 0));
    LeaseStep(s1, p, DisableJob(None), 0, a);
    s' := Next(s1, Act(p, a));
  }

  lemma ReadForPasture(s: Sys, job: Key, r: LeaseId, now: int, a: Answers) returns (s': Sys)
    requires job in s.jobs && s.jobs[job].updateState == Some(Pasture) && s.jobs[job].repairState == None
    requires r !in s.operations
    ensures s' == Next(Next(s, BeginRepair(r, job, now, 0)), Act(r, a))
    ensures s'.tasks == s.tasks && s'.jobs == s.jobs
    ensures s'.operations == s.operations[r := Operation(job, now, 0, RepairTaking(Some(Pasture)))]
  {
    hide Call;
    var s1 := Next(s, BeginRepair(r, job, now, 0));
    RepairReadStep(s1, r, a);
    s' := Next(s1, Act(r, a));
  }

  lemma PastureReleased(s: Sys, job: Key, p: LeaseId, a: Answers) returns (s': Sys)
    requires job in s.jobs && OwnedBy(s.jobs[job], p) && p in s.operations
    requires s.operations[p].job == job && s.operations[p].pc == Reading(DisableJob(None))
    ensures s' == Next(Next(s, Act(p, a)), Act(p, a))
    ensures s'.tasks == s.tasks && job in s'.jobs
    ensures s'.jobs[job].updateState == None && s'.jobs[job].repairState == None
    ensures s'.operations == s.operations[p := s.operations[p].(pc := Ended(Unlocked))]
  {
    hide Next;
    ReadStep(s, p, DisableJob(None), a);
    var s1 := Next(s, Act(p, a));
    ReleaseStep(s1, p, true, None, a);
    s' := Next(s1, Act(p, a));
  }

  lemma LeasedForStart(s: Sys, job: Key, task: Key, q: LeaseId, expires: int, a: Answers) returns (s': Sys)
    requires job in s.jobs && s.jobs[job].updateState == None && q !in s.operations
    requires task in s.tasks && s.tasks[task].schedule == job
    ensures s' == Next(Next(s, BeginTask(q, Start(task), expires, 0, 0)), Act(q, a))
    ensures job in s'.jobs && s'.jobs[job].updateState == Some(StartTask)
    ensures s'.jobs[job].repairState == s.jobs[job].repairState && s'.jobs[job].leaseExpires == Some(expires)
    ensures s'.operations == s.operations[q := Operation(job, expires, 0, Reading(Start(task)))]
  {
    hide Call;
    var s1 := Next(s, BeginTask(q, Start(task), expires, 0, 0));
    LeaseStep(s1, q, Start(task), 0, a);
    s' := Next(s1, Act(q, a));
  }

  lemma TakenWrongly(s: Sys, job: Key, r: LeaseId, a: Answers)
    requires job in s.jobs && s.jobs[job].updateState == Some(StartTask) && s.jobs[job].repairState == None
    requires r in s.operations && s.operations[r].job == job && s.operations[r].pc == RepairTaking(Some(Pasture))
    requires Expired(s.jobs[job], s.operations[r].now)
    ensures var after := Next(s, Act(r, a));
      && ReadLocked(s, Act(r, a), job) && !ReadsFresh(s, Act(r, a), job)
      && job in after.jobs && RemembersRepair(after.jobs[job]) && after.jobs[job].repairState == Some(Pasture)
  {
    hide Next;
    TakeStep(s, r, Some(Pasture), a);
  }
}
