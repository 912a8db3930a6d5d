/** What the lease on a schedule's row guarantees, over every interleaving. */
module LeaseSafety {
  import opened Wrappers
  import opened Model
  import opened DbImpl
  import opened Protocol

  /** Before its first winning update, an operation holds nothing. */
  predicate Acquiring(pc: Pc) {
    pc.CreatingJob? || pc.Leasing? || pc.RepairReading? || pc.RepairTaking?
  }

  predicate Owns(s: Sys, lease: LeaseId, job: Key) {
    job in s.jobs && s.jobs[job].leaseOwner == Some(lease)
  }

  /** `updateState`, `leaseOwner` and `leaseExpires` are null together. */
  predicate LockedTogether(row: JobRow) {
    && (row.updateState.Some? <==> row.leaseOwner.Some?)
    && (row.leaseOwner.Some? <==> row.leaseExpires.Some?)
  }

  /** An owner is an operation on that schedule which is past its first winning update. */
  ghost predicate LeaseInv(s: Sys) {
    && (forall j :: j in s.jobs ==> LockedTogether(s.jobs[j]))
    && (forall j :: j in s.jobs && s.jobs[j].leaseOwner.Some? ==>
          && s.jobs[j].leaseOwner.value in s.operations
          && s.operations[s.jobs[j].leaseOwner.value].job == j
          && !Acquiring(s.operations[s.jobs[j].leaseOwner.value].pc))
  }

  /** What is left of it when replies get lost: an owner is an operation on that schedule. */
  ghost predicate OwnersKnown(s: Sys) {
    forall j :: j in s.jobs && s.jobs[j].leaseOwner.Some? ==>
      s.jobs[j].leaseOwner.value in s.operations && s.operations[s.jobs[j].leaseOwner.value].job == j
  }

  lemma OwnersAreKnown(s: Sys)
    requires LeaseInv(s)
    ensures OwnersKnown(s)
  {
  }

  lemma OwnersKnownStep(s: Sys, e: Event)
    requires OwnersKnown(s)
    ensures OwnersKnown(Next(s, e))
  {
    hide Call, Faulted, KeyIsFresh;
    if e.Act? && e.lease in s.operations {
      var w := CallWrites(s, e.lease, s.operations[e.lease], e.answers);
    }
  }

  /** The five writes to a schedule's row, each with its guard. */
  datatype JobWrite = Keeps | Creates | Leases | Takes | Unlocks | Marks

  ghost predicate Writes(s: Sys, lease: LeaseId, op: Operation, e: Effect, w: JobWrite) {
    match w
    case Keeps => e.job.None?
    case Creates =>
      && op.job !in s.jobs && op.pc.CreatingJob? && e.pc == AddingFirstTask(op.pc.first)
      && e.job == Some(NewJob(op.pc.creation, op.pc.duplicates, op.pc.first, lease, op.now + op.leaseTime))
    case Leases =>
      && op.job in s.jobs && CanLease(s.jobs[op.job]) && op.pc.Leasing? && e.pc == Reading(op.pc.work)
      && e.job == Some(Leased(s.jobs[op.job], op.pc.work.UpdateState(), op.pc.work.UpdateTask(), lease,
                              op.now + op.leaseTime))
    case Takes =>
      && op.job in s.jobs && Expired(s.jobs[op.job], op.now) && op.pc.RepairTaking? && e.pc == RepairLooking
      && e.job == Some(TakenForRepair(s.jobs[op.job], lease, op.now + op.leaseTime, op.pc.interrupted))
    case Unlocks =>
      && op.job in s.jobs && OwnedBy(s.jobs[op.job], lease) && e.pc == Ended(Unlocked)
      && (op.pc.Releasing? || op.pc.RepairReleasing? || op.pc.RepairReleasingAgain?)
      && exists pasture, reason :: e.job == Some(Released(s.jobs[op.job], pasture, reason))
    case Marks =>
      && op.job in s.jobs && OwnedBy(s.jobs[op.job], lease) && e.pc == Ended(LeftForRepair)
      && op.pc.MarkingRepair?
      && e.job == Some(MarkedForRepair(s.jobs[op.job], op.now, false, None))
  }

  lemma CallWrites(s: Sys, lease: LeaseId, op: Operation, a: Answers) returns (w: JobWrite)
    ensures Writes(s, lease, op, Call(s, lease, op, a), w)
    ensures !Acquiring(op.pc) ==> !Acquiring(Call(s, lease, op, a).pc)
  {
    hide Leased, Released, MarkedForRepair, TakenForRepair, NewJob, HasTaskIn;
    var e := Call(s, lease, op, a);
    if e.job.None? {
      w := Keeps;
    } else if op.job !in s.jobs {
      w := Creates;
    } else if op.pc.Leasing? {
      w := Leases;
    } else if op.pc.RepairTaking? {
      w := Takes;
    } else if op.pc.MarkingRepair? {
      w := Marks;
    } else {
      w := Unlocks;
    }
  }

  /** Every event keeps the invariant. */
  lemma LeaseInvStep(s: Sys, e: Event)
    requires LeaseInv(s)
    ensures LeaseInv(Next(s, e))
  {
    hide Call, KeyIsFresh, Faulted;
    if e.Act? && e.lease in s.operations && KeyIsFresh(s, s.operations[e.lease], e.answers) {
      var op := s.operations[e.lease];
      var w := CallWrites(s, e.lease, op, e.answers);
      ActKeepsLeases(s, e.lease, op, Call(s, e.lease, op, e.answers), w);
    } else if e.Fault? && e.lease in s.operations {
      var op := s.operations[e.lease];
      FaultedWritesNothing(op.pc);
      ActKeepsLeases(s, e.lease, op, Effect(Faulted(op.pc)), Keeps);
    }
  }

  lemma FaultedWritesNothing(pc: Pc)
    ensures !Acquiring(pc) ==> !Acquiring(Faulted(pc))
  {
  }

  lemma ActKeepsLeases(s: Sys, lease: LeaseId, op: Operation, e: Effect, w: JobWrite)
    requires LeaseInv(s) && lease in s.operations && op == s.operations[lease]
    requires Writes(s, lease, op, e, w) && (!Acquiring(op.pc) ==> !Acquiring(e.pc))
    ensures LeaseInv(Apply(s, lease, op, e))
  {
    var s' := Apply(s, lease, op, e);
    forall j | j in s'.jobs
      ensures LockedTogether(s'.jobs[j])
      ensures s'.jobs[j].leaseOwner.Some? ==>
        && s'.jobs[j].leaseOwner.value in s'.operations
        && s'.operations[s'.jobs[j].leaseOwner.value].job == j
        && !Acquiring(s'.operations[s'.jobs[j].leaseOwner.value].pc)
    {
      if j != op.job || w.Keeps? {
        assert s'.jobs[j] == s.jobs[j];
      }
    }
  }

  lemma {:induction false} LeaseInvRun(s: Sys, events: seq<Event>)
    requires LeaseInv(s)
    ensures LeaseInv(Run(s, events))
    decreases |events|
  {
    if events != [] {
      LeaseInvStep(s, events[0]);
      LeaseInvRun(Next(s, events[0]), events[1..]);
    }
  }

  // ----- how a lease ends ------------------------------------------------------

  /**
   A row leased to `lease` leaves it only by that operation's own release, which unlocks the row, or
   by a repair whose `now` is later than the stored expiry.
   */
  lemma LeaseEndsOnlyBy(s: Sys, e: Event, lease: LeaseId, job: Key)
    requires LeaseInv(s) && Owns(s, lease, job) && !Owns(Next(s, e), lease, job)
    ensures e.Act? && e.lease in s.operations && job in Next(s, e).jobs
    ensures var op, row, row' := s.operations[e.lease], s.jobs[job], Next(s, e).jobs[job];
      && op.job == job
      && if e.lease == lease then
           && (op.pc.Releasing? || op.pc.RepairReleasing? || op.pc.RepairReleasingAgain?)
           && row'.updateState == row'.repairState == None && row'.leaseOwner == row'.leaseExpires == None
         else
           && op.pc.RepairTaking? && row.leaseExpires.value < op.now
           && row'.updateState == Some(Repair) && row'.leaseOwner == Some(e.lease)
           && row'.leaseExpires == Some(op.now + op.leaseTime)
  {
    hide Call, KeyIsFresh, Faulted;
    if e.Act? && e.lease in s.operations && KeyIsFresh(s, s.operations[e.lease], e.answers) {
      var op := s.operations[e.lease];
      var w := CallWrites(s, e.lease, op, e.answers);
    }
  }

  /** Past its first winning update, an operation that does not own its row never owns it again. */
  lemma LostForEver(s: Sys, e: Event, lease: LeaseId)
    requires LeaseInv(s) && lease in s.operations && !Acquiring(s.operations[lease].pc)
    requires !Owns(s, lease, s.operations[lease].job)
    ensures lease in Next(s, e).operations
    ensures var op, op' := s.operations[lease], Next(s, e).operations[lease];
      !Acquiring(op'.pc) && op'.job == op.job && !Owns(Next(s, e), lease, op.job)
  {
    hide Call, KeyIsFresh, Faulted;
    if e.Act? && e.lease in s.operations && KeyIsFresh(s, s.operations[e.lease], e.answers) {
      var w := CallWrites(s, e.lease, s.operations[e.lease], e.answers);
    } else if e.Fault? && e.lease in s.operations {
      FaultedWritesNothing(s.operations[e.lease].pc);
    }
  }

  lemma {:induction false} LostForEverRun(s: Sys, events: seq<Event>, lease: LeaseId)
    requires LeaseInv(s) && lease in s.operations && !Acquiring(s.operations[lease].pc)
    requires !Owns(s, lease, s.operations[lease].job)
    ensures var s' := Run(s, events);
      && lease in s'.operations && !Acquiring(s'.operations[lease].pc)
      && s'.operations[lease].job == s.operations[lease].job
      && !Owns(s', lease, s.operations[lease].job)
    decreases |events|
  {
    if events != [] {
      LeaseInvStep(s, events[0]);
      LostForEver(s, events[0], lease);
      LostForEverRun(Next(s, events[0]), events[1..], lease);
    }
  }

  /**
   An operation whose lease was taken writes no schedule's row; its releases and marks for repair are
   refused and change nothing at all.
   */
  lemma LostWritesNothing(s: Sys, lease: LeaseId, answers: Answers)
    requires LeaseInv(s) && lease in s.operations && !Acquiring(s.operations[lease].pc)
    requires !Owns(s, lease, s.operations[lease].job)
    ensures var pc, s' := s.operations[lease].pc, Next(s, Act(lease, answers));
      && s'.jobs == s.jobs
      && (pc.Releasing? || pc.MarkingRepair? || pc.RepairReleasing? || pc.RepairReleasingAgain? ==>
            && s'.tasks == s.tasks && s'.calls == s.calls
            && (s'.operations[lease].pc == Ended(Refused) || s'.operations[lease].pc.RepairReleasingAgain?))
  {
    hide WorkCall;
    var w := CallWrites(s, lease, s.operations[lease], answers);
  }

  /** The same, at any later time of any run. */
  lemma TakenLeaseIsRefused(s: Sys, events: seq<Event>, lease: LeaseId, answers: Answers)
    requires LeaseInv(s) && lease in s.operations && !Acquiring(s.operations[lease].pc)
    requires !Owns(s, lease, s.operations[lease].job)
    ensures lease in Run(s, events).operations
    ensures var later := Run(s, events); var pc := later.operations[lease].pc;
      && Next(later, Act(lease, answers)).jobs == later.jobs
      && (pc.Releasing? || pc.MarkingRepair? || pc.RepairReleasing? || pc.RepairReleasingAgain? ==>
            var after := Next(later, Act(lease, answers));
            && after.tasks == later.tasks
            && (after.operations[lease].pc == Ended(Refused) || after.operations[lease].pc.RepairReleasingAgain?))
  {
    hide Next;
    LostForEverRun(s, events, lease);
    LeaseInvRun(s, events);
    LostWritesNothing(Run(s, events), lease, answers);
  }

  // ----- how an operation ends ---------------------------------------------------

  /**
   An operation that got its lease and ends without a fault ends in one of three ways: its row is
   released; or still under its lease id and expired as of its `now`; or not under its lease id, and
   then its last call left the row as it was.
   */
  lemma LeaseEndings(s: Sys, lease: LeaseId, answers: Answers)
    requires LeaseInv(s) && lease in s.operations && !Acquiring(s.operations[lease].pc)
    requires !s.operations[lease].pc.Ended?
    requires Next(s, Act(lease, answers)).operations[lease].pc.Ended?
    ensures var op, s' := s.operations[lease], Next(s, Act(lease, answers)); var how := s'.operations[lease].pc.how;
      && (how == Unlocked || how == LeftForRepair || how == Refused)
      && (how == Unlocked ==> Owns(s, lease, op.job) && s'.jobs[op.job].updateState.None?)
      && (how == LeftForRepair ==> Owns(s', lease, op.job) && s'.jobs[op.job].leaseExpires == Some(op.now)
                                   && s'.jobs[op.job].updateState == s.jobs[op.job].updateState)
      && (how == Refused ==> !Owns(s, lease, op.job) && s'.jobs == s.jobs)
  {
    hide WorkCall;
    var op := s.operations[lease];
    if op.job in s.jobs && !InSchedule(op.pc) && !InRepair(op.pc) {
      WorkGoesOn(s, s.jobs[op.job], op, answers);
    }
  }

  lemma WorkGoesOn(s: Sys, row: JobRow, op: Operation, a: Answers)
    requires !InSchedule(op.pc) && !InRepair(op.pc)
    ensures !WorkCall(s, row, op, a).pc.Ended?
  {
    hide HasTaskIn, NewTask, Mark.Marked, Mark.Expects;
  }

  predicate EndedWell(pc: Pc) {
    pc == Ended(Unlocked) || pc == Ended(Refused) || pc == Ended(NotObtained)
  }

  /** An operation that ended, and not by leaving its row for repair or by a broken call, owns nothing. */
  ghost predicate EndedOwnNothing(s: Sys) {
    forall l :: l in s.operations && EndedWell(s.operations[l].pc) ==> !Owns(s, l, s.operations[l].job)
  }

  lemma CallEnds(s: Sys, lease: LeaseId, op: Operation, a: Answers)
    requires LeaseInv(s) && EndedOwnNothing(s) && lease in s.operations && op == s.operations[lease]
    ensures EndedWell(Call(s, lease, op, a).pc) ==> !Owns(Apply(s, lease, op, Call(s, lease, op, a)), lease, op.job)
  {
    hide WorkCall;
    if op.job in s.jobs && !InSchedule(op.pc) && !InRepair(op.pc) {
      WorkGoesOn(s, s.jobs[op.job], op, a);
    }
  }

  lemma FaultedEnds(pc: Pc)
    ensures EndedWell(Faulted(pc)) ==> Acquiring(pc) || EndedWell(pc)
  {
  }

  lemma EndedOwnNothingStep(s: Sys, e: Event)
    requires LeaseInv(s) && EndedOwnNothing(s)
    ensures EndedOwnNothing(Next(s, e))
  {
    hide Call, Faulted, EndedWell;
    if e.Act? && e.lease in s.operations && KeyIsFresh(s, s.operations[e.lease], e.answers) {
      CallEnds(s, e.lease, s.operations[e.lease], e.answers);
      var w := CallWrites(s, e.lease, s.operations[e.lease], e.answers);
    } else if e.Fault? && e.lease in s.operations {
      FaultedEnds(s.operations[e.lease].pc);
    }
  }

  lemma {:induction false} EndedOwnNothingRun(s: Sys, events: seq<Event>)
    requires LeaseInv(s) && EndedOwnNothing(s)
    ensures EndedOwnNothing(Run(s, events))
    decreases |events|
  {
    if events != [] {
      LeaseInvStep(s, events[0]);
      EndedOwnNothingStep(s, events[0]);
      EndedOwnNothingRun(Next(s, events[0]), events[1..]);
    }
  }
}
