/**
 One node among others. The cluster keeps, beside the store, the history of what every node did, so
 that what a controller does to the store can be told in the terms of the transition system.
 */
module Cluster {
  import opened Wrappers
  import opened Model
  import opened DbImpl
  import opened Protocol
  import opened Steps
  import opened DataStore
  import L = LeaseSafety

  /** Events of other operations. */
  predicate Foreign(e: Event, lease: LeaseId) {
    e.DeleteFinished? || e.lease != lease
  }

  /** Schedules stay, with their strategies. */
  ghost predicate KeepsJobs(before: map<Key, JobRow>, after: map<Key, JobRow>) {
    forall j :: j in before ==>
      && j in after && after[j].creation == before[j].creation && after[j].duplicates == before[j].duplicates
  }

  lemma NextKeepsJobs(s: Sys, e: Event)
    ensures KeepsJobs(s.jobs, Next(s, e).jobs)
  {
    hide Call, Faulted;
    if e.Act? && e.lease in s.operations && KeyIsFresh(s, s.operations[e.lease], e.answers) {
      var w := L.CallWrites(s, e.lease, s.operations[e.lease], e.answers);
    }
  }

  lemma NextIsForeign(s: Sys, e: Event, lease: LeaseId)
    requires Foreign(e, lease)
    ensures lease in Next(s, e).operations <==> lease in s.operations
    ensures lease in s.operations ==> Next(s, e).operations[lease] == s.operations[lease]
  {
    hide Call, Faulted;
  }

  lemma FaultIs(s: Sys, lease: LeaseId)
    requires lease in s.operations
    ensures Next(s, Fault(lease)) ==
      Apply(s, lease, s.operations[lease], Effect(Faulted(s.operations[lease].pc)))
  {
    hide Faulted;
  }

  lemma ActIs(s: Sys, lease: LeaseId, a: Answers)
    requires lease in s.operations && KeyIsFresh(s, s.operations[lease], a)
    ensures Next(s, Act(lease, a)) == Apply(s, lease, s.operations[lease], Call(s, lease, s.operations[lease], a))
  {
    hide Call;
  }

  class Cluster {
    const store: DatabaseDataStore
    var operations: map<LeaseId, Operation>
    var used: set<Key>
    var calls: seq<Key>
    var trace: seq<Event>

    function State(): Sys
      reads this, store
    {
      Sys(store.jobs, store.tasks, operations, used, calls)
    }

    ghost predicate Valid()
      reads this, store
    {
      State() == Run(Init(), trace)
    }

    /** The operation is at this point of its program. */
    ghost predicate Runs(lease: LeaseId, op: Operation)
      reads this, store
    {
      Valid() && lease in operations && operations[lease] == op
    }

    /** The same, on a stored schedule with these strategies. */
    ghost predicate At(lease: LeaseId, op: Operation, sched: JobRow)
      reads this, store
    {
      && Runs(lease, op) && op.job in store.jobs
      && store.jobs[op.job].creation == sched.creation && store.jobs[op.job].duplicates == sched.duplicates
    }

    constructor ()
      ensures Valid() && trace == [] && fresh(store)
    {
      store := new DatabaseDataStore();
      operations, used, calls, trace := map[], {}, [], [];
    }

    /** What was done to the store since `before` was one event. */
    method Record(e: Event, before: Sys)
      requires before == Run(Init(), trace)
      requires store.jobs == Next(before, e).jobs && store.tasks == Next(before, e).tasks
      modifies this
      ensures State() == Next(before, e) && trace == old(trace) + [e] && Valid()
    {
      hide Next, Run;
      RunAppend(Init(), trace, [e]);
      RunOne(before, e);
      var s := Next(before, e);
      operations, used, calls, trace := s.operations, s.used, s.calls, trace + [e];
    }

    /** The call that an operation waits for breaks, and changes nothing. */
    method Break(lease: LeaseId, ghost op: Operation)
      requires Runs(lease, op)
      modifies this
      ensures Runs(lease, op.(pc := Faulted(op.pc))) && trace == old(trace) + [Fault(lease)]
    {
      hide Next, Run, Faulted;
      FaultIs(State(), lease);
      Record(Fault(lease), State());
    }

    /** While one operation waits for its call, the others do whatever they do. */
    method OtherNodes(lease: LeaseId)
      requires Valid()
      modifies this, store
      ensures Valid() && old(trace) <= trace
      ensures lease in operations <==> lease in old(operations)
      ensures lease in operations ==> operations[lease] == old(operations)[lease]
      ensures KeepsJobs(old(store.jobs), store.jobs)
    {
      hide Next, Run;
      var n: nat := *;
      while n > 0
        invariant Valid() && old(trace) <= trace
        invariant lease in operations <==> lease in old(operations)
        invariant lease in operations ==> operations[lease] == old(operations)[lease]
        invariant KeepsJobs(old(store.jobs), store.jobs)
      {
        var e: Event := *;
        if Foreign(e, lease) {
          var before := State();
          NextKeepsJobs(before, e);
          NextIsForeign(before, e, lease);
          store.jobs, store.tasks := Next(before, e).jobs, Next(before, e).tasks;
          Record(e, before);
        }
        n := n - 1;
      }
    }
  }
}
