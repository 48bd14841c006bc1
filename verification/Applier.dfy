/** pkg/client/applier.go: one run, from loading the inventory to the end of the queue. */
module Appliers {
  import opened Wrappers
  import opened Metadata
  import opened Events
  import opened Clusters
  import opened Inventory
  import opened Ordering
  import opened Sorting
  import opened DependencyGraphs
  import opened GroupOrder
  import opened QueueBuilders
  import opened Tasks
  import opened Runner

  // ----- what to prune -----

  /** The objects of `first`, in order, whose ids do not occur in `second`. */
  function PruneList(first: seq<V>, second: seq<V>): (r: seq<V>)
    ensures forall o :: o in r <==> o in first && !HasId(second, o.meta)
  {
    if first == [] then []
    else
      var n := |first| - 1;
      assert first == first[..n] + [first[n]];
      PruneList(first[..n], second) + if HasId(second, first[n].meta) then [] else [first[n]]
  }

  /** findObjectsToPrune */
  method FindObjectsToPrune(first: seq<V>, second: seq<V>) returns (r: seq<V>)
    ensures r == PruneList(first, second)
  {
    var firstSet: set<ObjectMetadata> := {};
    for i := 0 to |first|
      invariant forall id :: id in firstSet <==> HasId(first[..i], id)
    {
      assert first[..i + 1] == first[..i] + [first[i]];
      HasIdAppend(first[..i], first[i]);
      firstSet := firstSet + {first[i].meta};
    }
    assert first[..|first|] == first;
    for i := 0 to |second|
      invariant forall id :: id in firstSet <==> HasId(first, id) && !HasId(second[..i], id)
    {
      assert second[..i + 1] == second[..i] + [second[i]];
      HasIdAppend(second[..i], second[i]);
      firstSet := firstSet - {second[i].meta};
    }
    assert second[..|second|] == second;
    r := [];
    for i := 0 to |first|
      invariant r == PruneList(first[..i], second)
    {
      PruneListStep(first, second, i);
      assert HasId(first, first[i].meta);
      if first[i].meta in firstSet { r := r + [first[i]]; }
    }
  }

  lemma PruneListStep(first: seq<V>, second: seq<V>, i: nat)
    requires i < |first|
    ensures PruneList(first[..i + 1], second) ==
            PruneList(first[..i], second) + if HasId(second, first[i].meta) then [] else [first[i]]
  {
    assert first[..i + 1][..i] == first[..i];
  }

  /** The list is filtered in place: what is kept of two parts is kept of the whole, in the same order. */
  lemma {:induction false} PruneListAppend(a: seq<V>, b: seq<V>, second: seq<V>)
    ensures PruneList(a + b, second) == PruneList(a, second) + PruneList(b, second)
  {
    if b == [] {
      assert a + b == a;
    } else {
      var n := |b| - 1;
      assert (a + b)[..|a + b| - 1] == a + b[..n];
      PruneListAppend(a, b[..n], second);
      Associative(PruneList(a, second), PruneList(b[..n], second), if HasId(second, b[n].meta) then [] else [b[n]]);
    }
  }

  lemma HasIdAppend(objs: seq<V>, o: V)
    ensures forall x :: HasId(objs + [o], x) <==> HasId(objs, x) || x == o.meta
  {
    forall x ensures HasId(objs + [o], x) <==> HasId(objs, x) || x == o.meta {
      if HasId(objs, x) {
        var i :| 0 <= i < |objs| && objs[i].meta == x;
        assert (objs + [o])[i].meta == x;
      }
      assert (objs + [o])[|objs|] == o;
    }
  }

  // ----- the record of a run -----

  /** Where a run ended and, once the queue started, everything that was decided and answered in it. */
  datatype RunRecord =
    | NotStarted
    | Started(
        local: seq<V>,                 // the generated and mutated objects
        starting: seq<V>,              // the inventoried objects found on the cluster
        loaded: set<ObjectMetadata>,   // what was owned once they had been fetched
        prune: seq<V>,
        options: QueueOptions,
        groups: seq<seq<V>>,           // the sorted groups of the local objects
        queue: seq<Task>,
        outs: seq<TaskOutcome>,        // of the tasks executed before the run ended
        cancelled: bool)

  /** Fetching the inventory: found objects are inventoried, and a missing one is not owned any more. */
  ghost predicate FetchedFrom(stored: set<ObjectMetadata>, starting: seq<V>, owned: set<ObjectMetadata>) {
    && DistinctMetadata(starting)
    && (forall i :: 0 <= i < |starting| ==> starting[i].meta in stored)
    && (forall id :: id in stored && id in owned ==> HasId(starting, id))
  }

  /** Every id was fetched and found, or answered to be missing. */
  ghost predicate AllAnswered(ids: set<ObjectMetadata>, found: seq<V>, seen: seq<Read>) {
    forall id :: id in ids ==> HasId(found, id) || FetchRead(id, Missing) in seen
  }

  lemma AnyFailsAppend(a: seq<Read>, b: seq<Read>)
    ensures AnyFails(a + b) <==> AnyFails(a) || AnyFails(b)
  {
    assert forall x :: x in a + b <==> x in a || x in b;
  }

  /** What was decided before the queue ran, as far as safety depends on it. */
  ghost predicate Planned(w: World, r: RunRecord)
    requires r.Started?
  {
    && FetchedFrom(StoredIds(w.inventory), r.starting, r.loaded) && r.loaded <= w.owned
    && multiset(r.prune) == multiset(PruneList(r.starting, r.local))
    && r.options.prune
    && HasShape(r.queue, r.prune, r.options) && AppliesEachOnce(r.queue, r.local)
  }

  /** The effect of a run on the world. */
  ghost predicate RunStep(w: World, w': World, r: RunRecord) {
    match r
    case NotStarted => w'.owned <= w.owned && w'.inventory == w.inventory
    case Started(_, starting, loaded, _, _, _, queue, outs, _) =>
      && Planned(w, r)
      && FitsAll(queue, outs)
      && w'.owned <= RunOwned(loaded, queue, outs)
      && w'.inventory == RunInventoryOf(w.inventory, starting, queue, outs)
  }

  /** What the queue builder decided: an input it accepts, the groups of its graph, and the queue made of them. */
  ghost predicate Built(r: RunRecord)
    requires r.Started?
  {
    && Accepted(r.local)
    && IsQueueOf(r.queue, GraphOf(r.local), r.prune, r.options, r.groups)
  }

  /** Each group is sorted, and the objects to prune are sorted in reverse. */
  ghost predicate InOrder(r: RunRecord)
    requires r.Started?
  {
    GroupsInOrder(Less, r.groups) && Ordered(Flip(Less), r.prune)
  }

  function CallsOf(r: RunRecord): seq<Call>
    requires r.Started? ==> FitsAll(r.queue, r.outs)
  {
    if r.Started? then RunCalls(r.queue, r.outs) else []
  }

  /** The record tells how the queue was built, what was reported, and which answers its outcomes stand for. */
  ghost predicate Recounts(r: RunRecord, events: seq<Event>, replied: seq<Reply>, filters: nat)
    requires r.Started? ==> FitsAll(r.queue, r.outs)
  {
    if r.NotStarted? then events == [ErrorEvent] && replied == []
    else
      && Built(r) && InOrder(r) && WaitsEnded(r.queue, r.outs)
      && events == RunLog(r.queue, r.outs) + (if r.cancelled then [ErrorEvent] else [])
      && (!r.cancelled ==> |r.outs| == |r.queue|)
      && RunReplied(replied, filters, r.queue, r.outs)
  }

  // ----- the run -----

  datatype ApplierOptions = ApplierOptions(dryRun: bool, disableWait: bool)

  class Applier {
    const store: ConfigMapStore
    const filters: nat

    constructor (store: ConfigMapStore, filters: nat)
      ensures this.store == store && this.filters == filters
    {
      this.store, this.filters := store, filters;
    }

    /** loadObjectsFromInventory: any failure but a missing object fails the load. */
    method LoadObjectsFromInventory() returns (objs: Option<seq<V>>, ghost seen: seq<Read>)
      requires store.cluster.Valid()
      modifies store.cluster`live, store.cluster`owned, store.cluster`answers
      ensures store.cluster.Valid() && store.cluster.owned <= old(store.cluster.owned)
      ensures store.cluster.answers == old(store.cluster.answers) + seen
      ensures objs == None <==> AnyFails(seen)
      ensures objs.Some? ==> FetchedFrom(StoredIds(store.cluster.inventory), objs.value, store.cluster.owned)
      ensures objs.Some? ==> AllAnswered(StoredIds(store.cluster.inventory), objs.value, seen)
    {
      var ids := store.Load();
      seen := [InventoryRead(ids.Some?)];
      if ids == None {
        assert Fails(seen[0]);
        return None, seen;
      }
      assert !AnyFails(seen);
      ghost var fetched;
      objs, fetched := FetchAll(ids.value);
      AnyFailsAppend(seen, fetched);
      seen := seen + fetched;
    }

    /** The objects with these ids that are on the cluster, fetched in any order. */
    method FetchAll(ids: set<ObjectMetadata>) returns (objs: Option<seq<V>>, ghost seen: seq<Read>)
      requires store.cluster.Valid()
      modifies store.cluster`live, store.cluster`owned, store.cluster`answers
      ensures store.cluster.Valid() && store.cluster.owned <= old(store.cluster.owned)
      ensures store.cluster.answers == old(store.cluster.answers) + seen
      ensures objs == None <==> AnyFails(seen)
      ensures objs.Some? ==> FetchedFrom(ids, objs.value, store.cluster.owned) && AllAnswered(ids, objs.value, seen)
    {
      var found: seq<V> := [];
      var todo := ids;
      seen := [];
      while todo != {}
        invariant todo <= ids
        invariant store.cluster.Valid() && store.cluster.owned <= old(store.cluster.owned)
        invariant store.cluster.answers == old(store.cluster.answers) + seen && !AnyFails(seen)
        invariant FetchedFrom(ids - todo, found, store.cluster.owned) && AllAnswered(ids - todo, found, seen)
      {
        var id :| id in todo;
        var r := store.cluster.Get(id);
        AnyFailsAppend(seen, [FetchRead(id, r)]);
        seen := seen + [FetchRead(id, r)];
        if r == FetchError {
          assert Fails([FetchRead(id, r)][0]);
          return None, seen;
        }
        assert ids - (todo - {id}) == (ids - todo) + {id};
        if r.Found? {
          HasIdAppend(found, r.obj);
          found := found + [r.obj];
        }
        todo := todo - {id};
      }
      assert ids - {} == ids;
      return Some(found), seen;
    }

    /**
     * Run. `prepared` is what the generators and mutators make of the objects, None if one of them fails; they run
     * after the inventory has been loaded.
     */
    method Run(prepared: Option<seq<V>>, options: ApplierOptions)
      returns (events: seq<Event>, ghost r: RunRecord, ghost seen: seq<Read>, ghost replied: seq<Reply>)
      requires store.cluster.Valid()
      modifies store, store.cluster
      ensures store.cluster.Valid()
      ensures RunStep(old(store.cluster.State()), store.cluster.State(), r)
      ensures Recounts(r, events, replied, filters)
      ensures r.NotStarted? <==> AnyFails(seen) || prepared == None || !Buildable(prepared.value)
      ensures store.cluster.answers == old(store.cluster.answers) + seen
      ensures store.cluster.replies == old(store.cluster.replies) + replied
      ensures store.cluster.calls == old(store.cluster.calls) + CallsOf(r)
      ensures r.Started? ==> prepared == Some(r.local)
      ensures r.Started? ==> r.options.dryRun == options.dryRun && r.options.wait != options.disableWait
    {
      r, replied := NotStarted, [];
      var remote;
      remote, seen := LoadObjectsFromInventory();
      if remote == None || prepared == None { return [ErrorEvent], r, seen, []; }
      ghost var loaded := store.cluster.State();
      var queueOptions := QueueOptions(!options.disableWait, options.dryRun, true);
      events, r, replied := Execute(remote.value, prepared.value, queueOptions);
      FromEarlier(old(store.cluster.State()), loaded, store.cluster.State(), r);
    }

    /** The rest of Run, once the inventoried objects and the local ones are known. */
    method Execute(remote: seq<V>, local: seq<V>, options: QueueOptions)
      returns (events: seq<Event>, ghost r: RunRecord, ghost replied: seq<Reply>)
      requires store.cluster.Valid() && options.prune
      requires FetchedFrom(StoredIds(store.cluster.inventory), remote, store.cluster.owned)
      modifies store, store.cluster`live, store.cluster`owned, store.cluster`calls, store.cluster`inventory
      modifies store.cluster`replies
      ensures store.cluster.Valid()
      ensures RunStep(old(store.cluster.State()), store.cluster.State(), r)
      ensures r.NotStarted? <==> !Buildable(local)
      ensures Recounts(r, events, replied, filters)
      ensures r.Started? ==> r.local == local && r.options == options
      ensures store.cluster.calls == old(store.cluster.calls) + CallsOf(r)
      ensures store.cluster.replies == old(store.cluster.replies) + replied
    {
      r, replied := NotStarted, [];
      ghost var loaded := store.cluster.owned;
      var built;
      ghost var prune, groups;
      built, prune, groups := Plan(remote, local, options);
      if built.Err? { return [ErrorEvent], r, []; }
      var log, cancelled;
      ghost var outs;
      log, cancelled, outs, replied := RunQueue(remote, built.value);
      r := Started(local, remote, loaded, prune, options, groups, built.value, outs, cancelled);
      RanIsStep(old(store.cluster.State()), store.cluster.State(), r, replied, old(TraceFrom([])), TraceFrom(log));
      return log + if cancelled then [ErrorEvent] else [], r, replied;
    }

    ghost function TraceFrom(events: seq<Event>): TraceState
      reads store.cluster
    {
      TraceState(events, store.cluster.calls, store.cluster.replies, store.cluster.owned)
    }

    /** A fresh manager and runner state run the queue. */
    method RunQueue(remote: seq<V>, queue: seq<Task>)
      returns (log: seq<Event>, cancelled: bool, ghost outs: seq<TaskOutcome>, ghost replied: seq<Reply>)
      requires store.cluster.Valid()
      modifies store, store.cluster`live, store.cluster`owned, store.cluster`calls, store.cluster`inventory
      modifies store.cluster`replies
      ensures store.cluster.Valid() && FitsAll(queue, outs) && (!cancelled ==> |outs| == |queue|)
      ensures Ran(queue, outs, replied, remote, old(TraceFrom([])), TraceFrom(log),
                  old(store.cluster.inventory), store.cluster.inventory)
      ensures RunReplied(replied, filters, queue, outs)
    {
      var manager := new Manager(store, remote);
      var state := new RunnerState(manager);
      cancelled, outs, replied := RunWithQueue(state, queue, filters);
      log := state.events;
    }
  }

  /** Running a planned queue is a step of the world. */
  lemma RanIsStep(w: World, w': World, r: RunRecord, replied: seq<Reply>, from: TraceState, to: TraceState)
    requires r.Started? && r.loaded == w.owned && r.options.prune
    requires FetchedFrom(StoredIds(w.inventory), r.starting, w.owned)
    requires multiset(r.prune) == multiset(PruneList(r.starting, r.local))
    requires HasShape(r.queue, r.prune, r.options) && AppliesEachOnce(r.queue, r.local)
    requires FitsAll(r.queue, r.outs) && from.owned == w.owned && to.owned == w'.owned
    requires Ran(r.queue, r.outs, replied, r.starting, from, to, w.inventory, w'.inventory)
    ensures RunStep(w, w', r) && WaitsEnded(r.queue, r.outs)
    ensures to.events == RunLog(r.queue, r.outs) && to.calls == from.calls + CallsOf(r)
  {
  }

  /** Loading changes nothing but what other clients take away. */
  lemma FromEarlier(w: World, loaded: World, w': World, r: RunRecord)
    requires loaded.owned <= w.owned && loaded.inventory == w.inventory && RunStep(loaded, w', r)
    ensures RunStep(w, w', r)
  {
  }

  /** The prune list and the queue. */
  method Plan(remote: seq<V>, local: seq<V>, options: QueueOptions)
    returns (built: Result<seq<Task>, BuildError>, ghost prune: seq<V>, ghost groups: seq<seq<V>>)
    ensures built.Ok? <==> Buildable(local)
    ensures built.Ok? ==> IsQueueOf(built.value, GraphOf(local), prune, options, groups) && GroupsInOrder(Less, groups)
    ensures built.Ok? ==> Accepted(local)
    ensures built.Ok? ==> HasShape(built.value, prune, options) && AppliesEachOnce(built.value, local)
    ensures built.Ok? ==> multiset(prune) == multiset(PruneList(remote, local))
    ensures built.Ok? && options.prune ==> Ordered(Flip(Less), prune)
  {
    var toPrune := FindObjectsToPrune(remote, local);
    var builder := new QueueBuilder();
    builder.WithObjects(local);
    builder.WithPruneObjects(toPrune);
    built, groups := builder.Build(options);
    prune := builder.pruneObjects;
    if built.Ok? {
      AcceptedIsBuildable(local);
      QueueShape(groups, prune, options);
      InputAppliedOnce(built.value, GraphOf(local), local, prune, options, groups);
    }
  }
}
