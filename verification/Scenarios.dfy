/** Runs that can happen, for any input the queue builder accepts, and the exact conditions they establish. */
module Scenarios {
  import opened Wrappers
  import opened Metadata
  import opened Objects
  import opened Clusters
  import opened Inventory
  import opened Ordering
  import opened Sorting
  import opened Layering
  import opened DependencyGraphs
  import opened GroupOrder
  import opened QueueBuilders
  import opened Tasks
  import opened Runner
  import opened Appliers
  import opened RunStatuses
  import opened Orphans

  // ----- every layer can be sorted into a group -----

  lemma InsertedAt(lt: Comparison, sorted: seq<V>, x: V) returns (k: nat)
    requires StrictTotalOrder(lt) && Ordered(lt, sorted)
    ensures k <= |sorted| && Ordered(lt, sorted[..k] + [x] + sorted[k..])
  {
    k := |sorted|;
    while k > 0 && lt(x.meta, sorted[k - 1].meta)
      invariant k <= |sorted|
      invariant forall j :: k <= j < |sorted| ==> lt(x.meta, sorted[j].meta)
    {
      k := k - 1;
    }
    InsertKeepsOrder(lt, sorted, k, x);
  }

  lemma {:induction false} GroupExists(lt: Comparison, layer: set<V>) returns (group: seq<V>)
    requires StrictTotalOrder(lt)
    ensures IsGroup(group, layer) && Ordered(lt, group)
  {
    group := [];
    if layer != {} {
      var x :| x in layer;
      var rest := GroupExists(lt, layer - {x});
      var k := InsertedAt(lt, rest, x);
      group := rest[..k] + [x] + rest[k..];
      InsertedOnce(rest, k, x);
    }
  }

  lemma InsertedOnce(rest: seq<V>, k: nat, x: V)
    requires NoDuplicates(rest) && x !in rest && k <= |rest|
    ensures NoDuplicates(rest[..k] + [x] + rest[k..])
    ensures forall o :: o in rest[..k] + [x] + rest[k..] <==> o in rest || o == x
  {
    assert rest == rest[..k] + rest[k..];
    var r := rest[..k] + [x] + rest[k..];
    forall i | 0 <= i < |r| ensures r[i] == if i < k then rest[i] else if i == k then x else rest[i - 1] {
    }
  }

  lemma {:induction false} GroupsExist(lt: Comparison, layers: seq<set<V>>) returns (groups: seq<seq<V>>)
    requires StrictTotalOrder(lt)
    ensures AreGroups(groups, layers) && GroupsInOrder(lt, groups)
  {
    groups := [];
    if layers != [] {
      var n := |layers| - 1;
      var before := GroupsExist(lt, layers[..n]);
      var last := GroupExists(lt, layers[n]);
      assert layers == layers[..n] + [layers[n]];
      AreGroupsAppend(before, layers[..n], last, layers[n]);
      InOrderAppend(lt, before, last);
      groups := before + [last];
    }
  }

  // ----- records of runs -----

  /** The groups the queue builder makes of the input. */
  ghost predicate GroupsOf(local: seq<V>, groups: seq<seq<V>>) {
    Accepted(local) && AreGroups(groups, Layers(GraphOf(local)))
  }

  lemma GroupsOfExist(local: seq<V>) returns (groups: seq<seq<V>>)
    requires Accepted(local)
    ensures GroupsOf(local, groups) && GroupsInOrder(Less, groups)
  {
    LessIsStrictTotalOrder();
    groups := GroupsExist(Less, Layers(GraphOf(local)));
  }

  function Unwaited(dryRun: bool): QueueOptions {
    QueueOptions(false, dryRun, true)
  }

  /** The record of a run without waiting, with these outcomes. */
  lemma PlannedRun(w: World, local: seq<V>, groups: seq<seq<V>>, starting: seq<V>, loaded: set<ObjectMetadata>,
                   prune: seq<V>, outs: seq<TaskOutcome>) returns (r: RunRecord)
    requires GroupsOf(local, groups) && loaded <= w.owned
    requires FetchedFrom(StoredIds(w.inventory), starting, loaded)
    requires prune == PruneList(starting, local) && |prune| <= 1
    ensures r.Started? && Planned(w, r) && Built(r)
    ensures r.local == local && r.groups == groups && r.starting == starting && r.loaded == loaded && r.prune == prune
    ensures r.options == Unwaited(false) && r.queue == QueueOf(groups, prune, r.options) && r.outs == outs
  {
    var options := Unwaited(false);
    var queue := QueueOf(groups, prune, options);
    r := Started(local, starting, loaded, prune, options, groups, queue, outs, |outs| < |queue|);
    QueueShape(groups, prune, options);
    InputAppliedOnce(queue, GraphOf(local), local, prune, options, groups);
  }

  /** A planned run may leave behind any part of what it owns at most. */
  lemma StepTo(w: World, r: RunRecord, owned: set<ObjectMetadata>) returns (w': World)
    requires r.Started? && Planned(w, r) && FitsAll(r.queue, r.outs) && owned <= RunOwned(r.loaded, r.queue, r.outs)
    ensures RunStep(w, w', r) && w'.owned == owned
    ensures w'.inventory == RunInventoryOf(w.inventory, r.starting, r.queue, r.outs)
  {
    w' := World(owned, owned, RunInventoryOf(w.inventory, r.starting, r.queue, r.outs));
  }

  /** A run on an accepted input with any outcomes that fit its queue. */
  lemma PossibleRun(w: World, local: seq<V>, groups: seq<seq<V>>, starting: seq<V>, loaded: set<ObjectMetadata>,
                    prune: seq<V>, outs: seq<TaskOutcome>, owned: set<ObjectMetadata>) returns (w': World, r: RunRecord)
    requires GroupsOf(local, groups) && loaded <= w.owned
    requires FetchedFrom(StoredIds(w.inventory), starting, loaded)
    requires prune == PruneList(starting, local) && |prune| <= 1
    requires FitsAll(QueueOf(groups, prune, Unwaited(false)), outs)
    requires owned <= RunOwned(loaded, QueueOf(groups, prune, Unwaited(false)), outs)
    ensures r.Started? && RunStep(w, w', r) && Built(r) && w'.owned == owned
    ensures r.local == local && r.groups == groups && r.prune == prune && r.outs == outs
    ensures r.options == Unwaited(false) && r.queue == QueueOf(groups, prune, r.options)
  {
    r := PlannedRun(w, local, groups, starting, loaded, prune, outs);
    w' := StepTo(w, r, owned);
  }

  /** Of a group, the chosen objects are applied and the requests for the others are rejected. */
  function ChosenApplied(group: seq<V>, chosen: set<V>): TaskOutcome {
    ApplyDone(seq(|group|, j requires 0 <= j < |group| => if group[j] in chosen then Applied else Rejected))
  }

  /** The same for every group; then come other outcomes. */
  function AllApplied(groups: seq<seq<V>>, chosen: set<V>, more: seq<TaskOutcome>): seq<TaskOutcome> {
    seq(|groups|, i requires 0 <= i < |groups| => ChosenApplied(groups[i], chosen)) + more
  }

  /** The queue of a run that waits for nothing and prunes nothing. */
  lemma UnwaitedQueue(groups: seq<seq<V>>)
    ensures var queue := QueueOf(groups, [], Unwaited(false));
            && |queue| == |groups| + 1 && queue[|groups|] == InventoryTask(false)
            && forall i :: 0 <= i < |groups| ==> queue[i] == ApplyTask(groups[i], false)
  {
    if groups != [] { GroupTaskAt(groups, Unwaited(false), 0); }
    forall i | 0 <= i < |groups| ensures GroupTasks(groups, Unwaited(false))[i] == ApplyTask(groups[i], false) {
      GroupTaskAt(groups, Unwaited(false), i);
    }
  }

  lemma OutcomesFit(groups: seq<seq<V>>, queue: seq<Task>, outs: seq<TaskOutcome>)
    requires queue == QueueOf(groups, [], Unwaited(false)) && |groups| <= |outs| <= |groups| + 1
    requires forall i :: 0 <= i < |groups| ==> outs[i].ApplyDone? && AppliesAll(groups[i], outs[i].applied)
    requires |outs| > |groups| ==> outs[|groups|].SaveDone?
    ensures FitsAll(queue, outs) && WaitsEnded(queue, outs)
  {
    UnwaitedQueue(groups);
    forall i | 0 <= i < |outs| ensures Fits(queue[i], outs[i]) && !queue[i].WaitTask? {
    }
  }

  lemma AllAppliedFits(groups: seq<seq<V>>, chosen: set<V>, more: seq<TaskOutcome>)
    requires |more| <= 1 && (more != [] ==> more[0].SaveDone?)
    ensures FitsAll(QueueOf(groups, [], Unwaited(false)), AllApplied(groups, chosen, more))
    ensures WaitsEnded(QueueOf(groups, [], Unwaited(false)), AllApplied(groups, chosen, more))
  {
    OutcomesFit(groups, QueueOf(groups, [], Unwaited(false)), AllApplied(groups, chosen, more));
  }

  /** What was applied is still owned if nothing is pruned. */
  lemma {:induction false} AppliedStayOwned(owned: set<ObjectMetadata>, queue: seq<Task>, outs: seq<TaskOutcome>,
                                            i: nat, id: ObjectMetadata)
    requires FitsAll(queue, outs) && AppliedIdBy(queue, outs, i, id)
    requires forall k :: 0 <= k < |outs| ==> !queue[k].PruneTask?
    ensures id in RunOwned(owned, queue, outs)
  {
    var n := |outs| - 1;
    if i < n {
      assert outs[..n][i] == outs[i];
      AppliedStayOwned(owned, queue, outs[..n], i, id);
    }
  }

  lemma AppliedIsOwned(owned: set<ObjectMetadata>, queue: seq<Task>, outs: seq<TaskOutcome>, id: ObjectMetadata)
    requires FitsAll(queue, outs) && AppliedId(queue, outs, id) && forall k :: 0 <= k < |outs| ==> !queue[k].PruneTask?
    ensures id in RunOwned(owned, queue, outs)
  {
    var i :| AppliedIdBy(queue, outs, i, id);
    AppliedStayOwned(owned, queue, outs, i, id);
  }

  lemma NothingPruned(groups: seq<seq<V>>, options: QueueOptions)
    ensures forall k :: 0 <= k < |QueueOf(groups, [], options)| ==> !QueueOf(groups, [], options)[k].PruneTask?
  {
    GroupTasksShape(groups, options);
  }

  lemma EveryIdIsApplied(local: seq<V>, groups: seq<seq<V>>, chosen: set<V>, queue: seq<Task>,
                         outs: seq<TaskOutcome>, o: V)
    requires GroupsOf(local, groups) && o in local && o in chosen && FitsAll(queue, outs) && |groups| <= |outs|
    requires forall i :: 0 <= i < |groups| ==> queue[i] == ApplyTask(groups[i], false)
    requires forall i :: 0 <= i < |groups| ==> outs[i] == ChosenApplied(groups[i], chosen)
    ensures AppliedId(queue, outs, o.meta)
  {
    var e := GraphOf(local);
    LayersCover(e, o);
    var k :| InLayer(e, o, k);
    assert IsGroup(groups[k], Layers(e)[k]);
    var j :| 0 <= j < |groups[k]| && groups[k][j] == o;
    assert outs[k].applied[j] == Applied;
    assert AppliedIdBy(queue, outs, k, o.meta);
  }

  lemma AllAppliedOutcomes(local: seq<V>, groups: seq<seq<V>>, chosen: set<V>, queue: seq<Task>, more: seq<TaskOutcome>)
    requires GroupsOf(local, groups) && queue == QueueOf(groups, [], Unwaited(false))
    requires more == [] || more == [SaveDone(true)]
    ensures FitsAll(queue, AllApplied(groups, chosen, more)) && WaitsEnded(queue, AllApplied(groups, chosen, more))
    ensures |queue| == |groups| + 1
    ensures forall o :: o in local && o in chosen ==> AppliedId(queue, AllApplied(groups, chosen, more), o.meta)
    ensures forall o :: o in local && o in chosen ==> o.meta in RunOwned({}, queue, AllApplied(groups, chosen, more))
  {
    AllAppliedFits(groups, chosen, more);
    UnwaitedQueue(groups);
    var outs := AllApplied(groups, chosen, more);
    forall o | o in local && o in chosen ensures AppliedId(queue, outs, o.meta) && o.meta in RunOwned({}, queue, outs) {
      EveryIdIsOwned(local, groups, chosen, queue, outs, o);
    }
  }

  lemma EveryIdIsOwned(local: seq<V>, groups: seq<seq<V>>, chosen: set<V>, queue: seq<Task>, outs: seq<TaskOutcome>,
                       o: V)
    requires GroupsOf(local, groups) && o in local && o in chosen && FitsAll(queue, outs)
    requires queue == QueueOf(groups, [], Unwaited(false)) && AllApplied(groups, chosen, []) <= outs
    ensures AppliedId(queue, outs, o.meta) && o.meta in RunOwned({}, queue, outs)
  {
    AllAppliedFits(groups, chosen, []);
    UnwaitedQueue(groups);
    EveryIdIsApplied(local, groups, chosen, queue, outs, o);
    NothingPruned(groups, Unwaited(false));
    AppliedIsOwned({}, queue, outs, o.meta);
  }

  /** The run that applies the chosen objects, and saves if it gets that far. */
  lemma AllAppliedRun(w: World, local: seq<V>, groups: seq<seq<V>>, chosen: set<V>, more: seq<TaskOutcome>,
                      owned: set<ObjectMetadata>)
    returns (w': World, r: RunRecord)
    requires GroupsOf(local, groups) && (more == [] || more == [SaveDone(true)])
    requires forall id :: id in owned ==> exists o :: o in local && o in chosen && o.meta == id
    ensures r.Started? && RunStep(w, w', r) && Built(r) && WaitsEnded(r.queue, r.outs)
    ensures r.local == local && r.groups == groups && r.prune == [] && r.options == Unwaited(false)
    ensures r.outs == AllApplied(groups, chosen, more)
    ensures r.queue == QueueOf(groups, [], r.options) && |r.queue| == |groups| + 1
    ensures w'.owned == owned && (Saved(r) <==> more != [])
    ensures forall o :: o in local && o in chosen ==> AppliedId(r.queue, r.outs, o.meta)
  {
    var outs := AllApplied(groups, chosen, more);
    AllAppliedOutcomes(local, groups, chosen, QueueOf(groups, [], Unwaited(false)), more);
    w', r := PossibleRun(w, local, groups, [], {}, [], outs, owned);
  }

  /** What Applier.Run promises about a run that starts. */
  ghost predicate IsRun(w: World, w': World, r: RunRecord) {
    r.Started? && RunStep(w, w', r) && Built(r) && InOrder(r) && WaitsEnded(r.queue, r.outs)
  }

  // ----- a run cut short -----

  /** A run on these objects that ends before it saves; other clients may act during it. */
  ghost predicate UnsavedRun(w: World, w': World, r: RunRecord, local: seq<V>, dryRun: bool) {
    && IsRun(w, w', r) && r.Started?
    && r.local == local && r.options.dryRun == dryRun && !Saved(r)
  }

  /** The run that applies everything and is cancelled before the inventory task. */
  lemma UnstoredIsForgotten(w: World, local: seq<V>, o: V) returns (w': World, r: RunRecord)
    requires Accepted(local) && o in local && o.meta !in StoredIds(w.inventory)
    ensures UnsavedRun(w, w', r, local, false) && !NoOrphans(w')
  {
    var groups := GroupsOfExist(local);
    w', r := AllAppliedRun(w, local, groups, {o}, [], {o.meta});
    ForgottenByUnsaved(w, w', r, o.meta);
  }

  lemma ForgottenByUnsaved(w: World, w': World, r: RunRecord, id: ObjectMetadata)
    requires r.Started? && RunStep(w, w', r) && !Saved(r) && id in w'.owned && id !in StoredIds(w.inventory)
    ensures !NoOrphans(w')
  {
    InventoryAfterRun(w, w', r);
  }

  /** What a run cut short can do is decided by what it is given. */
  lemma UnsavedRunIsSafe(w: World, w': World, r: RunRecord)
    requires NoOrphans(w) && RunStep(w, w', r) && r.Started? && !Saved(r)
    requires r.options.dryRun || forall o :: o in r.local ==> o.meta in StoredIds(w.inventory)
    ensures NoOrphans(w')
  {
    UnsavedRunKeepsInventory(w, w', r);
    forall id | id in w'.owned && AppliedId(r.queue, r.outs, id) ensures id in StoredIds(w.inventory) {
      var i :| AppliedIdBy(r.queue, r.outs, i, id);
      var j :| 0 <= j < |r.outs[i].applied| && r.outs[i].applied[j] == Applied && r.queue[i].objects[j].meta == id;
      assert AppliesAt(r.queue, i, r.queue[i].objects[j]);
    }
  }

  /**
   * No run on these objects that ends before it saves can leave an orphan, if and only if it is a dry run or the
   * inventory holds the ids of all of them already.
   */
  lemma UnsavedRunIsExact(w: World, local: seq<V>, dryRun: bool)
    requires NoOrphans(w) && Accepted(local)
    ensures (forall w', r :: UnsavedRun(w, w', r, local, dryRun) ==> NoOrphans(w')) <==>
            dryRun || forall o :: o in local ==> o.meta in StoredIds(w.inventory)
  {
    if dryRun || forall o :: o in local ==> o.meta in StoredIds(w.inventory) {
      forall w', r | UnsavedRun(w, w', r, local, dryRun) ensures NoOrphans(w') {
        UnsavedRunIsSafe(w, w', r);
      }
    } else {
      var o :| o in local && o.meta !in StoredIds(w.inventory);
      var w', r := UnstoredIsForgotten(w, local, o);
    }
  }

  // ----- a run that saves -----

  ghost predicate SavedRun(w: World, w': World, r: RunRecord, local: seq<V>) {
    IsRun(w, w', r) && r.Started? && r.local == local && Saved(r)
  }

  ghost predicate PutBefore(lt: Comparison, e: Edges, a: V, o: V, k: int) {
    InLayer(e, a, k) && InLayer(e, o, k) && lt(a.meta, o.meta)
  }

  /** Some object of the same layer is applied before this one, so that a bail-out can keep it from being reached. */
  ghost predicate IsBehind(lt: Comparison, e: Edges, o: V) {
    exists a, k :: PutBefore(lt, e, a, o, k)
  }

  /** Some object with the id is the first of its group, whatever the sort does. */
  ghost predicate IsReached(lt: Comparison, local: seq<V>, id: ObjectMetadata) {
    exists o :: o in local && o.meta == id && !IsBehind(lt, GraphOf(local), o)
  }

  /** An object that a complete run did not reach stands behind the one that ended its apply task. */
  lemma UnreachedIsBehind(w: World, r: RunRecord, lt: Comparison, o: V)
    requires Executed(w, r) && |r.outs| == |r.queue| && StrictTotalOrder(lt) && GroupsInOrder(lt, r.groups)
    requires IsQueueOf(r.queue, GraphOf(r.local), r.prune, r.options, r.groups)
    requires o in r.local && !IdHandled(r, o.meta)
    ensures IsBehind(lt, GraphOf(r.local), o)
  {
    var i := LocalIsApplied(w, r, o);
    assert Fits(r.queue[i], r.outs[i]);
    var j :| 0 <= j < |r.queue[i].objects| && r.queue[i].objects[j] == o;
    var p := |r.outs[i].applied| - 1;
    HandledAtIsHandled(w, r, i);
    assert p < j;
    var a := r.queue[i].objects[p];
    var e, k := GraphOf(r.local), GroupIndex(r.options, i);
    AppliedInLayer(r.queue, e, r.prune, r.options, r.groups, i, o);
    AppliedInLayer(r.queue, e, r.prune, r.options, r.groups, i, a);
    assert PutBefore(lt, e, a, o, k);
  }

  lemma HandledAtIsHandled(w: World, r: RunRecord, i: nat)
    requires Executed(w, r) && i < |r.outs| && r.queue[i].ApplyTask?
    ensures |r.outs[i].applied| <= |r.queue[i].objects|
    ensures forall j :: 0 <= j < |r.outs[i].applied| ==> IdHandled(r, r.queue[i].objects[j].meta)
  {
    assert Fits(r.queue[i], r.outs[i]);
    forall j | 0 <= j < |r.outs[i].applied| ensures IdHandled(r, r.queue[i].objects[j].meta) {
      var o := r.queue[i].objects[j];
      AppliedIsLocal(w, r, i, o);
      assert HandledAt(r, o, i, j);
    }
  }

  /** The direction that makes runs safe. */
  lemma SavedRunIsSafe(w: World, w': World, r: RunRecord)
    requires NoOrphans(w) && IsRun(w, w', r) && Saved(r) && LocalIdsWellFormed(r)
    requires forall id :: id in w.owned && HasId(r.local, id) ==> IsReached(Less, r.local, id)
    ensures NoOrphans(w')
  {
    forall id | id in w'.owned && HasId(r.local, id) ensures IdHandled(r, id) {
      if !IdHandled(r, id) {
        UnhandledWasOwned(w, w', r, id);
        var o :| o in r.local && o.meta == id && !IsBehind(Less, GraphOf(r.local), o);
        LessIsStrictTotalOrder();
        UnreachedIsBehind(w, r, Less, o);
      }
    }
    SavedRunForgets(w, w', r);
  }

  lemma UnhandledWasOwned(w: World, w': World, r: RunRecord, id: ObjectMetadata)
    requires RunStep(w, w', r) && r.Started? && id in w'.owned && !IdHandled(r, id)
    ensures id in w.owned
  {
    OwnedSource(r.loaded, r.queue, r.outs, id);
    if i :| AppliedIdBy(r.queue, r.outs, i, id) {
      HandledAtIsHandled(w, r, i);
    }
  }

  /** Every apply task ends at its first object, and the run saves. */
  function FirstUnsupported(groups: seq<seq<V>>): seq<TaskOutcome> {
    seq(|groups|, _ => ApplyDone([Unsupported])) + [SaveDone(true)]
  }

  lemma FirstUnsupportedFits(groups: seq<seq<V>>)
    requires forall k :: 0 <= k < |groups| ==> groups[k] != []
    ensures FitsAll(QueueOf(groups, [], Unwaited(false)), FirstUnsupported(groups))
    ensures WaitsEnded(QueueOf(groups, [], Unwaited(false)), FirstUnsupported(groups))
  {
    OutcomesFit(groups, QueueOf(groups, [], Unwaited(false)), FirstUnsupported(groups));
  }

  lemma {:induction false} OwnedStays(owned: set<ObjectMetadata>, queue: seq<Task>, outs: seq<TaskOutcome>)
    requires FitsAll(queue, outs) && forall k :: 0 <= k < |outs| ==> !queue[k].PruneTask?
    ensures owned <= RunOwned(owned, queue, outs)
  {
    if outs != [] { OwnedStays(owned, queue, outs[..|outs| - 1]); }
  }

  lemma FirstIsNotBehind(lt: Comparison, e: Edges, groups: seq<seq<V>>, k: nat)
    requires StrictTotalOrder(lt) && AreGroups(groups, Layers(e)) && GroupsInOrder(lt, groups)
    requires k < |groups| && groups[k] != []
    ensures !IsBehind(lt, e, groups[k][0])
  {
    var o, group := groups[k][0], groups[k];
    assert IsGroup(group, Layers(e)[k]) && o in group;
    assert InLayer(e, o, k);
    LayerIsUnique(e, o, k);
    forall a, k' ensures !PutBefore(lt, e, a, o, k') {
      if InLayer(e, a, k') && k' == k {
        var p :| 0 <= p < |group| && group[p] == a;
        assert Ordered(lt, group);
        OrderedStart(lt, group, p);
      }
    }
  }

  lemma OrderedStart(lt: Comparison, group: seq<V>, p: nat)
    requires Ordered(lt, group) && p < |group|
    ensures lt(group[p].meta, group[0].meta) ==> p == 0
  {
  }

  lemma GroupIsNotEmpty(e: Edges, groups: seq<seq<V>>, k: nat)
    requires AreGroups(groups, Layers(e)) && k < |groups|
    ensures groups[k] != [] && groups[k][0] in Layers(e)[k] && groups[k][0] in e
  {
    LayersPartition(e);
    assert IsGroup(groups[k], Layers(e)[k]);
    var x :| x in Layers(e)[k];
    assert x in groups[k];
    assert InLayer(e, groups[k][0], k);
  }

  /** If every object with the id is behind another, no group starts with one. */
  lemma NoGroupStartsWith(lt: Comparison, local: seq<V>, groups: seq<seq<V>>, id: ObjectMetadata, k: nat)
    requires StrictTotalOrder(lt) && GroupsOf(local, groups) && GroupsInOrder(lt, groups) && k < |groups|
    requires !IsReached(lt, local, id)
    ensures groups[k] != [] && groups[k][0].meta != id
  {
    GroupIsNotEmpty(GraphOf(local), groups, k);
    FirstIsNotBehind(lt, GraphOf(local), groups, k);
  }

  /** The run in which every apply task ends at its first object. */
  lemma UnreachedIsForgotten(w: World, local: seq<V>, id: ObjectMetadata) returns (w': World, r: RunRecord)
    requires NoOrphans(w) && Accepted(local) && forall o :: o in local ==> WellFormed(o.meta)
    requires id in w.owned && HasId(local, id) && !IsReached(Less, local, id)
    ensures SavedRun(w, w', r, local) && !NoOrphans(w')
  {
    var groups: seq<seq<V>> := GroupsOfExist(local);
    LessIsStrictTotalOrder();
    forall k | 0 <= k < |groups| ensures groups[k] != [] && groups[k][0].meta != id {
      NoGroupStartsWith(Less, local, groups, id, k);
    }
    w', r := FirstUnsupportedRun(w, local, groups, id);
    FirstUnsupportedHandles(r, groups, id);
    UnhandledIsForgotten(w, w', r, id);
  }

  lemma FirstUnsupportedRun(w: World, local: seq<V>, groups: seq<seq<V>>, id: ObjectMetadata) returns (w': World,
                            r: RunRecord)
    requires GroupsOf(local, groups) && id in w.owned && id in StoredIds(w.inventory) && HasId(local, id)
    requires forall k :: 0 <= k < |groups| ==> groups[k] != []
    ensures r.Started? && RunStep(w, w', r) && Built(r) && r.local == local && r.groups == groups && r.prune == []
    ensures r.options == Unwaited(false) && r.queue == QueueOf(groups, [], r.options)
    ensures r.outs == FirstUnsupported(groups) && w'.owned == {id}
  {
    var found := OneIsFound(StoredIds(w.inventory), local, id);
    FirstUnsupportedOutcomes(groups, id);
    w', r := PossibleRun(w, local, groups, found, {id}, [], FirstUnsupported(groups), {id});
  }

  /** A load that finds one stored id, which is still local. */
  lemma OneIsFound(stored: set<ObjectMetadata>, local: seq<V>, id: ObjectMetadata) returns (found: seq<V>)
    requires id in stored && HasId(local, id)
    ensures FetchedFrom(stored, found, {id}) && PruneList(found, local) == []
  {
    found := [Unstructured(0, id, None, [], map[])];
    assert found[0].meta == id;
    NothingToPrune(found, local);
  }

  lemma FirstUnsupportedOutcomes(groups: seq<seq<V>>, id: ObjectMetadata)
    requires forall k :: 0 <= k < |groups| ==> groups[k] != []
    ensures var queue, outs := QueueOf(groups, [], Unwaited(false)), FirstUnsupported(groups);
            && FitsAll(queue, outs) && WaitsEnded(queue, outs)
            && |queue| == |groups| + 1 && {id} <= RunOwned({id}, queue, outs)
  {
    FirstUnsupportedFits(groups);
    UnwaitedQueue(groups);
    NothingPruned(groups, Unwaited(false));
    OwnedStays({id}, QueueOf(groups, [], Unwaited(false)), FirstUnsupported(groups));
  }

  lemma FirstUnsupportedHandles(r: RunRecord, groups: seq<seq<V>>, id: ObjectMetadata)
    requires r.Started? && r.options == Unwaited(false) && r.queue == QueueOf(groups, [], r.options)
    requires r.outs == FirstUnsupported(groups)
    requires forall k :: 0 <= k < |groups| ==> groups[k] != [] && groups[k][0].meta != id
    ensures FitsAll(r.queue, r.outs) && WaitsEnded(r.queue, r.outs) && Saved(r) && !IdHandled(r, id)
  {
    FirstUnsupportedFits(groups);
    UnwaitedQueue(groups);
    assert forall o, i, j :: HandledAt(r, o, i, j) ==> o == groups[i][0];
  }

  lemma {:induction false} NothingToPrune(starting: seq<V>, objs: seq<V>)
    requires forall o :: o in starting ==> HasId(objs, o.meta)
    ensures PruneList(starting, objs) == []
  {
    if starting != [] { NothingToPrune(starting[..|starting| - 1], objs); }
  }

  lemma UnhandledIsForgotten(w: World, w': World, r: RunRecord, id: ObjectMetadata)
    requires NoOrphans(w) && RunStep(w, w', r) && r.Started? && Saved(r) && LocalIdsWellFormed(r)
    requires HasId(r.local, id) && id in w'.owned && !IdHandled(r, id)
    ensures !NoOrphans(w')
  {
    SavedRunForgets(w, w', r);
  }

  /** The run that applies and saves everything forgets an id that cannot be stored. */
  lemma IllFormedIsForgotten(w: World, local: seq<V>, o: V) returns (w': World, r: RunRecord)
    requires Accepted(local) && o in local && !WellFormed(o.meta)
    ensures SavedRun(w, w', r, local) && !NoOrphans(w')
  {
    var groups := GroupsOfExist(local);
    w', r := AllAppliedRun(w, local, groups, {o}, [SaveDone(true)], {o.meta});
    IllFormedIsOrphan(w', o.meta);
  }

  /**
   * No run on these objects that saves can leave an orphan, if and only if all their ids can be stored, and of every
   * owned id among them some object does not stand behind another in its group.
   */
  lemma SavedRunIsExact(w: World, local: seq<V>)
    requires NoOrphans(w) && Accepted(local)
    ensures (forall w', r :: SavedRun(w, w', r, local) ==> NoOrphans(w')) <==>
            && (forall o :: o in local ==> WellFormed(o.meta))
            && (forall id :: id in w.owned && HasId(local, id) ==> IsReached(Less, local, id))
  {
    if o :| o in local && !WellFormed(o.meta) {
      var w', r := IllFormedIsForgotten(w, local, o);
    } else if id :| id in w.owned && HasId(local, id) && !IsReached(Less, local, id) {
      var w', r := UnreachedIsForgotten(w, local, id);
    } else {
      forall w', r | SavedRun(w, w', r, local) ensures NoOrphans(w') {
        SavedRunIsSafe(w, w', r);
      }
    }
  }

  // ----- a clean run -----

  /** The promise is not empty: any accepted input with well-formed ids can be applied, owned and saved as a whole. */
  lemma CleanRunExists(w: World, local: seq<V>) returns (w': World, r: RunRecord)
    requires NoOrphans(w) && Accepted(local) && forall o :: o in local ==> WellFormed(o.meta)
    ensures IsRun(w, w', r) && r.local == local && IsClean(r)
    ensures NoOrphans(w') && w'.owned == set o | o in local :: o.meta
  {
    var groups := GroupsOfExist(local);
    var all := set o | o in local;
    w', r := AllAppliedRun(w, local, groups, all, [SaveDone(true)], set o | o in local :: o.meta);
    assert !BailedOut(r) by { NoBailOut(groups, all, r); }
    SavedRunLeavesNoOrphans(w, w', r);
  }

  lemma NoBailOut(groups: seq<seq<V>>, chosen: set<V>, r: RunRecord)
    requires r.Started? && r.queue == QueueOf(groups, [], Unwaited(false))
    requires r.outs == AllApplied(groups, chosen, [SaveDone(true)])
    ensures FitsAll(r.queue, r.outs) && !BailedOut(r)
  {
    AllAppliedFits(groups, chosen, [SaveDone(true)]);
    UnwaitedQueue(groups);
  }

  // ----- deleting what was never applied -----

  /** A run that applies only this object stores the id it is read back as. */
  lemma ReadBackIsStored(w: World, local: seq<V>, o: V, x: ObjectMetadata) returns (w': World, r: RunRecord)
    requires Accepted(local) && o in local && ReadsBackAs(o.meta, x) && x != o.meta
    ensures IsRun(w, w', r) && r.local == local && x in StoredIds(w'.inventory)
    ensures FitsAll(r.queue, r.outs) && !AppliedId(r.queue, r.outs, x)
  {
    w', r := OneAppliedRun(w, local, o, x);
    AppliedIsStored(w, w', r, o.meta, x);
  }

  /** A run that applies only this object and saves. */
  lemma OneAppliedRun(w: World, local: seq<V>, o: V, x: ObjectMetadata) returns (w': World, r: RunRecord)
    requires Accepted(local) && o in local && x != o.meta
    ensures IsRun(w, w', r) && r.local == local && Saved(r)
    ensures AppliedId(r.queue, r.outs, o.meta) && !AppliedId(r.queue, r.outs, x)
  {
    var groups := GroupsOfExist(local);
    w', r := AllAppliedRun(w, local, groups, {o}, [SaveDone(true)], {});
    OnlyChosenApplied(groups, {o}, [SaveDone(true)], r.queue, x);
  }

  lemma OnlyChosenApplied(groups: seq<seq<V>>, chosen: set<V>, more: seq<TaskOutcome>, queue: seq<Task>,
                          id: ObjectMetadata)
    requires queue == QueueOf(groups, [], Unwaited(false)) && (more == [] || more == [SaveDone(true)])
    requires forall o :: o in chosen ==> o.meta != id
    ensures FitsAll(queue, AllApplied(groups, chosen, more)) && !AppliedId(queue, AllApplied(groups, chosen, more), id)
  {
    var outs := AllApplied(groups, chosen, more);
    AllAppliedFits(groups, chosen, more);
    UnwaitedQueue(groups);
    assert forall i :: 0 <= i < |groups| ==> outs[i] == ChosenApplied(groups[i], chosen);
  }

  lemma AppliedIsStored(w: World, w': World, r: RunRecord, id: ObjectMetadata, x: ObjectMetadata)
    requires r.Started? && RunStep(w, w', r) && Saved(r) && AppliedId(r.queue, r.outs, id) && ReadsBackAs(id, x)
    ensures x in StoredIds(w'.inventory)
  {
    InventoryAfterRun(w, w', r);
    AppliedIsKept(w, r, id);
    var o :| o in FinalInventory(r) && o.meta == id;
    SavedIsReadBack(FinalInventory(r), o, x);
  }

  /** A run without objects deletes any inventoried id that it finds on the cluster. */
  lemma StoredIsDeleted(w: World, local: seq<V>, x: ObjectMetadata) returns (w': World, r: RunRecord)
    requires local == [] && x in StoredIds(w.inventory)
    ensures IsRun(w, w', r) && r.local == local && DeleteCall(x, false) in CallsOf(r)
  {
    var groups := GroupsOfEmpty(local);
    var found := [Unstructured(0, x, None, [], map[])];
    assert found[0].meta == x;
    w', r := PruneRun(w, local, groups, found);
  }

  lemma PruneRun(w: World, local: seq<V>, groups: seq<seq<V>>, found: seq<V>) returns (w': World, r: RunRecord)
    requires local == [] && groups == [] && GroupsOf(local, groups)
    requires |found| == 1 && found[0].meta in StoredIds(w.inventory)
    ensures r.Started? && RunStep(w, w', r) && Built(r) && WaitsEnded(r.queue, r.outs)
    ensures r.local == local && r.groups == groups && r.prune == found && DeleteCall(found[0].meta, false) in CallsOf(r)
  {
    OneToPrune(found, local);
    var outs := [PruneDone([Pruned])];
    OneDelete(QueueOf(groups, found, Unwaited(false)), outs, found);
    w', r := PossibleRun(w, local, groups, found, {}, found, outs, {});
  }

  lemma OneToPrune(starting: seq<V>, local: seq<V>)
    requires local == [] && |starting| == 1
    ensures PruneList(starting, local) == starting
  {
    assert starting[..0] == [];
  }

  lemma GroupsOfEmpty(local: seq<V>) returns (groups: seq<seq<V>>)
    requires local == []
    ensures GroupsOf(local, groups) && groups == []
  {
    EmptyGraph(local);
    AcceptedIsBuildable(local);
    groups := [];
  }

  lemma OneDelete(queue: seq<Task>, outs: seq<TaskOutcome>, found: seq<V>)
    requires queue == QueueOf([], found, Unwaited(false)) && |found| == 1 && outs == [PruneDone([Pruned])]
    ensures FitsAll(queue, outs) && WaitsEnded(queue, outs)
    ensures DeleteCall(found[0].meta, false) in RunCalls(queue, outs)
  {
    assert queue[0] == PruneTask(found, false);
    assert outs[..0] == [] && [Pruned][..0] == [];
  }

  /** A step of a history whose runs apply objects of the set only. */
  ghost predicate StepOn(w: World, w': World, step: Option<RunRecord>, objs: set<V>) {
    HistoryStep(w, w', step)
    && (step.Some? && step.value.Started? ==>
          IsRun(w, w', step.value) && forall o :: o in step.value.local ==> o in objs)
  }

  ghost predicate RunsOn(worlds: seq<World>, steps: seq<Option<RunRecord>>, objs: set<V>) {
    && |worlds| == |steps| + 1 && StoredIds(worlds[0].inventory) == {}
    && forall i :: 0 <= i < |steps| ==> StepOn(worlds[i], worlds[i + 1], steps[i], objs)
  }

  /** Step `n` is a run that deletes an id which no run before it applied. */
  ghost predicate DeletesForeign(steps: seq<Option<RunRecord>>, n: nat, c: Call) {
    && n < |steps| && steps[n].Some? && steps[n].value.Started? && FitsAll(steps[n].value.queue, steps[n].value.outs)
    && c.DeleteCall? && c in CallsOf(steps[n].value) && !AppliedBefore(steps, n, c.id)
  }

  lemma SecondRunDeletes(r1: RunRecord, r2: RunRecord, c: Call)
    requires r1.Started? && FitsAll(r1.queue, r1.outs) && r2.Started? && FitsAll(r2.queue, r2.outs)
    requires c.DeleteCall? && c in CallsOf(r2) && !AppliedId(r1.queue, r1.outs, c.id)
    ensures DeletesForeign([Some(r1), Some(r2)], 1, c)
  {
  }

  lemma FirstRun(w: World, local: seq<V>, o: V, x: ObjectMetadata, objs: set<V>) returns (w': World, r: RunRecord)
    requires Accepted(local) && o in local && ReadsBackAs(o.meta, x) && x != o.meta
    requires forall p :: p in local ==> p in objs
    ensures StepOn(w, w', Some(r), objs) && x in StoredIds(w'.inventory)
    ensures r.Started? && FitsAll(r.queue, r.outs) && !AppliedId(r.queue, r.outs, x)
  {
    w', r := ReadBackIsStored(w, local, o, x);
  }

  lemma SecondRun(w: World, x: ObjectMetadata, objs: set<V>) returns (w': World, r: RunRecord)
    requires x in StoredIds(w.inventory)
    ensures StepOn(w, w', Some(r), objs)
    ensures r.Started? && FitsAll(r.queue, r.outs) && DeleteCall(x, false) in CallsOf(r)
  {
    w', r := StoredIsDeleted(w, [], x);
  }

  lemma TwoSteps(w0: World, w1: World, w2: World, first: Option<RunRecord>, second: Option<RunRecord>, objs: set<V>)
    requires StoredIds(w0.inventory) == {} && StepOn(w0, w1, first, objs) && StepOn(w1, w2, second, objs)
    ensures RunsOn([w0, w1, w2], [first, second], objs)
  {
    var worlds, steps := [w0, w1, w2], [first, second];
    forall i | 0 <= i < 2 ensures StepOn(worlds[i], worlds[i + 1], steps[i], objs) {
      if i == 0 { assert steps[i] == first; } else { assert steps[i] == second; }
    }
  }

  /** Applying an object that is read back as `x`, and then nothing, deletes `x`. */
  lemma ReadBackIsDeleted(local: seq<V>, o: V, x: ObjectMetadata, objs: set<V>)
    returns (worlds: seq<World>, steps: seq<Option<RunRecord>>)
    requires Accepted(local) && o in local && ReadsBackAs(o.meta, x) && x != o.meta
    requires forall p :: p in local ==> p in objs
    ensures RunsOn(worlds, steps, objs) && DeletesForeign(steps, 1, DeleteCall(x, false))
  {
    var w0 := World({}, {}, None);
    var w1, r1 := FirstRun(w0, local, o, x, objs);
    var w2, r2 := SecondRun(w1, x, objs);
    worlds, steps := [w0, w1, w2], [Some(r1), Some(r2)];
    TwoSteps(w0, w1, w2, Some(r1), Some(r2), objs);
    SecondRunDeletes(r1, r2, DeleteCall(x, false));
  }

  /** An input the queue builder accepts, of objects of the set, one of which is misread. */
  ghost predicate MisreadInput(local: seq<V>, objs: set<V>) {
    Accepted(local) && (forall o :: o in local ==> o in objs) && exists o :: o in local && Misread(o.meta)
  }

  lemma ForeignNeedsMisread(worlds: seq<World>, steps: seq<Option<RunRecord>>, objs: set<V>, n: nat, c: Call)
    requires RunsOn(worlds, steps, objs) && DeletesForeign(steps, n, c)
    ensures exists local :: MisreadInput(local, objs)
  {
    forall i | 0 <= i < |steps| ensures HistoryStep(worlds[i], worlds[i + 1], steps[i]) {
      assert StepOn(worlds[i], worlds[i + 1], steps[i], objs);
    }
    if i :| 0 <= i < |steps| && steps[i].Some? && !NoneMisread(steps[i].value) {
      assert StepOn(worlds[i], worlds[i + 1], steps[i], objs);
      assert MisreadInput(steps[i].value.local, objs);
    } else {
      DeletesWereApplied(worlds, steps, n, c);
    }
  }

  /**
   * A tool that starts with an empty inventory and only ever gets objects of the set can delete an id it never
   * applied if and only if some accepted input of these objects holds one whose key is read back as another id.
   */
  lemma ForeignDeletesAreExact(objs: set<V>)
    ensures (exists worlds, steps, n, c :: RunsOn(worlds, steps, objs) && DeletesForeign(steps, n, c)) <==>
            exists local :: MisreadInput(local, objs)
  {
    if worlds, steps, n, c :| RunsOn(worlds, steps, objs) && DeletesForeign(steps, n, c) {
      ForeignNeedsMisread(worlds, steps, objs, n, c);
    }
    if local: seq<V> :| MisreadInput(local, objs) {
      var o: V :| o in local && Misread(o.meta);
      var x :| x != o.meta && ReadsBackAs(o.meta, x);
      var worlds, steps := ReadBackIsDeleted(local, o, x, objs);
    }
  }
}
