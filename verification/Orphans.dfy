/** What runs promise: nothing the tool owns is forgotten, and nothing is deleted that should not be. */
module Orphans {
  import opened Wrappers
  import opened Metadata
  import opened Events
  import opened Clusters
  import opened Inventory
  import opened Sorting
  import opened Layering
  import opened DependencyGraphs
  import opened GroupOrder
  import opened QueueBuilders
  import opened Tasks
  import opened Runner
  import opened Appliers
  import opened RunStatuses

  // ----- vocabulary of one run -----

  ghost predicate Executed(w: World, r: RunRecord) {
    r.Started? && Planned(w, r) && FitsAll(r.queue, r.outs)
  }

  /** The last task ran, was not a dry run, and the API server accepted the new inventory. */
  predicate Saved(r: RunRecord)
    requires r.Started?
  {
    |r.outs| == |r.queue| && r.outs != [] && r.outs[|r.outs| - 1] == SaveDone(true) && !r.options.dryRun
  }

  /** Some apply task left objects of its group unhandled, which only an unsupported media type causes. */
  ghost predicate BailedOut(r: RunRecord)
    requires r.Started? && FitsAll(r.queue, r.outs)
  {
    exists i :: 0 <= i < |r.outs| && r.queue[i].ApplyTask? && |r.outs[i].applied| < |r.queue[i].objects|
  }

  function FinalStatuses(r: RunRecord): Statuses
    requires r.Started? && FitsAll(r.queue, r.outs)
  {
    RecordAll(RunLog(r.queue, r.outs))
  }

  function FinalInventory(r: RunRecord): set<V>
    requires r.Started? && FitsAll(r.queue, r.outs)
  {
    NewInventory(FinalStatuses(r), r.starting)
  }

  /** Everything the tool owns is in the stored inventory. */
  ghost predicate NoOrphans(w: World) {
    w.owned <= StoredIds(w.inventory)
  }

  ghost predicate LocalIdsWellFormed(r: RunRecord)
    requires r.Started?
  {
    forall o :: o in r.local ==> WellFormed(o.meta)
  }

  // ----- the inventory after a run -----

  lemma {:induction false} InventoryUntouched(inventory: Option<map<string, string>>, starting: seq<V>,
                                              queue: seq<Task>, outs: seq<TaskOutcome>)
    requires FitsAll(queue, outs) && forall i :: 0 <= i < |outs| ==> !queue[i].InventoryTask?
    ensures RunInventoryOf(inventory, starting, queue, outs) == inventory
  {
    if outs != [] { InventoryUntouched(inventory, starting, queue, outs[..|outs| - 1]); }
  }

  /** A run replaces the stored inventory by the final one if it saves, and otherwise leaves it alone. */
  lemma InventoryAfterRun(w: World, w': World, r: RunRecord)
    requires RunStep(w, w', r) && r.Started?
    ensures w'.inventory == if Saved(r) then Some(DataOf(FinalInventory(r))) else w.inventory
  {
    OnlyLastSaves(r);
    if |r.outs| < |r.queue| {
      InventoryUntouched(w.inventory, r.starting, r.queue, r.outs);
    } else {
      LastTaskSaves(w.inventory, r.starting, r.queue, r.outs, r.options.dryRun);
    }
  }

  lemma OnlyLastSaves(r: RunRecord)
    requires r.Started? && HasShape(r.queue, r.prune, r.options)
    ensures r.queue != [] && r.queue[|r.queue| - 1] == InventoryTask(r.options.dryRun)
    ensures forall i :: 0 <= i < |r.queue| - 1 ==> !r.queue[i].InventoryTask?
  {
  }

  lemma LastTaskSaves(inventory: Option<map<string, string>>, starting: seq<V>, queue: seq<Task>,
                      outs: seq<TaskOutcome>, dryRun: bool)
    requires FitsAll(queue, outs) && outs != [] && |outs| == |queue| && queue[|outs| - 1] == InventoryTask(dryRun)
    requires forall i :: 0 <= i < |queue| - 1 ==> !queue[i].InventoryTask?
    ensures RunInventoryOf(inventory, starting, queue, outs) ==
            if outs[|outs| - 1] == SaveDone(true) && !dryRun
            then Some(DataOf(NewInventory(RecordAll(RunLog(queue, outs)), starting))) else inventory
  {
    var n := |outs| - 1;
    assert Fits(queue[n], outs[n]);
    InventoryUntouched(inventory, starting, queue, outs[..n]);
    SameStatuses(queue, outs);
  }

  /** The inventory task itself changes no status. */
  lemma SameStatuses(queue: seq<Task>, outs: seq<TaskOutcome>)
    requires FitsAll(queue, outs) && outs != [] && queue[|outs| - 1].InventoryTask?
    ensures RecordAll(RunLog(queue, outs)) == RecordAll(RunLog(queue, outs[..|outs| - 1]))
  {
    var n := |outs| - 1;
    var before := RunLog(queue, outs[..n]);
    ForwardedSetNothing(before, TaskEvents(queue[n], outs[n], RecordAll(before)));
  }

  // ----- local objects, prune objects -----

  lemma MemberHasId(objs: seq<V>, o: V)
    ensures o in objs ==> HasId(objs, o.meta)
  {
  }

  lemma PruneMembers(w: World, r: RunRecord, o: V)
    requires Executed(w, r)
    ensures o in r.prune <==> o in r.starting && !HasId(r.local, o.meta)
  {
    assert o in r.prune <==> o in multiset(r.prune);
    assert o in PruneList(r.starting, r.local) <==> o in multiset(PruneList(r.starting, r.local));
  }

  /** The index of the only apply task that has the object. */
  lemma LocalIsApplied(w: World, r: RunRecord, o: V) returns (i: nat)
    requires Executed(w, r) && o in r.local
    ensures AppliesAt(r.queue, i, o) && NoDuplicates(r.queue[i].objects)
    ensures forall k: nat :: AppliesAt(r.queue, k, o) ==> k == i
  {
    i :| AppliesAt(r.queue, i, o);
  }

  lemma AppliedIsLocal(w: World, r: RunRecord, i: nat, o: V)
    requires Executed(w, r) && AppliesAt(r.queue, i, o)
    ensures o in r.local && HasId(r.local, o.meta)
  {
    var j :| 0 <= j < |r.local| && r.local[j] == o;
  }

  /** The outcome of a local object decides its final status. */
  lemma LocalStatus(w: World, r: RunRecord, i: nat, j: nat)
    requires Executed(w, r) && i < |r.outs| && r.queue[i].ApplyTask? && j < |r.outs[i].applied|
    ensures FinalStatus(r.queue, r.outs, r.queue[i].objects[j]) == Some(StatusOf(r.outs[i].applied[j]))
  {
    var objs, outs := r.queue[i].objects, r.outs[i].applied;
    var o := objs[j];
    assert AppliesAt(r.queue, i, o);
    AppliedIsLocal(w, r, i, o);
    var i' := LocalIsApplied(w, r, o);
    AppliedStatusIs(objs, outs, o);
    assert o == objs[..|outs|][j];
    PruneMembers(w, r, o);
    forall k | 0 <= k < |r.outs| && k != i ensures TaskStatus(r.queue[k], r.outs[k], o) == None {
      if r.queue[k].ApplyTask? {
        assert !AppliesAt(r.queue, k, o);
        NotHandled(r.queue[k].objects, r.outs[k].applied, o);
      } else if r.queue[k].PruneTask? {
        PrunedStatusIs(r.queue[k].objects, r.outs[k].deleted, o);
      }
    }
    OnlySetter(r.queue, r.outs, i, o);
  }

  lemma NotHandled(objs: seq<V>, outs: seq<ObjectOutcome>, o: V)
    requires |outs| <= |objs| && o !in objs
    ensures AppliedStatus(objs, outs, o) == None
  {
    AppliedStatusIs(objs, outs, o);
    assert forall x :: x in objs[..|outs|] ==> x in objs;
  }

  /** Only the prune task can set the status of an object that is pruned. */
  lemma OthersSetNothing(w: World, r: RunRecord, o: V, k: nat)
    requires Executed(w, r) && o in r.prune && k < |r.outs| && !r.queue[k].PruneTask?
    ensures TaskStatus(r.queue[k], r.outs[k], o) == None
  {
    PruneMembers(w, r, o);
    if r.queue[k].ApplyTask? {
      if o in r.queue[k].objects {
        assert AppliesAt(r.queue, k, o);
        AppliedIsLocal(w, r, k, o);
      } else {
        NotHandled(r.queue[k].objects, r.outs[k].applied, o);
      }
    }
  }

  /** The prune task, once executed, and the outcome for one of its objects. */
  lemma PruneTaskResult(w: World, r: RunRecord, o: V) returns (p: nat, j: nat)
    requires Executed(w, r) && |r.outs| == |r.queue| && o in r.prune
    ensures p == |r.queue| - 2 && r.queue[p] == PruneTask(r.prune, r.options.dryRun)
    ensures p < |r.outs| && j < |r.prune| && r.prune[j] == o && |r.outs[p].deleted| == |r.prune|
    ensures FinalStatus(r.queue, r.outs, o) == PrunedStatus(r.prune, r.outs[p].deleted, o)
  {
    p := |r.queue| - 2;
    assert Fits(r.queue[p], r.outs[p]);
    j :| 0 <= j < |r.prune| && r.prune[j] == o;
    forall k | 0 <= k < |r.outs| && k != p ensures TaskStatus(r.queue[k], r.outs[k], o) == None {
      OthersSetNothing(w, r, o, k);
    }
    OneSetter(r.queue, r.outs, p, o);
  }

  /** If only one task can set the status of the object, it decides. */
  lemma OneSetter(queue: seq<Task>, outs: seq<TaskOutcome>, p: nat, o: V)
    requires FitsAll(queue, outs) && p < |outs|
    requires forall k :: 0 <= k < |outs| && k != p ==> TaskStatus(queue[k], outs[k], o) == None
    ensures FinalStatus(queue, outs, o) == TaskStatus(queue[p], outs[p], o)
  {
    if TaskStatus(queue[p], outs[p], o).Some? {
      OnlySetter(queue, outs, p, o);
    } else if FinalStatus(queue, outs, o).Some? {
      StatusSource(queue, outs, o);
    }
  }

  // ----- nothing owned is lost -----

  lemma KeptIsStored(r: RunRecord, o: V)
    requires r.Started? && FitsAll(r.queue, r.outs)
    requires FinalStatus(r.queue, r.outs, o).Some? && Keeps(FinalStatus(r.queue, r.outs, o).value, o, r.starting)
    ensures o in FinalInventory(r)
    ensures WellFormed(o.meta) ==> o.meta in StoredIds(Some(DataOf(FinalInventory(r))))
  {
    FinalStatusIsRecorded(r.queue, r.outs, o);
    SavedAreStored(FinalInventory(r));
  }

  /** An id the run applied is in its final inventory. */
  lemma AppliedIsKept(w: World, r: RunRecord, id: ObjectMetadata)
    requires Executed(w, r) && AppliedId(r.queue, r.outs, id)
    ensures exists o :: o in FinalInventory(r) && o in r.local && o.meta == id
  {
    var i :| AppliedIdBy(r.queue, r.outs, i, id);
    var j :| 0 <= j < |r.outs[i].applied| && r.outs[i].applied[j] == Applied && r.queue[i].objects[j].meta == id;
    AppliedAtIsKept(w, r, i, j);
  }

  lemma AppliedAtIsKept(w: World, r: RunRecord, i: nat, j: nat)
    requires Executed(w, r) && i < |r.outs| && r.queue[i].ApplyTask? && j < |r.outs[i].applied|
    requires r.outs[i].applied[j] == Applied
    ensures r.queue[i].objects[j] in FinalInventory(r) && r.queue[i].objects[j] in r.local
  {
    var o := r.queue[i].objects[j];
    LocalStatus(w, r, i, j);
    assert AppliesAt(r.queue, i, o);
    AppliedIsLocal(w, r, i, o);
    KeptIsStored(r, o);
  }

  /** After a complete run without bail-out, every local object was handled. */
  lemma HandledStatus(w: World, r: RunRecord, o: V)
    requires Executed(w, r) && |r.outs| == |r.queue| && !BailedOut(r) && o in r.local
    ensures FinalStatus(r.queue, r.outs, o).Some?
    ensures FinalStatus(r.queue, r.outs, o).value in {ApplySuccessful, ApplyFailed, WasSkipped}
  {
    var i := LocalIsApplied(w, r, o);
    assert Fits(r.queue[i], r.outs[i]) && |r.outs[i].applied| == |r.queue[i].objects|;
    var j :| 0 <= j < |r.queue[i].objects| && r.queue[i].objects[j] == o;
    LocalStatus(w, r, i, j);
  }

  /** A pruned object that is still owned is one whose delete failed. */
  lemma OwnedPruneFailed(w: World, r: RunRecord, o: V)
    requires Executed(w, r) && |r.outs| == |r.queue| && !r.options.dryRun && o in r.prune
    requires o.meta in RunOwned(r.loaded, r.queue, r.outs)
    ensures FinalStatus(r.queue, r.outs, o) == Some(DeleteFailed)
  {
    var p, j := PruneTaskResult(w, r, o);
    var deleted := r.outs[p].deleted;
    PrunedStatusIs(r.prune, deleted, o);
    forall k | p < k < |r.outs| ensures !r.queue[k].ApplyTask? { assert k == |r.queue| - 1; }
    PrunedAreNotOwned(r.loaded, r.queue, r.outs, p);
    NotPrunedFailed(r.prune, deleted, o);
  }

  /** If the id is not among those certainly gone, every delete of the object failed. */
  lemma NotPrunedFailed(objs: seq<V>, deleted: seq<PruneResult>, o: V)
    requires |deleted| == |objs| && o.meta !in PrunedIds(objs, deleted, false)
    ensures forall k :: 0 <= k < |deleted| && objs[k] == o ==> deleted[k] == Refused || deleted[k] == Unmapped
  {
  }

  /** Whatever is owned after a complete run without bail-out is kept by it. */
  lemma OwnedIsKept(w: World, r: RunRecord, id: ObjectMetadata)
    requires Executed(w, r) && NoOrphans(w) && |r.outs| == |r.queue| && !r.options.dryRun && !BailedOut(r)
    requires id in RunOwned(r.loaded, r.queue, r.outs)
    ensures exists o :: o in FinalInventory(r) && o.meta == id && (o in r.local || id in StoredIds(w.inventory))
  {
    OwnedSource(r.loaded, r.queue, r.outs, id);
    if AppliedId(r.queue, r.outs, id) {
      AppliedIsKept(w, r, id);
    } else {
      assert id in StoredIds(w.inventory) && HasId(r.starting, id);
      if HasId(r.local, id) {
        var k :| 0 <= k < |r.local| && r.local[k].meta == id;
        HandledStatus(w, r, r.local[k]);
        KeptIsStored(r, r.local[k]);
      } else {
        var k :| 0 <= k < |r.starting| && r.starting[k].meta == id;
        PruneMembers(w, r, r.starting[k]);
        OwnedPruneFailed(w, r, r.starting[k]);
        KeptIsStored(r, r.starting[k]);
      }
    }
  }

  /** The main step: a run that saves without bailing out, on well-formed local ids, leaves no orphan. */
  lemma SavedRunLeavesNoOrphans(w: World, w': World, r: RunRecord)
    requires NoOrphans(w) && RunStep(w, w', r) && r.Started?
    requires Saved(r) && !BailedOut(r) && LocalIdsWellFormed(r)
    ensures NoOrphans(w')
  {
    InventoryAfterRun(w, w', r);
    StoredAreWellFormed(w.inventory);
    forall id | id in w'.owned ensures id in StoredIds(w'.inventory) {
      OwnedIsKept(w, r, id);
      var o :| o in FinalInventory(r) && o.meta == id && (o in r.local || id in StoredIds(w.inventory));
      SavedAreStored(FinalInventory(r));
    }
  }

  /** A dry run changes neither the inventory nor what is owned. */
  lemma DryRunLeavesNoOrphans(w: World, w': World, r: RunRecord)
    requires NoOrphans(w) && RunStep(w, w', r) && r.Started? && r.options.dryRun
    ensures NoOrphans(w')
  {
    InventoryAfterRun(w, w', r);
    forall id | id in w'.owned ensures id in w.owned {
      OwnedSource(r.loaded, r.queue, r.outs, id);
    }
  }

  // ----- exact conditions -----

  /**
   * A run that does not save keeps the stored inventory, and leaves orphans exactly when it applied something
   * that is still owned and was not stored before.
   */
  lemma UnsavedRunKeepsInventory(w: World, w': World, r: RunRecord)
    requires NoOrphans(w) && RunStep(w, w', r) && r.Started? && !Saved(r)
    ensures w'.inventory == w.inventory
    ensures NoOrphans(w') <==>
            forall id :: id in w'.owned && AppliedId(r.queue, r.outs, id) ==> id in StoredIds(w.inventory)
  {
    InventoryAfterRun(w, w', r);
    forall id | id in w'.owned && !AppliedId(r.queue, r.outs, id) ensures id in StoredIds(w.inventory) {
      OwnedSource(r.loaded, r.queue, r.outs, id);
    }
  }

  /** Some object with the id was left with a status. */
  ghost predicate Accounted(r: RunRecord, id: ObjectMetadata)
    requires r.Started? && FitsAll(r.queue, r.outs)
  {
    exists o :: o in FinalStatuses(r) && o.meta == id
  }

  lemma StatusOrigin(w: World, r: RunRecord, o: V)
    requires Executed(w, r) && |r.outs| == |r.queue| && FinalStatus(r.queue, r.outs, o).Some?
    ensures o in r.prune
            || (o in r.local && FinalStatus(r.queue, r.outs, o).value in {ApplySuccessful, ApplyFailed, WasSkipped})
  {
    StatusSource(r.queue, r.outs, o);
    var i :| 0 <= i < |r.outs| && TaskStatus(r.queue[i], r.outs[i], o) == FinalStatus(r.queue, r.outs, o);
    assert Fits(r.queue[i], r.outs[i]);
    if r.queue[i].ApplyTask? {
      AppliedStatusIs(r.queue[i].objects, r.outs[i].applied, o);
      assert AppliesAt(r.queue, i, o);
      AppliedIsLocal(w, r, i, o);
    } else {
      PrunedStatusIs(r.queue[i].objects, r.outs[i].deleted, o);
    }
  }

  /** An owned id with a status is kept, bail-out or not. */
  lemma AccountedIsKept(w: World, r: RunRecord, id: ObjectMetadata)
    requires Executed(w, r) && NoOrphans(w) && |r.outs| == |r.queue| && !r.options.dryRun
    requires id in RunOwned(r.loaded, r.queue, r.outs) && Accounted(r, id)
    ensures exists o :: o in FinalInventory(r) && o.meta == id && (o in r.local || id in StoredIds(w.inventory))
  {
    OwnedSource(r.loaded, r.queue, r.outs, id);
    if AppliedId(r.queue, r.outs, id) {
      AppliedIsKept(w, r, id);
    } else {
      assert id in StoredIds(w.inventory) && HasId(r.starting, id);
      var o :| o in FinalStatuses(r) && o.meta == id;
      FinalStatusIsRecorded(r.queue, r.outs, o);
      StatusOrigin(w, r, o);
      if o in r.prune { OwnedPruneFailed(w, r, o); }
      KeptIsStored(r, o);
    }
  }

  /** An apply task got as far as this object. */
  ghost predicate Handled(r: RunRecord, o: V)
    requires r.Started? && FitsAll(r.queue, r.outs)
  {
    exists i, j :: HandledAt(r, o, i, j)
  }

  predicate HandledAt(r: RunRecord, o: V, i: int, j: int)
    requires r.Started? && FitsAll(r.queue, r.outs)
  {
    0 <= i < |r.outs| && r.queue[i].ApplyTask? && 0 <= j < |r.outs[i].applied| && r.queue[i].objects[j] == o
  }

  /** Of a local id, some object was handled before any bail-out. */
  ghost predicate IdHandled(r: RunRecord, id: ObjectMetadata)
    requires r.Started? && FitsAll(r.queue, r.outs)
  {
    exists o :: o in r.local && o.meta == id && Handled(r, o)
  }

  lemma HandledIsAccounted(w: World, r: RunRecord, id: ObjectMetadata)
    requires Executed(w, r) && IdHandled(r, id)
    ensures Accounted(r, id)
  {
    var o :| o in r.local && o.meta == id && Handled(r, o);
    var i, j :| HandledAt(r, o, i, j);
    LocalStatus(w, r, i, j);
    FinalStatusIsRecorded(r.queue, r.outs, o);
  }

  lemma AccountedIsHandled(w: World, r: RunRecord, id: ObjectMetadata)
    requires Executed(w, r) && |r.outs| == |r.queue| && HasId(r.local, id) && Accounted(r, id)
    ensures IdHandled(r, id)
  {
    var o :| o in FinalStatuses(r) && o.meta == id;
    FinalStatusIsRecorded(r.queue, r.outs, o);
    StatusOrigin(w, r, o);
    PruneMembers(w, r, o);
    StatusSource(r.queue, r.outs, o);
    var i :| 0 <= i < |r.outs| && TaskStatus(r.queue[i], r.outs[i], o) == FinalStatus(r.queue, r.outs, o);
    SetterIsApply(w, r, o, i);
    AppliedStatusIs(r.queue[i].objects, r.outs[i].applied, o);
    var j :| 0 <= j < |r.outs[i].applied| && r.queue[i].objects[j] == o;
    assert HandledAt(r, o, i, j);
  }

  lemma SetterIsApply(w: World, r: RunRecord, o: V, i: nat)
    requires Executed(w, r) && i < |r.outs| && TaskStatus(r.queue[i], r.outs[i], o).Some? && o !in r.prune
    ensures r.queue[i].ApplyTask? && Fits(r.queue[i], r.outs[i])
  {
    assert Fits(r.queue[i], r.outs[i]);
    if r.queue[i].PruneTask? { PrunedStatusIs(r.queue[i].objects, r.outs[i].deleted, o); }
  }

  /** An owned id that no local object has was inventoried, and its prune failed. */
  lemma ForeignIsAccounted(w: World, r: RunRecord, id: ObjectMetadata)
    requires Executed(w, r) && NoOrphans(w) && |r.outs| == |r.queue| && !r.options.dryRun
    requires id in RunOwned(r.loaded, r.queue, r.outs) && !HasId(r.local, id)
    ensures Accounted(r, id)
  {
    OwnedSource(r.loaded, r.queue, r.outs, id);
    if AppliedId(r.queue, r.outs, id) {
      AppliedIsKept(w, r, id);
    } else {
      var k :| 0 <= k < |r.starting| && r.starting[k].meta == id;
      PruneMembers(w, r, r.starting[k]);
      OwnedPruneFailed(w, r, r.starting[k]);
      FinalStatusIsRecorded(r.queue, r.outs, r.starting[k]);
    }
  }

  /**
   * A run that saves leaves orphans exactly when a still-owned id of a local object was reached by no apply task,
   * which only a bail-out causes.
   */
  lemma SavedRunForgets(w: World, w': World, r: RunRecord)
    requires NoOrphans(w) && RunStep(w, w', r) && r.Started? && Saved(r) && LocalIdsWellFormed(r)
    ensures NoOrphans(w') <==> forall id :: id in w'.owned && HasId(r.local, id) ==> IdHandled(r, id)
    ensures !NoOrphans(w') ==> BailedOut(r)
  {
    InventoryAfterRun(w, w', r);
    StoredAreWellFormed(w.inventory);
    if forall id :: id in w'.owned && HasId(r.local, id) ==> IdHandled(r, id) {
      forall id | id in w'.owned ensures id in StoredIds(w'.inventory) {
        if HasId(r.local, id) { HandledIsAccounted(w, r, id); } else { ForeignIsAccounted(w, r, id); }
        AccountedIsKept(w, r, id);
        var o :| o in FinalInventory(r) && o.meta == id && (o in r.local || id in StoredIds(w.inventory));
        SavedAreStored(FinalInventory(r));
      }
    }
    if NoOrphans(w') {
      FinalIdsWellFormed(w, r);
      StoredAreSaved(FinalInventory(r));
      forall id | id in w'.owned && HasId(r.local, id) ensures IdHandled(r, id) {
        var o :| o in FinalInventory(r) && o.meta == id;
        AccountedIsHandled(w, r, id);
      }
    }
    if !BailedOut(r) { SavedRunLeavesNoOrphans(w, w', r); }
  }

  /** Only well-formed ids can be remembered: an owned id that is not is an orphan, whatever the run does. */
  lemma IllFormedIsOrphan(w: World, id: ObjectMetadata)
    requires id in w.owned && !WellFormed(id)
    ensures !NoOrphans(w)
  {
    StoredAreWellFormed(w.inventory);
  }

  lemma FinalIdsWellFormed(w: World, r: RunRecord)
    requires Executed(w, r) && |r.outs| == |r.queue| && LocalIdsWellFormed(r)
    ensures forall o :: o in FinalInventory(r) ==> WellFormed(o.meta)
  {
    StoredAreWellFormed(w.inventory);
    forall o | o in FinalInventory(r) ensures WellFormed(o.meta) {
      FinalStatusIsRecorded(r.queue, r.outs, o);
      StatusOrigin(w, r, o);
      PruneMembers(w, r, o);
    }
  }

  // ----- any sequence of runs -----

  /** Other clients act between runs; they leave the inventory alone. */
  ghost predicate EnvironmentStep(w: World, w': World) {
    w'.owned <= w.owned && w'.inventory == w.inventory
  }

  /** The runs the promise is made for. */
  ghost predicate IsClean(r: RunRecord) {
    r.Started? ==>
      FitsAll(r.queue, r.outs) && (r.options.dryRun || (Saved(r) && !BailedOut(r) && LocalIdsWellFormed(r)))
  }

  /** A history of worlds, each step a run or an action of other clients. */
  ghost predicate History(worlds: seq<World>, steps: seq<Option<RunRecord>>) {
    && |worlds| == |steps| + 1
    && forall i :: 0 <= i < |steps| ==> HistoryStep(worlds[i], worlds[i + 1], steps[i])
  }

  ghost predicate HistoryStep(w: World, w': World, step: Option<RunRecord>) {
    match step
    case None => EnvironmentStep(w, w')
    case Some(r) => RunStep(w, w', r)
  }

  lemma CleanStepLeavesNoOrphans(w: World, w': World, step: Option<RunRecord>)
    requires NoOrphans(w) && HistoryStep(w, w', step) && (step.Some? ==> IsClean(step.value))
    ensures NoOrphans(w')
  {
    if step.Some? && step.value.Started? {
      if step.value.options.dryRun {
        DryRunLeavesNoOrphans(w, w', step.value);
      } else {
        SavedRunLeavesNoOrphans(w, w', step.value);
      }
    }
  }

  /** No orphans over any sequence of clean runs, starting from a tool that owns nothing. */
  lemma {:induction false} NoOrphansEver(worlds: seq<World>, steps: seq<Option<RunRecord>>, n: nat)
    requires History(worlds, steps) && worlds[0].owned == {} && n < |worlds|
    requires forall i :: 0 <= i < |steps| && steps[i].Some? ==> IsClean(steps[i].value)
    ensures NoOrphans(worlds[n])
  {
    if n > 0 {
      NoOrphansEver(worlds, steps, n - 1);
      assert HistoryStep(worlds[n - 1], worlds[n], steps[n - 1]);
      CleanStepLeavesNoOrphans(worlds[n - 1], worlds[n], steps[n - 1]);
    }
  }

  // ----- the content of the saved inventory -----

  /** The final inventory holds only ids that were loaded or applied, and none that was deleted. */
  lemma FinalInventoryIsSound(w: World, r: RunRecord, o: V)
    requires Executed(w, r) && |r.outs| == |r.queue| && o in FinalInventory(r)
    ensures HasId(r.starting, o.meta) || FinalStatus(r.queue, r.outs, o) == Some(ApplySuccessful)
    ensures o in r.local || o in r.prune
  {
    FinalStatusIsRecorded(r.queue, r.outs, o);
    StatusOrigin(w, r, o);
    PruneMembers(w, r, o);
  }

  /** No id whose delete succeeded in the run is in the final inventory. */
  lemma DeletedAreDropped(w: World, r: RunRecord, i: nat, j: nat, o: V)
    requires Executed(w, r) && i < |r.outs| == |r.queue| && r.queue[i].PruneTask?
    requires j < |r.outs[i].deleted| && r.outs[i].deleted[j] == Pruned
    requires o in FinalInventory(r)
    ensures o.meta != r.queue[i].objects[j].meta
  {
    var s := r.prune[j];
    PruneMembers(w, r, s);
    if o.meta == s.meta {
      FinalInventoryIsSound(w, r, o);
      MemberHasId(r.local, o);
      PruneIsDistinct(w, r);
      assert o == s;
      DeletedStatus(w, r, i, j);
      FinalStatusIsRecorded(r.queue, r.outs, s);
    }
  }

  lemma PruneIsDistinct(w: World, r: RunRecord)
    requires Executed(w, r)
    ensures DistinctMetadata(r.prune)
  {
    PruneListDistinct(r.starting, r.local);
    PermutedDistinct(PruneList(r.starting, r.local), r.prune);
  }

  lemma DeletedStatus(w: World, r: RunRecord, i: nat, j: nat)
    requires Executed(w, r) && i < |r.outs| == |r.queue| && r.queue[i].PruneTask?
    requires j < |r.outs[i].deleted| && r.outs[i].deleted[j] == Pruned
    ensures FinalStatus(r.queue, r.outs, r.prune[j]) == Some(DeleteSuccessful)
  {
    PruneIsDistinct(w, r);
    var p, _ := PruneTaskResult(w, r, r.prune[j]);
    DeletedIsRecorded(r.prune, r.outs[p].deleted, j);
  }

  lemma DeletedIsRecorded(objs: seq<V>, outs: seq<PruneResult>, j: nat)
    requires DistinctMetadata(objs) && |outs| == |objs| && j < |outs| && outs[j] == Pruned
    ensures PrunedStatus(objs, outs, objs[j]) == Some(DeleteSuccessful)
  {
    PrunedStatusIs(objs, outs, objs[j]);
    assert DeleteStatus(outs[j]).Some?;
    var k :| 0 <= k < |outs| && objs[k] == objs[j] && PrunedStatus(objs, outs, objs[j]) == DeleteStatus(outs[k]);
    assert k == j;
  }

  // ----- prune safety -----

  lemma {:induction false} CallSource(queue: seq<Task>, outs: seq<TaskOutcome>, c: Call)
    requires FitsAll(queue, outs) && c in RunCalls(queue, outs)
    ensures exists i :: 0 <= i < |outs| && c in TaskCalls(queue[i], outs[i])
  {
    var n := |outs| - 1;
    if c in RunCalls(queue, outs[..n]) {
      CallSource(queue, outs[..n], c);
      var i :| 0 <= i < n && c in TaskCalls(queue[i], outs[..n][i]);
      assert outs[..n][i] == outs[i];
    }
  }

  lemma {:induction false} PatchSource(objs: seq<V>, outs: seq<ObjectOutcome>, dryRun: bool, c: Call)
    requires c in ApplyCalls(objs, outs, dryRun)
    ensures exists o :: o in objs && c == PatchCall(o.meta, dryRun)
  {
    var n := |outs| - 1;
    if c in ApplyCalls(objs, outs[..n], dryRun) {
      PatchSource(objs, outs[..n], dryRun, c);
    } else {
      assert objs[n] in objs;
    }
  }

  lemma {:induction false} DeleteSource(objs: seq<V>, outs: seq<PruneResult>, dryRun: bool, c: Call)
    requires c in PruneCalls(objs, outs, dryRun)
    ensures exists o :: o in objs && c == DeleteCall(o.meta, dryRun)
  {
    var n := |outs| - 1;
    if c in PruneCalls(objs, outs[..n], dryRun) {
      DeleteSource(objs, outs[..n], dryRun, c);
    } else {
      assert objs[n] in objs;
    }
  }

  /**
   * Every delete is for an id that was loaded from the inventory, found on the cluster and is not the id of a
   * local object; every apply is for a local id. All of them are dry-run requests exactly if the run is a dry run.
   */
  lemma PruneSafety(w: World, r: RunRecord, c: Call)
    requires Executed(w, r) && c in CallsOf(r)
    ensures c.DeleteCall? ==> c.id in StoredIds(w.inventory) && HasId(r.starting, c.id) && !HasId(r.local, c.id)
    ensures c.PatchCall? ==> HasId(r.local, c.id)
    ensures c.dryRun == r.options.dryRun
  {
    CallSource(r.queue, r.outs, c);
    var i :| 0 <= i < |r.outs| && c in TaskCalls(r.queue[i], r.outs[i]);
    assert Fits(r.queue[i], r.outs[i]);
    if r.queue[i].ApplyTask? {
      PatchedIsLocal(w, r, i, c);
    } else {
      DeletedIsPruned(w, r, i, c);
    }
  }

  lemma CallsOfTasks(queue: seq<Task>, outs: seq<TaskOutcome>, c: Call)
    requires FitsAll(queue, outs) && outs != []
    ensures var n := |outs| - 1;
            c in RunCalls(queue, outs[..n]) || c in TaskCalls(queue[n], outs[n]) ==> c in RunCalls(queue, outs)
  {
  }

  lemma {:induction false} CallIsMade(queue: seq<Task>, outs: seq<TaskOutcome>, i: nat, c: Call)
    requires FitsAll(queue, outs) && i < |outs| && c in TaskCalls(queue[i], outs[i])
    ensures c in RunCalls(queue, outs)
  {
    CallsOfTasks(queue, outs, c);
    if i < |outs| - 1 { CallIsMade(queue, outs[..|outs| - 1], i, c); }
  }

  lemma {:induction false} DeleteIsMade(objs: seq<V>, outs: seq<PruneResult>, dryRun: bool, j: nat)
    requires |outs| <= |objs| && j < |outs| && outs[j] != Unmapped
    ensures DeleteCall(objs[j].meta, dryRun) in PruneCalls(objs, outs, dryRun)
  {
    var n := |outs| - 1;
    if j < n {
      assert outs[..n][j] == outs[j];
      DeleteIsMade(objs, outs[..n], dryRun, j);
    }
  }

  /**
   * Pruning is complete: in a run that reaches the end of its queue, every inventoried object found on the cluster
   * whose id no local object has is deleted by a request, or stays in the inventory for the next run.
   */
  lemma RemovedArePruned(w: World, r: RunRecord, o: V)
    requires Executed(w, r) && |r.outs| == |r.queue| && o in r.starting && !HasId(r.local, o.meta)
    ensures DeleteCall(o.meta, r.options.dryRun) in CallsOf(r) || o in FinalInventory(r)
  {
    PruneMembers(w, r, o);
    var p, j := PruneTaskResult(w, r, o);
    if r.outs[p].deleted[j] == Unmapped {
      PruneIsDistinct(w, r);
      UnmappedIsRecorded(r.prune, r.outs[p].deleted, j);
      KeptIsStored(r, o);
    } else {
      DeleteIsMade(r.prune, r.outs[p].deleted, r.options.dryRun, j);
      CallIsMade(r.queue, r.outs, p, DeleteCall(o.meta, r.options.dryRun));
    }
  }

  lemma {:induction false} PatchIsMade(objs: seq<V>, outs: seq<ObjectOutcome>, dryRun: bool, j: nat)
    requires |outs| <= |objs| && j < |outs| && (outs[j] == Rejected || outs[j] == Unsupported || outs[j] == Applied)
    ensures PatchCall(objs[j].meta, dryRun) in ApplyCalls(objs, outs, dryRun)
  {
    var n := |outs| - 1;
    if j < n {
      assert outs[..n][j] == outs[j];
      PatchIsMade(objs, outs[..n], dryRun, j);
    }
  }

  /** A filter failed or dropped the object, or no request could be sent for it. */
  ghost predicate WasStopped(r: RunRecord, o: V)
    requires r.Started? && FitsAll(r.queue, r.outs)
  {
    exists i, j :: HandledAt(r, o, i, j) && r.outs[i].applied[j] in {FilterFailed, Filtered, NotSent}
  }

  /** The apply task of the object ended before its turn, at an object with an unsupported media type. */
  ghost predicate WasCutOff(r: RunRecord, o: V)
    requires r.Started? && FitsAll(r.queue, r.outs)
  {
    exists i: nat :: i < |r.outs| && AppliesAt(r.queue, i, o) && o !in r.queue[i].objects[..|r.outs[i].applied|]
                     && Unsupported in r.outs[i].applied
  }

  /**
   * Applying is complete: in a run that reaches the end of its queue, an apply request is made for every local object
   * that was not stopped or cut off.
   */
  lemma LocalAreRequested(w: World, r: RunRecord, o: V)
    requires Executed(w, r) && |r.outs| == |r.queue| && o in r.local
    ensures PatchCall(o.meta, r.options.dryRun) in CallsOf(r) || WasStopped(r, o) || WasCutOff(r, o)
  {
    var i := LocalIsApplied(w, r, o);
    var applied := r.outs[i].applied;
    assert Fits(r.queue[i], r.outs[i]);
    if j :| 0 <= j < |applied| && r.queue[i].objects[j] == o {
      if applied[j] in {FilterFailed, Filtered, NotSent} {
        assert HandledAt(r, o, i, j);
      } else {
        PatchIsMade(r.queue[i].objects, applied, r.options.dryRun, j);
        CallIsMade(r.queue, r.outs, i, PatchCall(o.meta, r.options.dryRun));
      }
    } else {
      assert o !in r.queue[i].objects[..|applied|];
      assert applied[|applied| - 1] == Unsupported;
    }
  }

  lemma UnmappedIsRecorded(objs: seq<V>, outs: seq<PruneResult>, j: nat)
    requires DistinctMetadata(objs) && |outs| == |objs| && j < |outs| && outs[j] == Unmapped
    ensures PrunedStatus(objs, outs, objs[j]) == Some(DeleteFailed)
  {
    PrunedStatusIs(objs, outs, objs[j]);
    assert DeleteStatus(outs[j]).Some?;
    var k :| 0 <= k < |outs| && objs[k] == objs[j] && PrunedStatus(objs, outs, objs[j]) == DeleteStatus(outs[k]);
    assert k == j;
  }

  lemma PatchedIsLocal(w: World, r: RunRecord, i: nat, c: Call)
    requires Executed(w, r) && i < |r.outs| && r.queue[i].ApplyTask?
    requires c in ApplyCalls(r.queue[i].objects, r.outs[i].applied, r.queue[i].dryRun)
    ensures c.PatchCall? && HasId(r.local, c.id) && c.dryRun == r.options.dryRun
  {
    PatchSource(r.queue[i].objects, r.outs[i].applied, r.queue[i].dryRun, c);
    var o :| o in r.queue[i].objects && c == PatchCall(o.meta, r.queue[i].dryRun);
    assert AppliesAt(r.queue, i, o);
    AppliedIsLocal(w, r, i, o);
  }

  lemma DeletedIsPruned(w: World, r: RunRecord, i: nat, c: Call)
    requires Executed(w, r) && i < |r.outs| && r.queue[i].PruneTask?
    requires c in PruneCalls(r.queue[i].objects, r.outs[i].deleted, r.queue[i].dryRun)
    ensures c.DeleteCall? && c.id in StoredIds(w.inventory) && HasId(r.starting, c.id) && !HasId(r.local, c.id)
    ensures c.dryRun == r.options.dryRun
  {
    DeleteSource(r.prune, r.outs[i].deleted, r.queue[i].dryRun, c);
    var o :| o in r.prune && c == DeleteCall(o.meta, r.queue[i].dryRun);
    PruneMembers(w, r, o);
    var k :| 0 <= k < |r.starting| && r.starting[k] == o;
  }

  /** No run both applies and deletes one id. */
  lemma NeverAppliedAndDeleted(w: World, r: RunRecord, id: ObjectMetadata, a: bool, b: bool)
    requires Executed(w, r) && PatchCall(id, a) in CallsOf(r)
    ensures DeleteCall(id, b) !in CallsOf(r)
  {
    PruneSafety(w, r, PatchCall(id, a));
    if DeleteCall(id, b) in CallsOf(r) { PruneSafety(w, r, DeleteCall(id, b)); }
  }

  /** The prune task goes through the inventoried objects in the exact reverse of `less` order. */
  lemma PruneOrderIsReversed(r: RunRecord, sorted: seq<V>)
    requires r.Started? && DistinctMetadata(r.starting) && multiset(r.prune) == multiset(PruneList(r.starting, r.local))
    requires Ordered(Flip(Ordering.Less), r.prune)
    requires Ordered(Ordering.Less, sorted) && multiset(sorted) == multiset(PruneList(r.starting, r.local))
    ensures r.prune == Reverse(sorted)
  {
    PruneListDistinct(r.starting, r.local);
    PermutedDistinct(PruneList(r.starting, r.local), sorted);
    PermutedDistinct(PruneList(r.starting, r.local), r.prune);
    ReversedOrderIsReverse(sorted, r.prune);
  }

  lemma {:induction false} PruneListDistinct(first: seq<V>, second: seq<V>)
    requires DistinctMetadata(first)
    ensures DistinctMetadata(PruneList(first, second))
  {
    if first != [] {
      var n := |first| - 1;
      PruneListDistinct(first[..n], second);
      forall o | o in PruneList(first[..n], second) ensures o.meta != first[n].meta {
        var k :| 0 <= k < n && first[..n][k] == o;
        assert first[k] == o;
      }
    }
  }

  lemma PermutedDistinct(a: seq<V>, b: seq<V>)
    requires DistinctMetadata(a) && multiset(a) == multiset(b)
    ensures DistinctMetadata(b) && forall o :: o in a <==> o in b
  {
    PermutationKeepsDistinct(a, b);
    forall i, j | 0 <= i < j < |b| ensures b[i].meta != b[j].meta {
      assert b[i] in a && b[j] in a && b[i] != b[j];
    }
  }

  // ----- prune safety across runs -----

  ghost predicate NoneMisread(r: RunRecord) {
    r.Started? ==> forall o :: o in r.local ==> !Misread(o.meta)
  }

  ghost predicate AppliedIn(step: Option<RunRecord>, id: ObjectMetadata) {
    step.Some? && step.value.Started? && FitsAll(step.value.queue, step.value.outs)
    && AppliedId(step.value.queue, step.value.outs, id)
  }

  /** One of the first `n` steps is a run that applied the id. */
  ghost predicate AppliedBefore(steps: seq<Option<RunRecord>>, n: nat, id: ObjectMetadata)
    requires n <= |steps|
  {
    exists m :: 0 <= m < n && AppliedIn(steps[m], id)
  }

  lemma SuccessIsApplied(w: World, r: RunRecord, o: V)
    requires Executed(w, r) && !r.options.dryRun && FinalStatus(r.queue, r.outs, o) == Some(ApplySuccessful)
    ensures AppliedId(r.queue, r.outs, o.meta)
  {
    StatusSource(r.queue, r.outs, o);
    var i :| 0 <= i < |r.outs| && TaskStatus(r.queue[i], r.outs[i], o) == Some(ApplySuccessful);
    assert Fits(r.queue[i], r.outs[i]);
    if r.queue[i].PruneTask? {
      PruningAppliesNothing(r.queue[i].objects, r.outs[i].deleted, o);
    } else {
      SuccessInTask(r.queue[i].objects, r.outs[i].applied, o);
      assert AppliedIdBy(r.queue, r.outs, i, o.meta);
    }
  }

  lemma SuccessInTask(objs: seq<V>, outs: seq<ObjectOutcome>, o: V)
    requires |outs| <= |objs| && AppliedStatus(objs, outs, o) == Some(ApplySuccessful)
    ensures o.meta in AppliedIds(objs, outs)
  {
    AppliedStatusIs(objs, outs, o);
    var j :| 0 <= j < |outs| && objs[j] == o && StatusOf(outs[j]) == ApplySuccessful;
  }

  lemma PruningAppliesNothing(objs: seq<V>, outs: seq<PruneResult>, o: V)
    requires |outs| <= |objs|
    ensures PrunedStatus(objs, outs, o) != Some(ApplySuccessful)
  {
    PrunedStatusIs(objs, outs, o);
  }

  /** An object of the final inventory whose key is not misread is stored under its own id. */
  lemma FinalIsNotMisread(w: World, r: RunRecord, o: V)
    requires Executed(w, r) && |r.outs| == |r.queue| && NoneMisread(r) && o in FinalInventory(r)
    ensures !Misread(o.meta)
  {
    FinalInventoryIsSound(w, r, o);
    if o in r.prune {
      PruneMembers(w, r, o);
      var k :| 0 <= k < |r.starting| && r.starting[k] == o;
      StoredAreWellFormed(w.inventory);
      PrintThenParse(o.meta);
    }
  }

  /** What is stored after a run was stored before it or applied by it. */
  lemma StoredSource(w: World, w': World, r: RunRecord, id: ObjectMetadata)
    requires RunStep(w, w', r) && r.Started? && NoneMisread(r) && id in StoredIds(w'.inventory)
    ensures id in StoredIds(w.inventory) || AppliedId(r.queue, r.outs, id)
  {
    InventoryAfterRun(w, w', r);
    if Saved(r) {
      var key :| key in DataOf(FinalInventory(r)) && ObjectMetadataFromString(key) == Some(id);
      var o :| o in FinalInventory(r) && ToString(o.meta) == key;
      FinalIsNotMisread(w, r, o);
      assert ReadsBackAs(o.meta, id);
      FinalInventoryIsSound(w, r, o);
      if !HasId(r.starting, id) { SuccessIsApplied(w, r, o); }
    }
  }

  lemma {:induction false} StoredWereApplied(worlds: seq<World>, steps: seq<Option<RunRecord>>, n: nat,
                                             id: ObjectMetadata)
    requires History(worlds, steps) && StoredIds(worlds[0].inventory) == {} && n <= |steps|
    requires forall i :: 0 <= i < |steps| && steps[i].Some? ==> NoneMisread(steps[i].value)
    requires id in StoredIds(worlds[n].inventory)
    ensures AppliedBefore(steps, n, id)
  {
    var m := n - 1;
    assert HistoryStep(worlds[m], worlds[m + 1], steps[m]);
    if id in StoredIds(worlds[m].inventory) {
      StoredWereApplied(worlds, steps, m, id);
    } else {
      StoredSource(worlds[m], worlds[m + 1], steps[m].value, id);
      assert AppliedIn(steps[m], id);
    }
  }

  /**
   * Over any history that starts with an empty inventory, every delete is for an id that an earlier run applied,
   * provided no local id is misread. The runs need not be clean, nor even complete.
   */
  lemma DeletesWereApplied(worlds: seq<World>, steps: seq<Option<RunRecord>>, n: nat, c: Call)
    requires History(worlds, steps) && StoredIds(worlds[0].inventory) == {} && n < |steps|
    requires forall i :: 0 <= i < |steps| && steps[i].Some? ==> NoneMisread(steps[i].value)
    requires steps[n].Some? && steps[n].value.Started? && FitsAll(steps[n].value.queue, steps[n].value.outs)
    requires c in CallsOf(steps[n].value) && c.DeleteCall?
    ensures AppliedBefore(steps, n, c.id)
  {
    assert HistoryStep(worlds[n], worlds[n + 1], steps[n]);
    PruneSafety(worlds[n], steps[n].value, c);
    StoredWereApplied(worlds, steps, n, c.id);
  }

  // ----- waiting -----

  /** The apply task handled the object, but did not apply it. */
  ghost predicate WasNotApplied(r: RunRecord, j: nat, d: V)
    requires r.Started? && FitsAll(r.queue, r.outs) && j < |r.outs| && r.queue[j].ApplyTask?
  {
    exists k :: 0 <= k < |r.outs[j].applied| && r.queue[j].objects[k] == d && r.outs[j].applied[k] != Applied
  }

  /** The wait task forwarded a success for the object, or saw its poller channel close. */
  ghost predicate IsSettled(r: RunRecord, i: nat, o: V)
    requires r.Started? && FitsAll(r.queue, r.outs) && i < |r.outs| && r.queue[i].WaitTask?
  {
    var st := RecordAll(RunLog(r.queue, r.outs[..i]));
    StatusUpdateEvent(Successful, o.meta) in TaskEvents(r.queue[i], r.outs[i], st) || r.outs[i].closed
  }

  lemma WaitSettles(r: RunRecord, i: nat, o: V)
    requires r.Started? && FitsAll(r.queue, r.outs) && WaitsEnded(r.queue, r.outs)
    requires i < |r.outs| && r.queue[i].WaitTask? && o in r.queue[i].objects
    requires !SkipsWait(RecordAll(RunLog(r.queue, r.outs[..i])), o)
    ensures IsSettled(r, i, o)
  {
    var st := RecordAll(RunLog(r.queue, r.outs[..i]));
    assert WaitEndedAt(r.queue, r.outs, i);
    WatchedAreSettled(WatchSet(r.queue[i].objects, st), r.outs[i].received, o.meta);
  }

  /** No task before the one that applies the object sets a status of it. */
  lemma NoStatusBefore(r: RunRecord, e: Edges, d: V, j: nat)
    requires r.Started? && FitsAll(r.queue, r.outs) && IsQueueOf(r.queue, e, r.prune, r.options, r.groups)
    requires AppliesAt(r.queue, j, d) && j <= |r.outs|
    ensures FinalStatus(r.queue, r.outs[..j], d) == None
  {
    var outs := r.outs[..j];
    QueueShape(r.groups, r.prune, r.options);
    AppliedInLayer(r.queue, e, r.prune, r.options, r.groups, j, d);
    if FinalStatus(r.queue, outs, d).Some? {
      StatusSource(r.queue, outs, d);
      var i :| 0 <= i < j && TaskStatus(r.queue[i], outs[i], d).Some?;
      assert Fits(r.queue[i], outs[i]);
      if r.queue[i].ApplyTask? {
        AppliedStatusIs(r.queue[i].objects, outs[i].applied, d);
        AppliedInLayer(r.queue, e, r.prune, r.options, r.groups, i, d);
        LayerIsUnique(e, d, GroupIndex(r.options, i));
      }
    }
  }

  /** An object is not skipped by its wait task unless its apply task handled it without applying it. */
  lemma AppliedIsWatched(r: RunRecord, e: Edges, d: V, j: nat)
    requires r.Started? && FitsAll(r.queue, r.outs) && IsQueueOf(r.queue, e, r.prune, r.options, r.groups)
    requires AppliesAt(r.queue, j, d) && j < |r.outs| && !WasNotApplied(r, j, d)
    ensures !SkipsWait(RecordAll(RunLog(r.queue, r.outs[..j + 1])), d)
  {
    var outs := r.outs[..j + 1];
    assert outs[..j] == r.outs[..j] && outs[j] == r.outs[j];
    FinalStatusIsRecorded(r.queue, outs, d);
    NoStatusBefore(r, e, d, j);
    assert FinalStatus(r.queue, outs, d) == AppliedStatus(r.queue[j].objects, r.outs[j].applied, d);
    NotLeftUnapplied(r, j, d);
  }

  lemma NotLeftUnapplied(r: RunRecord, j: nat, d: V)
    requires r.Started? && FitsAll(r.queue, r.outs) && j < |r.outs| && r.queue[j].ApplyTask?
    requires |r.outs[j].applied| <= |r.queue[j].objects| && !WasNotApplied(r, j, d)
    ensures AppliedStatus(r.queue[j].objects, r.outs[j].applied, d) in {None, Some(ApplySuccessful)}
  {
    AppliedStatusIs(r.queue[j].objects, r.outs[j].applied, d);
  }

  /**
   * When waiting is asked for and this is no dry run: before any later apply, prune or inventory task starts, the wait
   * task of a group has run, and it settled every object of the group that the apply task did not leave unapplied.
   */
  lemma EarlierGroupsSettle(r: RunRecord, e: Edges, d: V, j: nat, i: nat)
    requires r.Started? && FitsAll(r.queue, r.outs) && WaitsEnded(r.queue, r.outs)
    requires r.options.wait && !r.options.dryRun
    requires IsQueueOf(r.queue, e, r.prune, r.options, r.groups)
    requires AppliesAt(r.queue, j, d) && j < i < |r.queue| && !r.queue[i].WaitTask? && i <= |r.outs|
    ensures j + 1 < i && r.queue[j + 1] == WaitTask(r.queue[j].objects)
    ensures WasNotApplied(r, j, d) || IsSettled(r, j + 1, d)
    ensures forall k :: 0 <= k < |r.outs[j].applied| && r.queue[j].objects[k] == d && r.outs[j].applied[k] == Applied
              ==> IsSettled(r, j + 1, d)
  {
    GroupTaskIs(r.groups, r.options, j);
    GroupTaskAt(r.groups, r.options, GroupIndex(r.options, j));
    assert r.queue[j + 1] == WaitTask(r.queue[j].objects);
    AppliedInLayer(r.queue, e, r.prune, r.options, r.groups, j, d);
    WaitAfterApply(r, e, d, j);
    forall k | 0 <= k < |r.outs[j].applied| && r.queue[j].objects[k] == d && r.outs[j].applied[k] == Applied
      ensures !WasNotApplied(r, j, d)
    {
      OneTurn(r, j, d, k);
    }
  }

  lemma OneTurn(r: RunRecord, j: nat, d: V, k: nat)
    requires r.Started? && FitsAll(r.queue, r.outs) && j < |r.outs| && r.queue[j].ApplyTask?
    requires NoDuplicates(r.queue[j].objects)
    requires k < |r.outs[j].applied| && r.queue[j].objects[k] == d && r.outs[j].applied[k] == Applied
    ensures !WasNotApplied(r, j, d)
  {
  }

  lemma WaitAfterApply(r: RunRecord, e: Edges, d: V, j: nat)
    requires r.Started? && FitsAll(r.queue, r.outs) && WaitsEnded(r.queue, r.outs)
    requires IsQueueOf(r.queue, e, r.prune, r.options, r.groups)
    requires AppliesAt(r.queue, j, d) && j + 1 < |r.outs| && r.queue[j + 1] == WaitTask(r.queue[j].objects)
    ensures WasNotApplied(r, j, d) || IsSettled(r, j + 1, d)
  {
    if !WasNotApplied(r, j, d) {
      AppliedIsWatched(r, e, d, j);
      WaitSettles(r, j + 1, d);
    }
  }

  /** In particular nothing is applied before what it depends on has been settled, or was left unapplied. */
  lemma DependenciesSettleFirst(r: RunRecord, u: V, d: V, i: nat)
    requires r.Started? && FitsAll(r.queue, r.outs) && WaitsEnded(r.queue, r.outs)
    requires r.options.wait && !r.options.dryRun
    requires IsQueueOf(r.queue, GraphOf(r.local), r.prune, r.options, r.groups) && Residue(GraphOf(r.local)) == map[]
    requires GraphBuilder.DependsOn(r.local, u, d) && AppliesAt(r.queue, i, u) && i <= |r.outs|
    ensures exists j: nat :: j + 1 < i && AppliesAt(r.queue, j, d) && r.queue[j + 1] == WaitTask(r.queue[j].objects)
                             && (WasNotApplied(r, j, d) || IsSettled(r, j + 1, d))
  {
    EdgeOfGraph(r.local, u, d);
    AppliedOnce(r.queue, GraphOf(r.local), r.prune, r.options, r.groups, d);
    var j: nat :| AppliesAt(r.queue, j, d);
    DependencyComesFirst(r.queue, GraphOf(r.local), r.prune, r.options, r.groups, u, d, i, j);
    EarlierGroupsSettle(r, GraphOf(r.local), d, j, i);
  }
}
