/** pkg/inventory/configmap.go and pkg/inventory/manager.go */
module Inventory {
  import opened Wrappers
  import opened Metadata
  import opened Events
  import opened Clusters

  // ----- the ConfigMap -----

  function IdsOf(objs: set<V>): set<ObjectMetadata> {
    set o | o in objs :: o.meta
  }

  /** What the ConfigMap holds for a set of objects. */
  function DataOf(objs: set<V>): map<string, string> {
    map o | o in objs :: ToString(o.meta) := ""
  }

  /** The ids read from a ConfigMap; keys that are not ids are ignored. */
  function StoredIds(inventory: Option<map<string, string>>): set<ObjectMetadata> {
    match inventory
    case None => {}
    case Some(data) => set k | k in data && ObjectMetadataFromString(k).Some? :: ObjectMetadataFromString(k).value
  }

  /** Loading what was saved gives back the saved ids exactly when all of them are well formed. */
  lemma SaveThenLoad(objs: set<V>)
    ensures StoredIds(Some(DataOf(objs))) == IdsOf(objs) <==> forall o :: o in objs ==> WellFormed(o.meta)
  {
    var data := DataOf(objs);
    if forall o :: o in objs ==> WellFormed(o.meta) {
      StoredAreSaved(objs);
      SavedAreStored(objs);
    }
    if StoredIds(Some(data)) == IdsOf(objs) {
      forall o | o in objs ensures WellFormed(o.meta) {
        assert o.meta in IdsOf(objs);
        StoredAreWellFormed(Some(data));
      }
    }
  }

  /** Whatever the ConfigMap holds, only well-formed ids are read from it. */
  lemma StoredAreWellFormed(inventory: Option<map<string, string>>)
    ensures forall id :: id in StoredIds(inventory) ==> WellFormed(id)
  {
    if inventory.Some? {
      forall k | k in inventory.value && ObjectMetadataFromString(k).Some?
        ensures WellFormed(ObjectMetadataFromString(k).value)
      {
        ParseThenPrint(k);
      }
    }
  }

  lemma SavedAreStored(objs: set<V>)
    ensures forall o :: o in objs && WellFormed(o.meta) ==> o.meta in StoredIds(Some(DataOf(objs)))
  {
    forall o | o in objs && WellFormed(o.meta) ensures o.meta in StoredIds(Some(DataOf(objs))) {
      PrintThenParse(o.meta);
      assert ToString(o.meta) in DataOf(objs);
    }
  }

  lemma SavedIsReadBack(objs: set<V>, o: V, x: ObjectMetadata)
    requires o in objs && ReadsBackAs(o.meta, x)
    ensures x in StoredIds(Some(DataOf(objs)))
  {
    assert ToString(o.meta) in DataOf(objs);
  }

  lemma StoredAreSaved(objs: set<V>)
    requires forall o :: o in objs ==> WellFormed(o.meta)
    ensures forall id :: id in StoredIds(Some(DataOf(objs))) ==> id in IdsOf(objs)
  {
    forall k | k in DataOf(objs) && ObjectMetadataFromString(k).Some?
      ensures ObjectMetadataFromString(k).value in IdsOf(objs)
    {
      var o :| o in objs && ToString(o.meta) == k;
      PrintThenParse(o.meta);
    }
  }

  class ConfigMapStore {
    const cluster: Cluster
    var savedObjects: set<V>

    constructor (cluster: Cluster)
      ensures this.cluster == cluster && savedObjects == {}
    {
      this.cluster, savedObjects := cluster, {};
    }

    method SetObjects(objs: set<V>)
      modifies this
      ensures savedObjects == objs
    {
      savedObjects := objs;
    }

    method DataForStore() returns (data: map<string, string>)
      ensures data == DataOf(savedObjects)
      ensures (forall o :: o in savedObjects ==> ToString(o.meta) in data)
      ensures (forall k :: k in data ==> data[k] == "" && exists o :: o in savedObjects && ToString(o.meta) == k)
    {
      data := map[];
      var todo := savedObjects;
      while todo != {}
        invariant todo <= savedObjects
        invariant data == DataOf(savedObjects - todo)
      {
        var o :| o in todo;
        assert savedObjects - (todo - {o}) == (savedObjects - todo) + {o};
        data := data[ToString(o.meta) := ""];
        todo := todo - {o};
      }
      assert savedObjects - {} == savedObjects;
    }

    /** Save: a failed or dry-run request leaves the ConfigMap as it was. */
    method Save(dryRun: bool) returns (ok: bool)
      requires cluster.Valid()
      modifies cluster`inventory, cluster`live, cluster`owned, cluster`replies
      ensures cluster.replies == old(cluster.replies) + [SaveReply(ok)]
      ensures cluster.Valid() && cluster.owned == old(cluster.owned) * cluster.live
      ensures cluster.inventory == if ok && !dryRun then Some(DataOf(savedObjects)) else old(cluster.inventory)
    {
      var data := DataForStore();
      cluster.Interfere();
      ok := *;
      cluster.replies := cluster.replies + [SaveReply(ok)];
      if ok && !dryRun { cluster.inventory := Some(data); }
    }

    /** Load: None when the ConfigMap cannot be read; a ConfigMap that does not exist is an empty inventory. */
    method Load() returns (ids: Option<set<ObjectMetadata>>)
      requires cluster.Valid()
      modifies cluster`live, cluster`owned, cluster`answers
      ensures cluster.Valid() && cluster.owned == old(cluster.owned) * cluster.live
      ensures cluster.answers == old(cluster.answers) + [InventoryRead(ids.Some?)]
      ensures ids.Some? ==> ids.value == StoredIds(cluster.inventory)
    {
      cluster.Interfere();
      var failed: bool := *;
      cluster.answers := cluster.answers + [InventoryRead(!failed)];
      if failed { return None; }
      if cluster.inventory == None { return Some({}); }
      var data := cluster.inventory.value;
      var found: set<ObjectMetadata> := {};
      var todo := data.Keys;
      while todo != {}
        invariant todo <= data.Keys
        invariant found == set k | k in data && k !in todo && ObjectMetadataFromString(k).Some?
                                 :: ObjectMetadataFromString(k).value
      {
        var k :| k in todo;
        var m := ObjectMetadataFromString(k);
        if m.Some? { found := found + {m.value}; }
        todo := todo - {k};
      }
      return Some(found);
    }
  }

  // ----- the manager -----

  predicate HasId(objs: seq<V>, id: ObjectMetadata) {
    exists i :: 0 <= i < |objs| && objs[i].meta == id
  }

  /** Whether an object with this status goes into the new inventory. */
  predicate Keeps(s: ObjectStatus, o: V, starting: seq<V>) {
    || s == ApplySuccessful
    || s == DeleteFailed
    || ((s == ApplyFailed || s == WasSkipped) && HasId(starting, o.meta))
  }

  function NewInventory(st: Statuses, starting: seq<V>): set<V> {
    set o | o in st && Keeps(st[o], o, starting)
  }

  class Manager {
    const store: ConfigMapStore
    const startingObjects: seq<V>
    var objectStatuses: Statuses

    constructor (store: ConfigMapStore, startingObjects: seq<V>)
      ensures this.store == store && this.startingObjects == startingObjects && objectStatuses == map[]
    {
      this.store, this.startingObjects, objectStatuses := store, startingObjects, map[];
    }

    method SetStatus(obj: V, status: ObjectStatus)
      modifies this
      ensures objectStatuses == old(objectStatuses)[obj := status]
    {
      objectStatuses := objectStatuses[obj := status];
    }

    method ObjectsForStatus(status: ObjectStatus) returns (objs: set<V>)
      ensures objs == set o | o in objectStatuses && objectStatuses[o] == status
    {
      objs := {};
      var todo := objectStatuses.Keys;
      while todo != {}
        invariant todo <= objectStatuses.Keys
        invariant objs == set o | o in objectStatuses && o !in todo && objectStatuses[o] == status
      {
        var o :| o in todo;
        if objectStatuses[o] == status { objs := objs + {o}; }
        todo := todo - {o};
      }
    }

    method IntersectedObjects(first: set<V>, second: seq<V>) returns (intersection: set<V>)
      ensures intersection == set o | o in first && HasId(second, o.meta)
    {
      var ids: set<ObjectMetadata> := {};
      for i := 0 to |second|
        invariant forall id :: id in ids <==> exists j :: 0 <= j < i && second[j].meta == id
      {
        ids := ids + {second[i].meta};
      }
      intersection := {};
      var todo := first;
      while todo != {}
        invariant todo <= first
        invariant intersection == set o | o in first && o !in todo && HasId(second, o.meta)
      {
        var o :| o in todo;
        if o.meta in ids { intersection := intersection + {o}; }
        todo := todo - {o};
      }
    }

    method IsFailedApply(obj: V) returns (r: bool)
      ensures r <==> obj in objectStatuses && objectStatuses[obj] == ApplyFailed
    {
      r := obj in objectStatuses && objectStatuses[obj] == ApplyFailed;
    }

    method IsSkipped(obj: V) returns (r: bool)
      ensures r <==> obj in objectStatuses && objectStatuses[obj] == WasSkipped
    {
      r := obj in objectStatuses && objectStatuses[obj] == WasSkipped;
    }

    method SaveCurrentInventoryState(dryRun: bool) returns (ok: bool)
      requires store.cluster.Valid()
      modifies store, store.cluster`inventory, store.cluster`live, store.cluster`owned, store.cluster`replies
      ensures store.cluster.replies == old(store.cluster.replies) + [SaveReply(ok)]
      ensures store.cluster.Valid() && store.cluster.owned == old(store.cluster.owned) * store.cluster.live
      ensures store.savedObjects == NewInventory(objectStatuses, startingObjects)
      ensures store.cluster.inventory ==
              if ok && !dryRun then Some(DataOf(NewInventory(objectStatuses, startingObjects)))
              else old(store.cluster.inventory)
    {
      var applied := ObjectsForStatus(ApplySuccessful);
      var deleteFailed := ObjectsForStatus(DeleteFailed);
      var failed := ObjectsForStatus(ApplyFailed);
      var applyFailed := IntersectedObjects(failed, startingObjects);
      var passed := ObjectsForStatus(WasSkipped);
      var skipped := IntersectedObjects(passed, startingObjects);
      var newInventory := applied + deleteFailed + applyFailed + skipped;
      assert newInventory == NewInventory(objectStatuses, startingObjects);
      store.SetObjects(newInventory);
      ok := store.Save(dryRun);
    }
  }

  /** The saved inventory read off the event log: the last report for each object decides. */
  lemma InventoryFromLog(log: seq<Event>, starting: seq<V>, o: V)
    ensures o in NewInventory(RecordAll(log), starting) <==>
            || LastReported(log, ApplyEvent(Successful, o))
            || LastReported(log, PruneEvent(Failed, o))
            || ((LastReported(log, ApplyEvent(Failed, o)) || LastReported(log, ApplyEvent(Skipped, o)))
                && exists i :: 0 <= i < |starting| && starting[i].meta == o.meta)
  {
    StatusIsLastReport(log, o, ApplySuccessful);
    StatusIsLastReport(log, o, DeleteFailed);
    StatusIsLastReport(log, o, ApplyFailed);
    StatusIsLastReport(log, o, WasSkipped);
  }
}
