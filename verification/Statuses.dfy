/** How the outcomes of a run show in the final statuses of the objects and in what the tool owns. */
module RunStatuses {
  import opened Wrappers
  import opened Metadata
  import opened Events
  import opened QueueBuilders
  import opened Tasks
  import opened Runner

  function StatusOf(x: ObjectOutcome): ObjectStatus {
    match x
    case Applied => ApplySuccessful
    case Filtered => WasSkipped
    case _ => ApplyFailed
  }

  /** An object that was already missing gets no status. */
  function DeleteStatus(d: PruneResult): Option<ObjectStatus> {
    match d
    case Pruned => Some(DeleteSuccessful)
    case AlreadyGone => None
    case Refused => Some(DeleteFailed)
    case Unmapped => Some(DeleteFailed)
  }

  /** The status an apply task leaves the object with, if it handled it. */
  function AppliedStatus(objs: seq<V>, outs: seq<ObjectOutcome>, o: V): Option<ObjectStatus> {
    var n := |outs| - 1;
    if outs == [] || n >= |objs| then None
    else if objs[n] == o then Some(StatusOf(outs[n]))
    else AppliedStatus(objs, outs[..n], o)
  }

  function PrunedStatus(objs: seq<V>, outs: seq<PruneResult>, o: V): Option<ObjectStatus> {
    var n := |outs| - 1;
    if outs == [] || n >= |objs| then None
    else if objs[n] == o && DeleteStatus(outs[n]).Some? then DeleteStatus(outs[n])
    else PrunedStatus(objs, outs[..n], o)
  }

  function TaskStatus(t: Task, r: TaskOutcome, o: V): Option<ObjectStatus>
    requires Fits(t, r)
  {
    match t
    case ApplyTask(objs, _) => AppliedStatus(objs, r.applied, o)
    case PruneTask(objs, _) => PrunedStatus(objs, r.deleted, o)
    case _ => None
  }

  function Lookup(st: Statuses, o: V): Option<ObjectStatus> {
    if o in st then Some(st[o]) else None
  }

  /** `later` if there is one, else `earlier`. */
  function Override(earlier: Option<ObjectStatus>, later: Option<ObjectStatus>): Option<ObjectStatus> {
    if later.Some? then later else earlier
  }

  lemma RecordTwo(log: seq<Event>, es: seq<Event>)
    requires |es| == 1 || |es| == 2
    ensures |es| == 1 ==> RecordAll(log + es) == Record(RecordAll(log), es[0])
    ensures |es| == 2 ==> RecordAll(log + es) == Record(Record(RecordAll(log), es[0]), es[1])
  {
    var first := log + [es[0]];
    RecordAllStep(log, es[0]);
    if |es| == 1 {
      assert es == [es[0]];
    } else {
      RecordAllStep(first, es[1]);
      assert es == [es[0]] + [es[1]];
      assert log + es == first + [es[1]];
    }
  }

  /** The events for one object set its status and no other. */
  lemma ApplyOneStatus(log: seq<Event>, x: V, r: ObjectOutcome, o: V)
    ensures Lookup(RecordAll(log + ApplyObjectEvents(x, r)), o) ==
            if x == o then Some(StatusOf(r)) else Lookup(RecordAll(log), o)
  {
    RecordTwo(log, ApplyObjectEvents(x, r));
  }

  lemma PruneOneStatus(log: seq<Event>, x: V, r: PruneResult, o: V)
    ensures Lookup(RecordAll(log + PruneObjectEvents(x, r)), o) ==
            Override(Lookup(RecordAll(log), o), if x == o then DeleteStatus(r) else None)
  {
    RecordTwo(log, PruneObjectEvents(x, r));
  }

  lemma {:induction false} ApplyStatus(log: seq<Event>, objs: seq<V>, outs: seq<ObjectOutcome>, o: V)
    ensures Lookup(RecordAll(log + ApplyEvents(objs, outs)), o) ==
            Override(Lookup(RecordAll(log), o), AppliedStatus(objs, outs, o))
  {
    var n := |outs| - 1;
    if outs == [] || n >= |objs| {
      assert log + [] == log;
    } else {
      var before := ApplyEvents(objs, outs[..n]);
      ApplyStatus(log, objs, outs[..n], o);
      ApplyOneStatus(log + before, objs[n], outs[n], o);
      assert log + ApplyEvents(objs, outs) == (log + before) + ApplyObjectEvents(objs[n], outs[n]);
    }
  }

  lemma {:induction false} PruneStatus(log: seq<Event>, objs: seq<V>, outs: seq<PruneResult>, o: V)
    ensures Lookup(RecordAll(log + PruneEvents(objs, outs)), o) ==
            Override(Lookup(RecordAll(log), o), PrunedStatus(objs, outs, o))
  {
    var n := |outs| - 1;
    if outs == [] || n >= |objs| {
      assert log + [] == log;
    } else {
      var before := PruneEvents(objs, outs[..n]);
      PruneStatus(log, objs, outs[..n], o);
      PruneOneStatus(log + before, objs[n], outs[n], o);
      assert log + PruneEvents(objs, outs) == (log + before) + PruneObjectEvents(objs[n], outs[n]);
    }
  }

  /** Forwarded poller messages set no status. */
  lemma {:induction false} ForwardedSetNothing(log: seq<Event>, es: seq<Event>)
    requires forall e :: e in es ==> Recorded(e) == None
    ensures RecordAll(log + es) == RecordAll(log)
  {
    if es == [] {
      assert log + es == log;
    } else {
      var n := |es| - 1;
      ForwardedSetNothing(log, es[..n]);
      assert log + es == (log + es[..n]) + [es[n]];
      RecordAllStep(log + es[..n], es[n]);
    }
  }

  lemma TaskSetsStatus(log: seq<Event>, t: Task, r: TaskOutcome, o: V)
    requires Fits(t, r)
    ensures Lookup(RecordAll(log + TaskEvents(t, r, RecordAll(log))), o) ==
            Override(Lookup(RecordAll(log), o), TaskStatus(t, r, o))
  {
    match t
    case ApplyTask(objs, _) => ApplyStatus(log, objs, r.applied, o);
    case PruneTask(objs, _) => PruneStatus(log, objs, r.deleted, o);
    case WaitTask(objs) =>
      OnlyWatchedForwarded(WatchSet(objs, RecordAll(log)), r.received);
      ForwardedSetNothing(log, Forwarded(WatchSet(objs, RecordAll(log)), r.received));
    case InventoryTask(_) =>
      ForwardedSetNothing(log, TaskEvents(t, r, RecordAll(log)));
  }

  /** The status of the object after the executed tasks. */
  function FinalStatus(queue: seq<Task>, outs: seq<TaskOutcome>, o: V): Option<ObjectStatus>
    requires FitsAll(queue, outs)
  {
    if outs == [] then None
    else
      var n := |outs| - 1;
      Override(FinalStatus(queue, outs[..n], o), TaskStatus(queue[n], outs[n], o))
  }

  /** It is the one in the manager's map. */
  lemma {:induction false} FinalStatusIsRecorded(queue: seq<Task>, outs: seq<TaskOutcome>, o: V)
    requires FitsAll(queue, outs)
    ensures Lookup(RecordAll(RunLog(queue, outs)), o) == FinalStatus(queue, outs, o)
  {
    if outs != [] {
      var n := |outs| - 1;
      FinalStatusIsRecorded(queue, outs[..n], o);
      TaskSetsStatus(RunLog(queue, outs[..n]), queue[n], outs[n], o);
    }
  }

  /** A status comes from one of the executed tasks. */
  lemma {:induction false} StatusSource(queue: seq<Task>, outs: seq<TaskOutcome>, o: V)
    requires FitsAll(queue, outs) && FinalStatus(queue, outs, o).Some?
    ensures exists i :: 0 <= i < |outs| && TaskStatus(queue[i], outs[i], o) == FinalStatus(queue, outs, o)
  {
    var n := |outs| - 1;
    if TaskStatus(queue[n], outs[n], o) == None {
      StatusSource(queue, outs[..n], o);
      var i :| 0 <= i < n && TaskStatus(queue[i], outs[..n][i], o) == FinalStatus(queue, outs[..n], o);
      assert outs[..n][i] == outs[i];
    }
  }

  /** The status set by a task stays if no other task sets one. */
  lemma {:induction false} OnlySetter(queue: seq<Task>, outs: seq<TaskOutcome>, i: nat, o: V)
    requires FitsAll(queue, outs) && i < |outs|
    requires forall k :: 0 <= k < |outs| && k != i ==> TaskStatus(queue[k], outs[k], o) == None
    requires TaskStatus(queue[i], outs[i], o).Some?
    ensures FinalStatus(queue, outs, o) == TaskStatus(queue[i], outs[i], o)
  {
    var n := |outs| - 1;
    if i < n {
      assert forall k :: 0 <= k < n ==> outs[..n][k] == outs[k];
      OnlySetter(queue, outs[..n], i, o);
    }
  }

  lemma {:induction false} AppliedStatusIs(objs: seq<V>, outs: seq<ObjectOutcome>, o: V)
    requires |outs| <= |objs|
    ensures AppliedStatus(objs, outs, o).Some? <==> o in objs[..|outs|]
    ensures AppliedStatus(objs, outs, o).Some? ==>
              exists j :: 0 <= j < |outs| && objs[j] == o && AppliedStatus(objs, outs, o) == Some(StatusOf(outs[j]))
  {
    if outs != [] {
      var n := |outs| - 1;
      AppliedStatusIs(objs, outs[..n], o);
      assert objs[..n + 1] == objs[..n] + [objs[n]];
    }
  }

  lemma {:induction false} PrunedStatusIs(objs: seq<V>, outs: seq<PruneResult>, o: V)
    requires |outs| <= |objs|
    ensures PrunedStatus(objs, outs, o).Some? <==>
            exists j :: 0 <= j < |outs| && objs[j] == o && DeleteStatus(outs[j]).Some?
    ensures PrunedStatus(objs, outs, o).Some? ==>
              exists j :: 0 <= j < |outs| && objs[j] == o && PrunedStatus(objs, outs, o) == DeleteStatus(outs[j])
  {
    if outs != [] {
      var n := |outs| - 1;
      PrunedStatusIs(objs, outs[..n], o);
      if PrunedStatus(objs, outs[..n], o).Some? {
        var j :| 0 <= j < n && objs[j] == o && PrunedStatus(objs, outs[..n], o) == DeleteStatus(outs[..n][j]);
        assert DeleteStatus(outs[j]).Some?;
      }
      if j :| 0 <= j < |outs| && objs[j] == o && DeleteStatus(outs[j]).Some? {
        if j < n { assert outs[..n][j] == outs[j]; }
      }
    }
  }

  // ----- ownership -----

  /** The id was applied for real by the executed tasks. */
  ghost predicate AppliedId(queue: seq<Task>, outs: seq<TaskOutcome>, id: ObjectMetadata)
    requires FitsAll(queue, outs)
  {
    exists i :: AppliedIdBy(queue, outs, i, id)
  }

  predicate AppliedIdBy(queue: seq<Task>, outs: seq<TaskOutcome>, i: int, id: ObjectMetadata)
    requires FitsAll(queue, outs)
  {
    0 <= i < |outs| && queue[i].ApplyTask? && !queue[i].dryRun && id in AppliedIds(queue[i].objects, outs[i].applied)
  }

  /** What is owned after a run was owned before it or applied by it. */
  lemma {:induction false} OwnedSource(owned: set<ObjectMetadata>, queue: seq<Task>, outs: seq<TaskOutcome>,
                                       id: ObjectMetadata)
    requires FitsAll(queue, outs) && id in RunOwned(owned, queue, outs)
    ensures id in owned || AppliedId(queue, outs, id)
  {
    if outs != [] {
      var n := |outs| - 1;
      if id in RunOwned(owned, queue, outs[..n]) {
        OwnedSource(owned, queue, outs[..n], id);
        if i :| AppliedIdBy(queue, outs[..n], i, id) {
          assert outs[..n][i] == outs[i];
          assert AppliedIdBy(queue, outs, i, id);
        }
      } else {
        assert AppliedIdBy(queue, outs, n, id);
      }
    }
  }

  /** What pruning found missing or deleted is not owned, unless a later task applies it. */
  lemma {:induction false} PrunedAreNotOwned(owned: set<ObjectMetadata>, queue: seq<Task>, outs: seq<TaskOutcome>,
                                             p: nat)
    requires FitsAll(queue, outs) && p < |outs| && queue[p].PruneTask?
    requires forall k :: p < k < |outs| ==> !queue[k].ApplyTask?
    ensures PrunedIds(queue[p].objects, outs[p].deleted, queue[p].dryRun) !! RunOwned(owned, queue, outs)
  {
    var n := |outs| - 1;
    if p < n {
      assert outs[..n][p] == outs[p];
      PrunedAreNotOwned(owned, queue, outs[..n], p);
    }
  }
}
