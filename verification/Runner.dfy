/** pkg/runner/runner.go: running a queue of tasks until it is empty or the context is done. */
module Runner {
  import opened Wrappers
  import opened Metadata
  import opened Events
  import opened Clusters
  import opened QueueBuilders
  import opened Tasks

  // ----- what the outcomes of the executed tasks determine -----

  predicate FitsAll(queue: seq<Task>, outs: seq<TaskOutcome>) {
    |outs| <= |queue| && forall i :: 0 <= i < |outs| ==> Fits(queue[i], outs[i])
  }

  /** The event log: each task sees the statuses left by the log so far. */
  function RunLog(queue: seq<Task>, outs: seq<TaskOutcome>): seq<Event>
    requires FitsAll(queue, outs)
  {
    if outs == [] then []
    else
      var n := |outs| - 1;
      var before := RunLog(queue, outs[..n]);
      before + TaskEvents(queue[n], outs[n], RecordAll(before))
  }

  function RunCalls(queue: seq<Task>, outs: seq<TaskOutcome>): seq<Call>
    requires FitsAll(queue, outs)
  {
    if outs == [] then [] else var n := |outs| - 1; RunCalls(queue, outs[..n]) + TaskCalls(queue[n], outs[n])
  }

  function RunOwned(owned: set<ObjectMetadata>, queue: seq<Task>, outs: seq<TaskOutcome>): set<ObjectMetadata>
    requires FitsAll(queue, outs)
  {
    if outs == [] then owned else var n := |outs| - 1; TaskOwned(RunOwned(owned, queue, outs[..n]), queue[n], outs[n])
  }

  function RunInventoryOf(inventory: Option<map<string, string>>, starting: seq<V>, queue: seq<Task>,
                          outs: seq<TaskOutcome>)
    : Option<map<string, string>>
    requires FitsAll(queue, outs)
  {
    if outs == [] then inventory
    else
      var n := |outs| - 1;
      TaskInventory(RunInventoryOf(inventory, starting, queue, outs[..n]), queue[n], outs[n],
                    RecordAll(RunLog(queue, outs[..n])), starting)
  }

  /** Every executed wait task ended as it promises, given the statuses it started with. */
  ghost predicate WaitsEnded(queue: seq<Task>, outs: seq<TaskOutcome>)
    requires FitsAll(queue, outs)
  {
    forall i :: 0 <= i < |outs| ==> WaitEndedAt(queue, outs, i)
  }

  ghost predicate WaitEndedAt(queue: seq<Task>, outs: seq<TaskOutcome>, i: nat)
    requires FitsAll(queue, outs) && i < |outs|
  {
    WaitEnded(queue[i], outs[i], RecordAll(RunLog(queue, outs[..i])))
  }

  /** The replies during one task, which decide its outcome; what a wait task reads comes from the poller. */
  ghost predicate TaskReplied(seen: seq<Reply>, filters: nat, t: Task, r: TaskOutcome)
    requires Fits(t, r)
  {
    match t
    case ApplyTask(_, _) => ApplyReplied(seen, filters, r.applied)
    case WaitTask(_) => seen == []
    case PruneTask(_, _) => seen == PruneReplies(r.deleted)
    case InventoryTask(_) => seen == [SaveReply(r.ok)]
  }

  ghost predicate RunReplied(seen: seq<Reply>, filters: nat, queue: seq<Task>, outs: seq<TaskOutcome>)
    requires FitsAll(queue, outs)
    decreases |outs|
  {
    if outs == [] then seen == []
    else
      var n := |outs| - 1;
      exists k :: 0 <= k <= |seen| && RunReplied(seen[..k], filters, queue, outs[..n])
                  && TaskReplied(seen[k..], filters, queue[n], outs[n])
  }

  lemma RunRepliedStep(seen: seq<Reply>, filters: nat, queue: seq<Task>, outs: seq<TaskOutcome>, more: seq<Reply>,
                       r: TaskOutcome)
    requires FitsAll(queue, outs) && |outs| < |queue| && Fits(queue[|outs|], r) && FitsAll(queue, outs + [r])
    requires RunReplied(seen, filters, queue, outs) && TaskReplied(more, filters, queue[|outs|], r)
    ensures RunReplied(seen + more, filters, queue, outs + [r])
  {
    var k := |seen|;
    assert (seen + more)[..k] == seen && (seen + more)[k..] == more;
    FitsStep(queue, outs, r);
  }

  // ----- running -----

  ghost predicate TaskRan(t: Task, r: TaskOutcome, seen: seq<Reply>, starting: seq<V>, from: TraceState, to: TraceState,
                          inventory: Option<map<string, string>>, inventory': Option<map<string, string>>)
    requires Fits(t, r)
  {
    && to.events == from.events + TaskEvents(t, r, RecordAll(from.events))
    && to.calls == from.calls + TaskCalls(t, r)
    && to.replies == from.replies + seen
    && to.owned <= TaskOwned(from.owned, t, r)
    && WaitEnded(t, r, RecordAll(from.events))
    && inventory' == TaskInventory(inventory, t, r, RecordAll(from.events), starting)
  }

  method RunTask(state: RunnerState, t: Task, filters: nat) returns (ghost r: TaskOutcome, ghost seen: seq<Reply>)
    requires state.Valid()
    modifies state, state.manager, state.manager.store
    modifies state.manager.store.cluster`live, state.manager.store.cluster`owned
    modifies state.manager.store.cluster`calls, state.manager.store.cluster`inventory
    modifies state.manager.store.cluster`replies
    ensures state.Valid() && Fits(t, r)
    ensures TaskRan(t, r, seen, state.manager.startingObjects, old(Trace(state)), Trace(state),
                    old(state.manager.store.cluster.inventory), state.manager.store.cluster.inventory)
    ensures TaskReplied(seen, filters, t, r)
  {
    match t
    case ApplyTask(objs, dryRun) =>
      ghost var outs;
      ghost var parts;
      outs, parts := RunApply(state, objs, dryRun, filters);
      r, seen := ApplyDone(outs), Flat(parts);
    case WaitTask(objs) =>
      var messages: seq<PollMessage> := *;
      var task := new WaitTaskRun(objs);
      ghost var received;
      var closed, resetMapper;
      received, closed, resetMapper := task.Run(state, messages);
      r, seen := WaitDone(received, closed), [];
    case PruneTask(objs, dryRun) =>
      ghost var outs := RunPrune(state, objs, dryRun);
      r, seen := PruneDone(outs), PruneReplies(outs);
    case InventoryTask(dryRun) =>
      var ok := RunInventory(state, dryRun);
      r, seen := SaveDone(ok), [SaveReply(ok)];
  }

  ghost predicate Ran(queue: seq<Task>, outs: seq<TaskOutcome>, seen: seq<Reply>, starting: seq<V>, from: TraceState,
                      to: TraceState,
                      inventory: Option<map<string, string>>, inventory': Option<map<string, string>>)
    requires FitsAll(queue, outs)
  {
    && to.events == RunLog(queue, outs)
    && to.calls == from.calls + RunCalls(queue, outs)
    && to.replies == from.replies + seen
    && to.owned <= RunOwned(from.owned, queue, outs)
    && WaitsEnded(queue, outs)
    && inventory' == RunInventoryOf(inventory, starting, queue, outs)
  }

  lemma FitsStep(queue: seq<Task>, outs: seq<TaskOutcome>, r: TaskOutcome)
    requires FitsAll(queue, outs) && |outs| < |queue| && Fits(queue[|outs|], r)
    ensures FitsAll(queue, outs + [r]) && (outs + [r])[..|outs|] == outs
  {
  }

  lemma LogStep(queue: seq<Task>, outs: seq<TaskOutcome>, r: TaskOutcome)
    requires FitsAll(queue, outs) && |outs| < |queue| && Fits(queue[|outs|], r) && FitsAll(queue, outs + [r])
    ensures RunLog(queue, outs + [r]) ==
            RunLog(queue, outs) + TaskEvents(queue[|outs|], r, RecordAll(RunLog(queue, outs)))
  {
    FitsStep(queue, outs, r);
  }

  lemma CallsStep(queue: seq<Task>, outs: seq<TaskOutcome>, r: TaskOutcome)
    requires FitsAll(queue, outs) && |outs| < |queue| && Fits(queue[|outs|], r) && FitsAll(queue, outs + [r])
    ensures RunCalls(queue, outs + [r]) == RunCalls(queue, outs) + TaskCalls(queue[|outs|], r)
  {
    FitsStep(queue, outs, r);
  }

  lemma OwnedStep(owned: set<ObjectMetadata>, queue: seq<Task>, outs: seq<TaskOutcome>, r: TaskOutcome)
    requires FitsAll(queue, outs) && |outs| < |queue| && Fits(queue[|outs|], r) && FitsAll(queue, outs + [r])
    ensures RunOwned(owned, queue, outs + [r]) == TaskOwned(RunOwned(owned, queue, outs), queue[|outs|], r)
  {
    FitsStep(queue, outs, r);
  }

  lemma InventoryStep(inventory: Option<map<string, string>>, starting: seq<V>, queue: seq<Task>,
                      outs: seq<TaskOutcome>, r: TaskOutcome)
    requires FitsAll(queue, outs) && |outs| < |queue| && Fits(queue[|outs|], r) && FitsAll(queue, outs + [r])
    ensures RunInventoryOf(inventory, starting, queue, outs + [r]) ==
            TaskInventory(RunInventoryOf(inventory, starting, queue, outs), queue[|outs|], r,
                          RecordAll(RunLog(queue, outs)), starting)
  {
    FitsStep(queue, outs, r);
  }

  lemma WaitsStep(queue: seq<Task>, outs: seq<TaskOutcome>, r: TaskOutcome)
    requires FitsAll(queue, outs) && |outs| < |queue| && Fits(queue[|outs|], r) && FitsAll(queue, outs + [r])
    requires WaitsEnded(queue, outs) && WaitEnded(queue[|outs|], r, RecordAll(RunLog(queue, outs)))
    ensures WaitsEnded(queue, outs + [r])
  {
    forall i | 0 <= i < |outs + [r]| ensures WaitEndedAt(queue, outs + [r], i) {
      assert (outs + [r])[..i] == outs[..i];
      if i < |outs| {
        assert WaitEndedAt(queue, outs, i);
      } else {
        assert outs[..i] == outs;
      }
    }
  }

  lemma OwnedIsMonotone(a: set<ObjectMetadata>, b: set<ObjectMetadata>, t: Task, r: TaskOutcome)
    requires a <= b && Fits(t, r)
    ensures TaskOwned(a, t, r) <= TaskOwned(b, t, r)
  {
  }

  lemma RanStep(queue: seq<Task>, outs: seq<TaskOutcome>, r: TaskOutcome, seen: seq<Reply>, more: seq<Reply>,
                starting: seq<V>,
                from: TraceState, mid: TraceState, to: TraceState,
                inv0: Option<map<string, string>>, inv1: Option<map<string, string>>, inv2: Option<map<string, string>>)
    requires FitsAll(queue, outs) && |outs| < |queue| && Fits(queue[|outs|], r)
    requires Ran(queue, outs, seen, starting, from, mid, inv0, inv1)
    requires TaskRan(queue[|outs|], r, more, starting, mid, to, inv1, inv2)
    ensures FitsAll(queue, outs + [r]) && Ran(queue, outs + [r], seen + more, starting, from, to, inv0, inv2)
  {
    FitsStep(queue, outs, r);
    LogStep(queue, outs, r);
    CallsStep(queue, outs, r);
    Associative(from.calls, RunCalls(queue, outs), TaskCalls(queue[|outs|], r));
    Associative(from.replies, seen, more);
    OwnedStep(from.owned, queue, outs, r);
    InventoryStep(inv0, starting, queue, outs, r);
    WaitsStep(queue, outs, r);
    OwnedIsMonotone(mid.owned, RunOwned(from.owned, queue, outs), queue[|outs|], r);
  }

  /** RunWithQueue: before each task, and before finding the queue empty, the done channel may be chosen. */
  method RunWithQueue(state: RunnerState, queue: seq<Task>, filters: nat)
    returns (cancelled: bool, ghost outs: seq<TaskOutcome>, ghost seen: seq<Reply>)
    requires state.Valid() && state.events == []
    modifies state, state.manager, state.manager.store
    modifies state.manager.store.cluster`live, state.manager.store.cluster`owned
    modifies state.manager.store.cluster`calls, state.manager.store.cluster`inventory
    modifies state.manager.store.cluster`replies
    ensures state.Valid() && FitsAll(queue, outs) && (!cancelled ==> |outs| == |queue|)
    ensures Ran(queue, outs, seen, state.manager.startingObjects, old(Trace(state)), Trace(state),
                old(state.manager.store.cluster.inventory), state.manager.store.cluster.inventory)
    ensures RunReplied(seen, filters, queue, outs)
  {
    outs, seen := [], [];
    cancelled := *;
    for i := 0 to |queue|
      invariant state.Valid() && FitsAll(queue, outs) && |outs| == i
      invariant Ran(queue, outs, seen, state.manager.startingObjects, old(Trace(state)), Trace(state),
                    old(state.manager.store.cluster.inventory), state.manager.store.cluster.inventory)
      invariant RunReplied(seen, filters, queue, outs)
    {
      if cancelled { return; }
      ghost var mid, inventory := Trace(state), state.manager.store.cluster.inventory;
      ghost var r, more := RunTask(state, queue[i], filters);
      RanStep(queue, outs, r, seen, more, state.manager.startingObjects, old(Trace(state)), mid, Trace(state),
              old(state.manager.store.cluster.inventory), inventory, state.manager.store.cluster.inventory);
      RunRepliedStep(seen, filters, queue, outs, more, r);
      outs, seen := outs + [r], seen + more;
      cancelled := *;
    }
  }
}
