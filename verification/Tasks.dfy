/**
 * pkg/runner/task and pkg/client/runner_state.go: the four tasks.
 *
 * Each task is an imperative method whose arbitrary answers from filters, the API server and the poller are
 * returned as a ghost outcome; everything else it does is a function of that outcome, given here.
 */
module Tasks {
  import opened Wrappers
  import opened Metadata
  import opened Objects
  import opened Events
  import opened Clusters
  import opened Inventory
  import opened QueueBuilders

  // ----- outcomes and what they determine -----

  /** `NotSent`: there was no REST mapping for the object, or it could not be encoded. */
  datatype ObjectOutcome = FilterFailed | Filtered | NotSent | Rejected | Unsupported | Applied

  /** `Unmapped`: there was no REST mapping, so nothing was sent. */
  datatype PruneResult = Unmapped | Pruned | AlreadyGone | Refused

  datatype TaskOutcome =
    | ApplyDone(applied: seq<ObjectOutcome>)
    | WaitDone(received: seq<PollMessage>, closed: bool)   // what the loop took, and whether it saw the channel close
    | PruneDone(deleted: seq<PruneResult>)
    | SaveDone(ok: bool)

  /** A poller sends status updates and errors. */
  type PollMessage = e: Event | e.StatusUpdateEvent? || e.ErrorEvent? witness ErrorEvent

  function ApplyObjectEvents(o: V, r: ObjectOutcome): seq<Event> {
    match r
    case FilterFailed => [ApplyEvent(Failed, o)]
    case Filtered => [ApplyEvent(Skipped, o)]
    case NotSent => [ApplyEvent(Pending, o), ApplyEvent(Failed, o)]
    case Rejected => [ApplyEvent(Pending, o), ApplyEvent(Failed, o)]
    case Unsupported => [ApplyEvent(Pending, o), ApplyEvent(Failed, o)]
    case Applied => [ApplyEvent(Pending, o), ApplyEvent(Successful, o)]
  }

  function ApplyEvents(objs: seq<V>, outs: seq<ObjectOutcome>): seq<Event> {
    var n := |outs| - 1;
    if outs == [] || n >= |objs| then [] else ApplyEvents(objs, outs[..n]) + ApplyObjectEvents(objs[n], outs[n])
  }

  predicate Requests(r: ObjectOutcome) {
    r == Rejected || r == Unsupported || r == Applied
  }

  function ApplyCalls(objs: seq<V>, outs: seq<ObjectOutcome>, dryRun: bool): seq<Call> {
    var n := |outs| - 1;
    if outs == [] || n >= |objs| then []
    else ApplyCalls(objs, outs[..n], dryRun) + if Requests(outs[n]) then [PatchCall(objs[n].meta, dryRun)] else []
  }

  function AppliedIds(objs: seq<V>, outs: seq<ObjectOutcome>): set<ObjectMetadata> {
    set i | 0 <= i < |outs| && i < |objs| && outs[i] == Applied :: objs[i].meta
  }

  /** All objects were handled, or the loop was left at the first unsupported media type. */
  predicate AppliesAll(objs: seq<V>, outs: seq<ObjectOutcome>) {
    && |outs| <= |objs|
    && (forall i :: 0 <= i < |outs| - 1 ==> outs[i] != Unsupported)
    && (|outs| < |objs| ==> outs != [] && outs[|outs| - 1] == Unsupported)
  }

  function PruneObjectEvents(o: V, r: PruneResult): seq<Event> {
    match r
    case Pruned => [PruneEvent(Pending, o), PruneEvent(Successful, o)]
    case AlreadyGone => [PruneEvent(Pending, o)]
    case Refused => [PruneEvent(Pending, o), PruneEvent(Failed, o)]
    case Unmapped => [PruneEvent(Pending, o), PruneEvent(Failed, o)]
  }

  function PruneEvents(objs: seq<V>, outs: seq<PruneResult>): seq<Event> {
    var n := |outs| - 1;
    if outs == [] || n >= |objs| then [] else PruneEvents(objs, outs[..n]) + PruneObjectEvents(objs[n], outs[n])
  }

  /** The request made for one object. */
  function DeleteCalls(o: V, r: PruneResult, dryRun: bool): seq<Call> {
    if r == Unmapped then [] else [DeleteCall(o.meta, dryRun)]
  }

  function PruneCalls(objs: seq<V>, outs: seq<PruneResult>, dryRun: bool): seq<Call> {
    var n := |outs| - 1;
    if outs == [] || n >= |objs| then []
    else PruneCalls(objs, outs[..n], dryRun) + DeleteCalls(objs[n], outs[n], dryRun)
  }

  /** The ids that are certainly not owned any more after pruning. */
  function PrunedIds(objs: seq<V>, outs: seq<PruneResult>, dryRun: bool): set<ObjectMetadata> {
    set i | 0 <= i < |outs| && i < |objs| && (outs[i] == AlreadyGone || (outs[i] == Pruned && !dryRun)) :: objs[i].meta
  }

  predicate SkipsWait(st: Statuses, o: V) {
    o in st && (st[o] == ApplyFailed || st[o] == WasSkipped)
  }

  function WatchSet(objs: seq<V>, st: Statuses): set<ObjectMetadata> {
    set o | o in objs && !SkipsWait(st, o) :: o.meta
  }

  /** The metadata a message carries; an error message carries the zero value. */
  function MessageMeta(e: PollMessage): ObjectMetadata {
    if e.StatusUpdateEvent? then e.meta else EMPTY_METADATA
  }

  predicate IsSuccess(e: Event) {
    e.StatusUpdateEvent? && e.status == Successful
  }

  function StillWatched(watch: set<ObjectMetadata>, e: PollMessage): set<ObjectMetadata> {
    if IsSuccess(e) then watch - {e.meta} else watch
  }

  /** The messages the wait loop forwards while it watches these ids. */
  function Forwarded(watch: set<ObjectMetadata>, messages: seq<PollMessage>): seq<Event> {
    if watch == {} || messages == [] then []
    else if MessageMeta(messages[0]) !in watch then Forwarded(watch, messages[1..])
    else [messages[0]] + Forwarded(StillWatched(watch, messages[0]), messages[1..])
  }

  /** The ids still watched when the loop ends, which is not empty only if the channel closed. */
  function Unsettled(watch: set<ObjectMetadata>, messages: seq<PollMessage>): set<ObjectMetadata> {
    if watch == {} || messages == [] then watch
    else if MessageMeta(messages[0]) !in watch then Unsettled(watch, messages[1..])
    else Unsettled(StillWatched(watch, messages[0]), messages[1..])
  }

  /** The loop goes on while something is watched, and ends early only if the channel closes. */
  predicate WaitEnds(watch: set<ObjectMetadata>, received: seq<PollMessage>, closed: bool) {
    && (closed <==> Unsettled(watch, received) != {})
    && (forall k :: 0 <= k < |received| ==> Unsettled(watch, received[..k]) != {})
  }

  predicate Fits(t: Task, r: TaskOutcome) {
    match t
    case ApplyTask(objs, _) => r.ApplyDone? && AppliesAll(objs, r.applied)
    case WaitTask(_) => r.WaitDone?
    case PruneTask(objs, _) => r.PruneDone? && |r.deleted| == |objs|
    case InventoryTask(_) => r.SaveDone?
  }

  function TaskEvents(t: Task, r: TaskOutcome, st: Statuses): seq<Event>
    requires Fits(t, r)
  {
    match t
    case ApplyTask(objs, _) => ApplyEvents(objs, r.applied)
    case WaitTask(objs) => Forwarded(WatchSet(objs, st), r.received)
    case PruneTask(objs, _) => PruneEvents(objs, r.deleted)
    case InventoryTask(_) => [InventoryEvent(Pending), InventoryEvent(if r.ok then Successful else Failed)]
  }

  /** What a wait task promises about its outcome when it starts with these statuses. */
  predicate WaitEnded(t: Task, r: TaskOutcome, st: Statuses)
    requires Fits(t, r)
  {
    t.WaitTask? ==> WaitEnds(WatchSet(t.objects, st), r.received, r.closed)
  }

  function TaskCalls(t: Task, r: TaskOutcome): seq<Call>
    requires Fits(t, r)
  {
    match t
    case ApplyTask(objs, dryRun) => ApplyCalls(objs, r.applied, dryRun)
    case PruneTask(objs, dryRun) => PruneCalls(objs, r.deleted, dryRun)
    case _ => []
  }

  /** The most the tool can own afterwards, if other clients do not interfere. */
  function TaskOwned(owned: set<ObjectMetadata>, t: Task, r: TaskOutcome): set<ObjectMetadata>
    requires Fits(t, r)
  {
    match t
    case ApplyTask(objs, dryRun) => owned + if dryRun then {} else AppliedIds(objs, r.applied)
    case PruneTask(objs, dryRun) => owned - PrunedIds(objs, r.deleted, dryRun)
    case _ => owned
  }

  function TaskInventory(inventory: Option<map<string, string>>, t: Task, r: TaskOutcome, st: Statuses,
                         starting: seq<V>)
    : Option<map<string, string>>
    requires Fits(t, r)
  {
    if t.InventoryTask? && r.ok && !t.dryRun then Some(DataOf(NewInventory(st, starting))) else inventory
  }

  // ----- the state the tasks share -----

  class RunnerState {
    const manager: Manager
    var events: seq<Event>

    constructor (manager: Manager)
      ensures this.manager == manager && events == []
    {
      this.manager, events := manager, [];
    }

    ghost predicate Valid()
      reads this, manager, manager.store.cluster
    {
      manager.store.cluster.Valid() && manager.objectStatuses == RecordAll(events)
    }

    /** SendEvent: registers the event in the manager, then emits it. */
    method SendEvent(e: Event)
      requires Valid()
      modifies this, manager
      ensures Valid() && events == old(events) + [e]
    {
      RecordAllStep(events, e);
      match Recorded(e) {
        case Some((o, s)) => manager.SetStatus(o, s);
        case None =>
      }
      events := events + [e];
    }

    method SkipWaitCurrentStatus(obj: V) returns (r: bool)
      requires Valid()
      ensures r <==> SkipsWait(RecordAll(events), obj)
    {
      r := manager.IsFailedApply(obj);
      if !r { r := manager.IsSkipped(obj); }
    }
  }

  // ----- apply -----

  function Passes(n: nat): seq<Reply> {
    seq(n, _ => FilterReply(Pass))
  }

  /** What the filters said about an object that passed all of them, or was failed or dropped by one. */
  ghost predicate FiltersReplied(seen: seq<Reply>, filters: nat, r: Option<ObjectOutcome>) {
    match r
    case None => seen == Passes(filters)
    case Some(FilterFailed) => exists k :: 0 <= k < filters && seen == Passes(k) + [FilterReply(FilterError)]
    case Some(Filtered) => exists k :: 0 <= k < filters && seen == Passes(k) + [FilterReply(Drop)]
    case _ => false
  }

  function AttemptReplies(r: ObjectOutcome): seq<Reply> {
    match r
    case Applied => [SendableReply(true), PatchReply(PatchOk)]
    case Rejected => [SendableReply(true), PatchReply(PatchError)]
    case Unsupported => [SendableReply(true), PatchReply(PatchUnsupportedMediaType)]
    case _ => [SendableReply(false)]
  }

  /** What was replied while one object was handled, which decides its outcome. */
  ghost predicate ObjectReplied(seen: seq<Reply>, filters: nat, r: ObjectOutcome) {
    if r == FilterFailed || r == Filtered then FiltersReplied(seen, filters, Some(r))
    else seen == Passes(filters) + AttemptReplies(r)
  }

  function Flat(parts: seq<seq<Reply>>): seq<Reply> {
    if parts == [] then [] else Flat(parts[..|parts| - 1]) + parts[|parts| - 1]
  }

  lemma FlatStep(base: seq<Reply>, parts: seq<seq<Reply>>, more: seq<Reply>)
    ensures base + Flat(parts + [more]) == (base + Flat(parts)) + more
  {
    assert (parts + [more])[..|parts|] == parts;
  }

  /** The replies, one part for each handled object. */
  ghost predicate RepliedEach(parts: seq<seq<Reply>>, filters: nat, outs: seq<ObjectOutcome>) {
    |parts| == |outs| && forall i :: 0 <= i < |outs| ==> ObjectReplied(parts[i], filters, outs[i])
  }

  ghost predicate ApplyReplied(seen: seq<Reply>, filters: nat, outs: seq<ObjectOutcome>) {
    exists parts :: seen == Flat(parts) && RepliedEach(parts, filters, outs)
  }

  /** How many filters an object passed, and that the reply after those is not another pass. */
  lemma PassedFilters(seen: seq<Reply>, filters: nat, r: ObjectOutcome) returns (k: nat)
    requires ObjectReplied(seen, filters, r)
    ensures k <= filters && k < |seen| && seen[..k] == Passes(k) && seen[k] != FilterReply(Pass)
    ensures if r == FilterFailed then seen == Passes(k) + [FilterReply(FilterError)] && k < filters
            else if r == Filtered then seen == Passes(k) + [FilterReply(Drop)] && k < filters
            else seen == Passes(k) + AttemptReplies(r) && k == filters
  {
    k := filters;
    if r == FilterFailed {
      k :| 0 <= k < filters && seen == Passes(k) + [FilterReply(FilterError)];
    } else if r == Filtered {
      k :| 0 <= k < filters && seen == Passes(k) + [FilterReply(Drop)];
    }
  }

  /** The replies about one object end where its outcome is decided, and decide it. */
  lemma OutcomeIsDecided(p: seq<Reply>, q: seq<Reply>, s: seq<Reply>, t: seq<Reply>, filters: nat, a: ObjectOutcome,
                         b: ObjectOutcome)
    requires ObjectReplied(p, filters, a) && ObjectReplied(q, filters, b)
    requires p + s == q + t
    ensures a == b && s == t
  {
    var k := PassedFilters(p, filters, a);
    var n := PassedFilters(q, filters, b);
    var all := p + s;
    assert all[k] == p[k] && all[n] == q[n];
    assert forall i :: 0 <= i < n ==> all[i] == q[..n][i];
    assert forall i :: 0 <= i < k ==> all[i] == p[..k][i];
    assert k == n;
    assert |p| > k + 1 ==> all[k + 1] == p[k + 1];
    assert |q| > k + 1 ==> all[k + 1] == q[k + 1];
    assert p == q && s == all[|p|..] && t == all[|q|..];
  }

  /** It is read off the last of them, which follows passes of filters and, where one was asked for, a mapping. */
  lemma OutcomeIsLastReply(seen: seq<Reply>, filters: nat, r: ObjectOutcome)
    requires ObjectReplied(seen, filters, r)
    ensures seen != []
    ensures r == FilterFailed <==> seen[|seen| - 1] == FilterReply(FilterError)
    ensures r == Filtered <==> seen[|seen| - 1] == FilterReply(Drop)
    ensures r == NotSent <==> seen[|seen| - 1] == SendableReply(false)
    ensures r == Rejected <==> seen[|seen| - 1] == PatchReply(PatchError)
    ensures r == Unsupported <==> seen[|seen| - 1] == PatchReply(PatchUnsupportedMediaType)
    ensures r == Applied <==> seen[|seen| - 1] == PatchReply(PatchOk)
    ensures r != FilterFailed && r != Filtered ==>
              |seen| > filters && seen[filters].SendableReply?
              && forall k :: 0 <= k < filters ==> seen[k] == FilterReply(Pass)
    ensures seen[|seen| - 1].PatchReply? ==> |seen| > 1 && seen[|seen| - 2] == SendableReply(true)
  {
    var k := PassedFilters(seen, filters, r);
    assert forall i :: 0 <= i < k ==> seen[i] == seen[..k][i];
  }

  lemma {:induction false} FlatHead(parts: seq<seq<Reply>>)
    requires parts != []
    ensures Flat(parts) == parts[0] + Flat(parts[1..])
  {
    var n := |parts| - 1;
    if n > 0 {
      FlatHead(parts[..n]);
      assert parts[..n][1..] == parts[1..][..n - 1];
    }
  }

  lemma SomethingIsReplied(parts: seq<seq<Reply>>, filters: nat, outs: seq<ObjectOutcome>)
    requires parts != [] && RepliedEach(parts, filters, outs)
    ensures Flat(parts) != []
  {
    var k := PassedFilters(parts[|parts| - 1], filters, outs[|parts| - 1]);
  }

  lemma HeadIsDecided(parts: seq<seq<Reply>>, parts': seq<seq<Reply>>, filters: nat, outs: seq<ObjectOutcome>,
                      outs': seq<ObjectOutcome>)
    requires Flat(parts) == Flat(parts') && RepliedEach(parts, filters, outs) && RepliedEach(parts', filters, outs')
    requires parts != [] && parts' != []
    ensures outs[0] == outs'[0] && Flat(parts[1..]) == Flat(parts'[1..])
  {
    FlatHead(parts);
    FlatHead(parts');
    OutcomeIsDecided(parts[0], parts'[0], Flat(parts[1..]), Flat(parts'[1..]), filters, outs[0], outs'[0]);
  }

  /** The replies received by an apply task decide the outcomes: there are no two ways to read them. */
  lemma {:induction false} ApplyIsDecided(parts: seq<seq<Reply>>, parts': seq<seq<Reply>>, filters: nat,
                                          outs: seq<ObjectOutcome>, outs': seq<ObjectOutcome>)
    requires Flat(parts) == Flat(parts') && RepliedEach(parts, filters, outs) && RepliedEach(parts', filters, outs')
    ensures outs == outs'
  {
    if parts != [] { SomethingIsReplied(parts, filters, outs); }
    if parts' != [] { SomethingIsReplied(parts', filters, outs'); }
    if parts != [] {
      HeadIsDecided(parts, parts', filters, outs, outs');
      ApplyIsDecided(parts[1..], parts'[1..], filters, outs[1..], outs'[1..]);
      assert outs == [outs[0]] + outs[1..] && outs' == [outs'[0]] + outs'[1..];
    }
  }

  /** The filters of one object: the first that fails or drops it ends the loop. */
  method RunFilters(state: RunnerState, obj: V, filters: nat) returns (r: Option<ObjectOutcome>, ghost seen: seq<Reply>)
    requires state.Valid()
    modifies state, state.manager, state.manager.store.cluster`replies
    ensures state.Valid()
    ensures state.manager.store.cluster.replies == old(state.manager.store.cluster.replies) + seen
    ensures FiltersReplied(seen, filters, r)
    ensures r == None ==> state.events == old(state.events)
    ensures r.Some? ==> (r.value == FilterFailed || r.value == Filtered) && filters > 0
    ensures r.Some? ==> state.events == old(state.events) + ApplyObjectEvents(obj, r.value)
  {
    r, seen := None, [];
    for f := 0 to filters
      invariant state.Valid() && state.events == old(state.events) && r == None && seen == Passes(f)
      invariant state.manager.store.cluster.replies == old(state.manager.store.cluster.replies) + seen
    {
      var verdict := state.manager.store.cluster.AskFilter();
      seen := seen + [FilterReply(verdict)];
      if verdict == FilterError {
        state.SendEvent(ApplyEvent(Failed, obj));
        return Some(FilterFailed), seen;
      }
      if verdict == Drop {
        state.SendEvent(ApplyEvent(Skipped, obj));
        return Some(Filtered), seen;
      }
    }
  }

  /** One iteration of ApplyTask.Run. */
  method ApplyOne(state: RunnerState, obj: V, dryRun: bool, filters: nat)
    returns (r: ObjectOutcome, ghost seen: seq<Reply>)
    requires state.Valid()
    modifies state, state.manager, state.manager.store.cluster`live, state.manager.store.cluster`owned
    modifies state.manager.store.cluster`calls, state.manager.store.cluster`replies
    ensures state.Valid() && AppliedOne(obj, r, seen, dryRun, old(Trace(state)), Trace(state))
    ensures ObjectReplied(seen, filters, r)
  {
    var filtered;
    filtered, seen := RunFilters(state, obj, filters);
    if filtered.Some? { return filtered.value, seen; }
    r := Attempt(state, obj, dryRun);
    seen := seen + AttemptReplies(r);
  }

  /** The part of the iteration that an object which passed the filters goes through. */
  method Attempt(state: RunnerState, obj: V, dryRun: bool) returns (r: ObjectOutcome)
    requires state.Valid()
    modifies state, state.manager, state.manager.store.cluster`live, state.manager.store.cluster`owned
    modifies state.manager.store.cluster`calls, state.manager.store.cluster`replies
    ensures state.Valid() && AppliedOne(obj, r, AttemptReplies(r), dryRun, old(Trace(state)), Trace(state))
    ensures r != FilterFailed && r != Filtered
  {
    ghost var before := state.events;
    state.SendEvent(ApplyEvent(Pending, obj));
    r := RequestApply(state.manager.store.cluster, obj.meta, dryRun);
    state.SendEvent(ApplyEvent(if r == Applied then Successful else Failed, obj));
    assert state.events == before + ApplyObjectEvents(obj, r);
  }

  /** The apply request, if one can be sent. */
  method RequestApply(cluster: Cluster, id: ObjectMetadata, dryRun: bool) returns (r: ObjectOutcome)
    requires cluster.Valid()
    modifies cluster`live, cluster`owned, cluster`calls, cluster`replies
    ensures cluster.Valid() && r != FilterFailed && r != Filtered
    ensures cluster.calls == old(cluster.calls) + if Requests(r) then [PatchCall(id, dryRun)] else []
    ensures cluster.owned <= old(cluster.owned) + if r == Applied && !dryRun then {id} else {}
    ensures cluster.replies == old(cluster.replies) + AttemptReplies(r)
  {
    r := NotSent;
    var sendable := cluster.CanSend();
    if sendable {
      var answer := cluster.Patch(id, dryRun);
      r := match answer
        case PatchOk => Applied
        case PatchError => Rejected
        case PatchUnsupportedMediaType => Unsupported;
    }
  }

  /** One iteration, added to what was done before. */
  method ApplyNext(state: RunnerState, objs: seq<V>, dryRun: bool, filters: nat, i: nat,
                   ghost outs: seq<ObjectOutcome>, ghost parts: seq<seq<Reply>>, ghost from: TraceState)
    returns (r: ObjectOutcome, ghost more: seq<Reply>)
    requires state.Valid() && i < |objs| && |outs| == i
    requires ApplyProgress(objs, outs, parts, dryRun, from, Trace(state)) && RepliedEach(parts, filters, outs)
    modifies state, state.manager, state.manager.store.cluster`live, state.manager.store.cluster`owned
    modifies state.manager.store.cluster`calls, state.manager.store.cluster`replies
    ensures state.Valid()
    ensures ApplyProgress(objs, outs + [r], parts + [more], dryRun, from, Trace(state))
    ensures RepliedEach(parts + [more], filters, outs + [r])
  {
    ghost var before := Trace(state);
    r, more := ApplyOne(state, objs[i], dryRun, filters);
    ApplyProgressStep(objs, outs, parts, r, more, dryRun, from, before, Trace(state));
  }

  /** ApplyTask.Run */
  method RunApply(state: RunnerState, objs: seq<V>, dryRun: bool, filters: nat)
    returns (ghost outs: seq<ObjectOutcome>, ghost parts: seq<seq<Reply>>)
    requires state.Valid()
    modifies state, state.manager, state.manager.store.cluster`live, state.manager.store.cluster`owned
    modifies state.manager.store.cluster`calls, state.manager.store.cluster`replies
    ensures state.Valid() && AppliesAll(objs, outs)
    ensures ApplyProgress(objs, outs, parts, dryRun, old(Trace(state)), Trace(state))
    ensures RepliedEach(parts, filters, outs)
  {
    outs, parts := [], [];
    for i := 0 to |objs|
      invariant state.Valid() && |outs| == i
      invariant forall j :: 0 <= j < i ==> outs[j] != Unsupported
      invariant ApplyProgress(objs, outs, parts, dryRun, old(Trace(state)), Trace(state))
      invariant RepliedEach(parts, filters, outs)
    {
      var r;
      ghost var more;
      r, more := ApplyNext(state, objs, dryRun, filters, i, outs, parts, old(Trace(state)));
      outs, parts := outs + [r], parts + [more];
      if r == Unsupported { break; }
    }
  }

  /** What the loop of ApplyTask.Run adds to. */
  datatype TraceState = TraceState(
    events: seq<Event>,
    calls: seq<Call>,
    replies: seq<Reply>,
    owned: set<ObjectMetadata>)

  ghost function Trace(state: RunnerState): TraceState
    reads state, state.manager.store.cluster
  {
    var cluster := state.manager.store.cluster;
    TraceState(state.events, cluster.calls, cluster.replies, cluster.owned)
  }

  ghost predicate AppliedOne(obj: V, r: ObjectOutcome, seen: seq<Reply>, dryRun: bool, from: TraceState,
                             to: TraceState) {
    && to.replies == from.replies + seen
    && to.events == from.events + ApplyObjectEvents(obj, r)
    && to.calls == from.calls + (if Requests(r) then [PatchCall(obj.meta, dryRun)] else [])
    && to.owned <= from.owned + if r == Applied && !dryRun then {obj.meta} else {}
  }

  ghost predicate ApplyProgress(objs: seq<V>, outs: seq<ObjectOutcome>, parts: seq<seq<Reply>>, dryRun: bool,
                                from: TraceState, to: TraceState)
  {
    && to.replies == from.replies + Flat(parts)
    && to.events == from.events + ApplyEvents(objs, outs)
    && to.calls == from.calls + ApplyCalls(objs, outs, dryRun)
    && to.owned <= from.owned + if dryRun then {} else AppliedIds(objs, outs)
  }

  lemma ApplyProgressStep(objs: seq<V>, outs: seq<ObjectOutcome>, parts: seq<seq<Reply>>, r: ObjectOutcome,
                          more: seq<Reply>, dryRun: bool, from: TraceState, mid: TraceState, to: TraceState)
    requires |outs| < |objs| && ApplyProgress(objs, outs, parts, dryRun, from, mid)
    requires AppliedOne(objs[|outs|], r, more, dryRun, mid, to)
    ensures ApplyProgress(objs, outs + [r], parts + [more], dryRun, from, to)
  {
    FlatStep(from.replies, parts, more);
    ApplyStep(objs, outs, r, dryRun);
    AppliedIdsStep(objs, outs, r);
    Associative(from.events, ApplyEvents(objs, outs), ApplyObjectEvents(objs[|outs|], r));
    var call := if Requests(r) then [PatchCall(objs[|outs|].meta, dryRun)] else [];
    Associative(from.calls, ApplyCalls(objs, outs, dryRun), call);
  }

  lemma ApplyStep(objs: seq<V>, outs: seq<ObjectOutcome>, r: ObjectOutcome, dryRun: bool)
    requires |outs| < |objs|
    ensures ApplyEvents(objs, outs + [r]) == ApplyEvents(objs, outs) + ApplyObjectEvents(objs[|outs|], r)
    ensures ApplyCalls(objs, outs + [r], dryRun) ==
            ApplyCalls(objs, outs, dryRun) + if Requests(r) then [PatchCall(objs[|outs|].meta, dryRun)] else []
  {
    assert (outs + [r])[..|outs|] == outs;
  }

  lemma AppliedIdsStep(objs: seq<V>, outs: seq<ObjectOutcome>, r: ObjectOutcome)
    requires |outs| < |objs|
    ensures AppliedIds(objs, outs + [r]) == AppliedIds(objs, outs) + if r == Applied then {objs[|outs|].meta} else {}
  {
    var outs' := outs + [r];
    forall id
      ensures id in AppliedIds(objs, outs') <==>
              id in AppliedIds(objs, outs) || (r == Applied && id == objs[|outs|].meta)
    {
      if id in AppliedIds(objs, outs) {
        var i :| 0 <= i < |outs| && outs[i] == Applied && objs[i].meta == id;
        assert outs'[i] == Applied;
      }
      if r == Applied { assert outs'[|outs|] == Applied; }
    }
  }

  /** What an apply task reports about an object tells how its turn ended. */
  lemma {:induction false} ApplyReports(objs: seq<V>, outs: seq<ObjectOutcome>, o: V)
    requires |outs| <= |objs|
    ensures ApplyEvent(Successful, o) in ApplyEvents(objs, outs) <==> HasOutcome(objs, outs, o, {Applied})
    ensures ApplyEvent(Skipped, o) in ApplyEvents(objs, outs) <==> HasOutcome(objs, outs, o, {Filtered})
    ensures ApplyEvent(Failed, o) in ApplyEvents(objs, outs) <==>
            HasOutcome(objs, outs, o, {FilterFailed, NotSent, Rejected, Unsupported})
    ensures ApplyEvent(Pending, o) in ApplyEvents(objs, outs) <==>
            HasOutcome(objs, outs, o, {NotSent, Rejected, Unsupported, Applied})
  {
    if outs != [] {
      var n := |outs| - 1;
      ApplyReports(objs, outs[..n], o);
      HasOutcomeStep(objs, outs, o, {Applied});
      HasOutcomeStep(objs, outs, o, {Filtered});
      HasOutcomeStep(objs, outs, o, {FilterFailed, NotSent, Rejected, Unsupported});
      HasOutcomeStep(objs, outs, o, {NotSent, Rejected, Unsupported, Applied});
      ObjectReports(objs[n], outs[n], o);
    }
  }

  lemma ObjectReports(x: V, r: ObjectOutcome, o: V)
    ensures ApplyEvent(Successful, o) in ApplyObjectEvents(x, r) <==> x == o && r == Applied
    ensures ApplyEvent(Skipped, o) in ApplyObjectEvents(x, r) <==> x == o && r == Filtered
    ensures ApplyEvent(Failed, o) in ApplyObjectEvents(x, r) <==>
            x == o && (r == FilterFailed || r == NotSent || r == Rejected || r == Unsupported)
    ensures ApplyEvent(Pending, o) in ApplyObjectEvents(x, r) <==>
            x == o && (r == NotSent || r == Rejected || r == Unsupported || r == Applied)
  {
  }

  /** The task handled the object, with one of these outcomes. */
  ghost predicate HasOutcome(objs: seq<V>, outs: seq<ObjectOutcome>, o: V, results: set<ObjectOutcome>)
    requires |outs| <= |objs|
  {
    exists k :: 0 <= k < |outs| && objs[k] == o && outs[k] in results
  }

  lemma HasOutcomeStep(objs: seq<V>, outs: seq<ObjectOutcome>, o: V, results: set<ObjectOutcome>)
    requires outs != [] && |outs| <= |objs|
    ensures var n := |outs| - 1;
            HasOutcome(objs, outs, o, results) <==>
            HasOutcome(objs, outs[..n], o, results) || (objs[n] == o && outs[n] in results)
  {
    var n := |outs| - 1;
    if k :| 0 <= k < n && objs[k] == o && outs[..n][k] in results { assert outs[k] in results; }
    if k :| 0 <= k < n && objs[k] == o && outs[k] in results { assert outs[..n][k] in results; }
  }

  /**
   * Only an object that a filter failed or dropped gets its result reported without being reported pending right
   * before, and nothing stays pending.
   */
  lemma {:induction false} PendingComesFirst(objs: seq<V>, outs: seq<ObjectOutcome>, i: nat)
    requires |outs| <= |objs| && i < |ApplyEvents(objs, outs)|
    ensures var es := ApplyEvents(objs, outs);
            && es[i].ApplyEvent?
            && (es[i].status == Successful ==> i > 0 && es[i - 1] == ApplyEvent(Pending, es[i].obj))
            && (es[i].status == Failed ==> (i > 0 && es[i - 1] == ApplyEvent(Pending, es[i].obj))
                                           || HasOutcome(objs, outs, es[i].obj, {FilterFailed}))
            && (es[i].status == Pending ==> i + 1 < |es| && (es[i + 1] == ApplyEvent(Successful, es[i].obj)
                                                             || es[i + 1] == ApplyEvent(Failed, es[i].obj)))
  {
    var n := |outs| - 1;
    var before, now := ApplyEvents(objs, outs[..n]), ApplyObjectEvents(objs[n], outs[n]);
    if i < |before| {
      PendingComesFirst(objs, outs[..n], i);
      if before[i].status == Failed { HasOutcomeStep(objs, outs, before[i].obj, {FilterFailed}); }
    } else {
      assert ApplyEvents(objs, outs)[i] == now[i - |before|];
    }
  }

  // ----- wait -----

  class WaitTaskRun {
    const objects: seq<V>
    var objectsToWatch: set<ObjectMetadata>

    constructor (objects: seq<V>)
      ensures this.objects == objects
    {
      this.objects, objectsToWatch := objects, {};
    }

    /**
     * WaitTask.Run, for a poller channel that delivers `messages` and is then closed; `received` is what the loop
     * takes.
     */
    method Run(state: RunnerState, messages: seq<PollMessage>)
      returns (ghost received: seq<PollMessage>, closed: bool, resetMapper: bool)
      requires state.Valid()
      modifies this, state, state.manager
      ensures state.Valid()
      ensures received <= messages && (closed ==> received == messages)
      ensures WaitEnds(WatchSet(objects, RecordAll(old(state.events))), received, closed)
      ensures state.events == old(state.events) + Forwarded(WatchSet(objects, RecordAll(old(state.events))), received)
      ensures objectsToWatch == Unsettled(WatchSet(objects, RecordAll(old(state.events))), received)
      ensures resetMapper <==> ForwardsCRD(Forwarded(WatchSet(objects, RecordAll(old(state.events))), received))
    {
      StartWatching(state);
      received, closed, resetMapper := [], false, false;
      if objectsToWatch == {} { return; }
      received, closed, resetMapper := Watch(state, messages);
    }

    /** The first loop: objects recorded as failed or skipped are not waited for. */
    method StartWatching(state: RunnerState)
      requires state.Valid()
      modifies this
      ensures objectsToWatch == WatchSet(objects, RecordAll(state.events))
    {
      objectsToWatch := {};
      for i := 0 to |objects|
        invariant objectsToWatch == WatchSet(objects[..i], RecordAll(state.events))
      {
        assert objects[..i + 1] == objects[..i] + [objects[i]];
        var skip := state.SkipWaitCurrentStatus(objects[i]);
        if skip { continue; }
        objectsToWatch := objectsToWatch + {objects[i].meta};
      }
      assert objects[..|objects|] == objects;
    }

    /** The message loop: it ends when the channel closes or when nothing is watched any more. */
    method Watch(state: RunnerState, messages: seq<PollMessage>)
      returns (ghost received: seq<PollMessage>, closed: bool, resetMapper: bool)
      requires state.Valid() && objectsToWatch != {}
      modifies this, state, state.manager
      ensures state.Valid()
      ensures received <= messages && (closed ==> received == messages)
      ensures WaitEnds(old(objectsToWatch), received, closed)
      ensures state.events == old(state.events) + Forwarded(old(objectsToWatch), received)
      ensures objectsToWatch == Unsettled(old(objectsToWatch), received)
      ensures resetMapper <==> ForwardsCRD(Forwarded(old(objectsToWatch), received))
    {
      closed, resetMapper := false, false;
      ghost var watch := objectsToWatch;
      received := [];
      var n := 0;
      while true
        invariant 0 <= n <= |messages| && received == messages[..n]
        invariant state.Valid() && state.events == old(state.events) + Forwarded(watch, received)
        invariant objectsToWatch != {} && objectsToWatch == Unsettled(watch, received) && !closed
        invariant forall k :: 0 <= k < n ==> Unsettled(watch, received[..k]) != {}
        invariant resetMapper <==> ForwardsCRD(Forwarded(watch, received))
        decreases |messages| - n
      {
        if n == |messages| {
          closed := true;
          break;
        }
        var message := messages[n];
        ForwardStep(watch, received, message);
        ghost var before := received;
        received := before + [message];
        assert forall k :: 0 <= k <= n ==> received[..k] == before[..k];
        n := n + 1;
        if MessageMeta(message) !in objectsToWatch { continue; }
        state.SendEvent(message);
        ForwardsCRDStep(Forwarded(watch, before), message);
        if IsSuccess(message) {
          objectsToWatch := objectsToWatch - {message.meta};
          if MetadataIsCRD(message.meta) { resetMapper := true; }
        }
        if objectsToWatch == {} { break; }
      }
    }
  }

  lemma {:induction false} ForwardStep(watch: set<ObjectMetadata>, received: seq<PollMessage>, m: PollMessage)
    ensures var now := Unsettled(watch, received);
            && Forwarded(watch, received + [m]) ==
               Forwarded(watch, received) + (if MessageMeta(m) in now then [m] else [])
            && Unsettled(watch, received + [m]) == if MessageMeta(m) in now then StillWatched(now, m) else now
  {
    if watch != {} && received != [] {
      var first, rest := received[0], received[1..];
      assert (received + [m])[0] == first && (received + [m])[1..] == rest + [m];
      ForwardStep(if MessageMeta(first) !in watch then watch else StillWatched(watch, first), rest, m);
    } else if watch != {} {
      assert (received + [m])[1..] == [];
    }
  }

  /** A CRD became current, so the REST mapper must learn its kind. */
  predicate ForwardsCRD(sent: seq<Event>) {
    exists e :: e in sent && IsSuccess(e) && MetadataIsCRD(e.meta)
  }

  lemma ForwardsCRDStep(sent: seq<Event>, e: Event)
    ensures ForwardsCRD(sent + [e]) <==> ForwardsCRD(sent) || (IsSuccess(e) && MetadataIsCRD(e.meta))
  {
    assert forall x :: x in sent + [e] <==> x in sent || x == e;
  }

  /** The message is about a watched id of which no success was received before. */
  predicate IsWaitedFor(watch: set<ObjectMetadata>, messages: seq<PollMessage>, k: nat)
    requires k < |messages|
  {
    var id := MessageMeta(messages[k]);
    id in watch && StatusUpdateEvent(Successful, id) !in messages[..k]
  }

  /** The messages that are waited for, in order. */
  function WaitedFor(watch: set<ObjectMetadata>, messages: seq<PollMessage>): seq<Event> {
    if messages == [] then []
    else
      var n := |messages| - 1;
      WaitedFor(watch, messages[..n]) + if IsWaitedFor(watch, messages, n) then [messages[n]] else []
  }

  /** The loop forwards exactly those, and what stays unsettled are the watched ids without a success. */
  lemma {:induction false} ForwardsWhatIsWaitedFor(watch: set<ObjectMetadata>, messages: seq<PollMessage>)
    ensures Forwarded(watch, messages) == WaitedFor(watch, messages)
    ensures forall id :: id in Unsettled(watch, messages) <==>
                         id in watch && StatusUpdateEvent(Successful, id) !in messages
  {
    if messages != [] {
      var n := |messages| - 1;
      var before, m := messages[..n], messages[n];
      ForwardsWhatIsWaitedFor(watch, before);
      ForwardStep(watch, before, m);
      assert messages == before + [m];
    }
  }

  lemma {:induction false} ForwardedWereReceived(watch: set<ObjectMetadata>, messages: seq<PollMessage>, e: Event)
    requires e in Forwarded(watch, messages)
    ensures e in messages
  {
    if MessageMeta(messages[0]) !in watch {
      ForwardedWereReceived(watch, messages[1..], e);
    } else if e != messages[0] {
      ForwardedWereReceived(StillWatched(watch, messages[0]), messages[1..], e);
    }
  }

  /** The REST mapper is reset exactly if a watched CRD was reported successful. */
  lemma MapperIsReset(watch: set<ObjectMetadata>, messages: seq<PollMessage>)
    ensures ForwardsCRD(Forwarded(watch, messages)) <==>
            exists id :: id in watch && StatusUpdateEvent(Successful, id) in messages
                         && id.group == "apiextensions.k8s.io" && id.kind == "CustomResourceDefinition"
  {
    var sent := Forwarded(watch, messages);
    ForwardsWhatIsWaitedFor(watch, messages);
    OnlyWatchedForwarded(watch, messages);
    if e :| e in sent && IsSuccess(e) && MetadataIsCRD(e.meta) {
      ForwardedWereReceived(watch, messages, e);
      assert e == StatusUpdateEvent(Successful, e.meta);
    }
    if id :| id in watch && StatusUpdateEvent(Successful, id) in messages
             && id.group == "apiextensions.k8s.io" && id.kind == "CustomResourceDefinition" {
      WatchedAreSettled(watch, messages, id);
      assert IsSuccess(StatusUpdateEvent(Successful, id));
    }
  }

  /** What is watched, read off the log: the ids of the objects whose last report is not a failed or skipped apply. */
  lemma WatchedByLog(log: seq<Event>, objs: seq<V>, id: ObjectMetadata)
    ensures id in WatchSet(objs, RecordAll(log)) <==>
            exists o :: o in objs && o.meta == id
                        && !LastReported(log, ApplyEvent(Failed, o)) && !LastReported(log, ApplyEvent(Skipped, o))
  {
    forall o ensures SkipsWait(RecordAll(log), o) <==>
                     LastReported(log, ApplyEvent(Failed, o)) || LastReported(log, ApplyEvent(Skipped, o))
    {
      StatusIsLastReport(log, o, ApplyFailed);
      StatusIsLastReport(log, o, WasSkipped);
    }
  }

  /** Every watched id either had a success forwarded or is still unsettled, which needs a closed channel. */
  lemma {:induction false} WatchedAreSettled(watch: set<ObjectMetadata>, messages: seq<PollMessage>, id: ObjectMetadata)
    requires id in watch
    ensures id in Unsettled(watch, messages) <==> StatusUpdateEvent(Successful, id) !in Forwarded(watch, messages)
  {
    if messages != [] {
      var m := messages[0];
      if MessageMeta(m) !in watch {
        WatchedAreSettled(watch, messages[1..], id);
      } else {
        var watch' := StillWatched(watch, m);
        if id in watch' {
          WatchedAreSettled(watch', messages[1..], id);
        } else {
          OnlyWatchedForwarded(watch', messages[1..]);
          UnsettledWereWatched(watch', messages[1..]);
          assert m == StatusUpdateEvent(Successful, id);
        }
      }
    }
  }

  lemma {:induction false} UnsettledWereWatched(watch: set<ObjectMetadata>, messages: seq<PollMessage>)
    ensures Unsettled(watch, messages) <= watch
  {
    if messages != [] && watch != {} {
      if MessageMeta(messages[0]) !in watch {
        UnsettledWereWatched(watch, messages[1..]);
      } else {
        UnsettledWereWatched(StillWatched(watch, messages[0]), messages[1..]);
      }
    }
  }

  lemma {:induction false} OnlyWatchedForwarded(watch: set<ObjectMetadata>, messages: seq<PollMessage>)
    ensures forall e :: e in Forwarded(watch, messages) ==>
              (e.StatusUpdateEvent? || e.ErrorEvent?) && MessageMeta(e) in watch
  {
    if messages != [] && watch != {} {
      if MessageMeta(messages[0]) !in watch {
        OnlyWatchedForwarded(watch, messages[1..]);
      } else {
        OnlyWatchedForwarded(StillWatched(watch, messages[0]), messages[1..]);
      }
    }
  }

  /** Once an id has succeeded nothing more is forwarded for it. */
  lemma {:induction false} NothingAfterSuccess(watch: set<ObjectMetadata>, messages: seq<PollMessage>, i: nat, j: nat)
    requires i < j < |Forwarded(watch, messages)| && IsSuccess(Forwarded(watch, messages)[i])
    ensures var f := Forwarded(watch, messages);
            (f[j].StatusUpdateEvent? || f[j].ErrorEvent?) && MessageMeta(f[j]) != f[i].meta
  {
    var f := Forwarded(watch, messages);
    if MessageMeta(messages[0]) !in watch {
      NothingAfterSuccess(watch, messages[1..], i, j);
    } else {
      var watch' := StillWatched(watch, messages[0]);
      assert f[1..] == Forwarded(watch', messages[1..]);
      if i > 0 {
        NothingAfterSuccess(watch', messages[1..], i - 1, j - 1);
      } else {
        OnlyWatchedForwarded(watch', messages[1..]);
        assert f[j] in Forwarded(watch', messages[1..]) by { assert f[j] == f[1..][j - 1]; }
      }
    }
  }

  // ----- prune -----

  /** What was replied while one object was pruned, which decides the result. */
  function PruneOneReplies(r: PruneResult): seq<Reply> {
    match r
    case Unmapped => [SendableReply(false)]
    case Pruned => [SendableReply(true), DeleteReply(DeleteOk)]
    case AlreadyGone => [SendableReply(true), DeleteReply(DeleteNotFound)]
    case Refused => [SendableReply(true), DeleteReply(DeleteError)]
  }

  function PruneReplies(outs: seq<PruneResult>): seq<Reply> {
    if outs == [] then [] else PruneReplies(outs[..|outs| - 1]) + PruneOneReplies(outs[|outs| - 1])
  }

  lemma PruneRepliesStep(outs: seq<PruneResult>, r: PruneResult)
    ensures PruneReplies(outs + [r]) == PruneReplies(outs) + PruneOneReplies(r)
  {
    assert (outs + [r])[..|outs|] == outs;
  }

  lemma PruneIsLastReply(r: PruneResult)
    ensures var seen := PruneOneReplies(r);
            && seen != []
            && (r == Unmapped <==> seen == [SendableReply(false)])
            && (r != Unmapped ==> |seen| == 2 && seen[0] == SendableReply(true))
            && (r == Pruned <==> seen[|seen| - 1] == DeleteReply(DeleteOk))
            && (r == AlreadyGone <==> seen[|seen| - 1] == DeleteReply(DeleteNotFound))
            && (r == Refused <==> seen[|seen| - 1] == DeleteReply(DeleteError))
  {
  }

  lemma LastPruneReply(outs: seq<PruneResult>) returns (front: seq<Reply>, last: PruneResult)
    requires outs != []
    ensures last == outs[|outs| - 1] && front == PruneReplies(outs[..|outs| - 1])
    ensures PruneReplies(outs) == front + PruneOneReplies(last)
  {
    front, last := PruneReplies(outs[..|outs| - 1]), outs[|outs| - 1];
  }

  lemma PruneReplyEnds(front: seq<Reply>, front': seq<Reply>, r: PruneResult, r': PruneResult)
    requires front + PruneOneReplies(r) == front' + PruneOneReplies(r')
    ensures front == front' && r == r'
  {
    var all := front + PruneOneReplies(r);
    assert all[|all| - 1] == PruneOneReplies(r)[|PruneOneReplies(r)| - 1];
    assert all[|all| - 1] == PruneOneReplies(r')[|PruneOneReplies(r')| - 1];
    assert front == all[..|all| - |PruneOneReplies(r)|];
  }

  lemma {:induction false} PruneIsDecided(outs: seq<PruneResult>, outs': seq<PruneResult>)
    requires PruneReplies(outs) == PruneReplies(outs')
    ensures outs == outs'
  {
    if outs != [] && outs' != [] {
      var front, r := LastPruneReply(outs);
      var front', r' := LastPruneReply(outs');
      PruneReplyEnds(front, front', r, r');
      PruneIsDecided(outs[..|outs| - 1], outs'[..|outs'| - 1]);
      assert outs == outs[..|outs| - 1] + [r] && outs' == outs'[..|outs'| - 1] + [r'];
    }
  }

  /** The task handled the object, with one of these results. */
  ghost predicate HasResult(objs: seq<V>, outs: seq<PruneResult>, o: V, results: set<PruneResult>)
    requires |outs| <= |objs|
  {
    exists k :: 0 <= k < |outs| && objs[k] == o && outs[k] in results
  }

  lemma HasResultStep(objs: seq<V>, outs: seq<PruneResult>, o: V, results: set<PruneResult>)
    requires outs != [] && |outs| <= |objs|
    ensures var n := |outs| - 1;
            HasResult(objs, outs, o, results) <==>
            HasResult(objs, outs[..n], o, results) || (objs[n] == o && outs[n] in results)
  {
    var n := |outs| - 1;
    if k :| 0 <= k < n && objs[k] == o && outs[..n][k] in results { assert outs[k] in results; }
    if k :| 0 <= k < n && objs[k] == o && outs[k] in results { assert outs[..n][k] in results; }
  }

  /** What a prune task reports about an object: one that is already gone stays pending. */
  lemma {:induction false} PruneReports(objs: seq<V>, outs: seq<PruneResult>, o: V)
    requires |outs| <= |objs|
    ensures PruneEvent(Successful, o) in PruneEvents(objs, outs) <==> HasResult(objs, outs, o, {Pruned})
    ensures PruneEvent(Failed, o) in PruneEvents(objs, outs) <==> HasResult(objs, outs, o, {Refused, Unmapped})
    ensures PruneEvent(Pending, o) in PruneEvents(objs, outs) <==>
            HasResult(objs, outs, o, {Pruned, AlreadyGone, Refused, Unmapped})
  {
    if outs != [] {
      var n := |outs| - 1;
      PruneReports(objs, outs[..n], o);
      HasResultStep(objs, outs, o, {Pruned});
      HasResultStep(objs, outs, o, {Refused, Unmapped});
      HasResultStep(objs, outs, o, {Pruned, AlreadyGone, Refused, Unmapped});
      ObjectPruneReports(objs[n], outs[n], o);
    }
  }

  lemma ObjectPruneReports(x: V, r: PruneResult, o: V)
    ensures PruneEvent(Successful, o) in PruneObjectEvents(x, r) <==> x == o && r == Pruned
    ensures PruneEvent(Failed, o) in PruneObjectEvents(x, r) <==> x == o && (r == Refused || r == Unmapped)
    ensures PruneEvent(Pending, o) in PruneObjectEvents(x, r) <==> x == o
  {
  }

  /** Every result of pruning is reported right after its object was reported pending. */
  lemma {:induction false} PrunePendingFirst(objs: seq<V>, outs: seq<PruneResult>, i: nat)
    requires |outs| <= |objs| && i < |PruneEvents(objs, outs)|
    ensures var es := PruneEvents(objs, outs);
            && es[i].PruneEvent? && es[i].status != Skipped
            && (es[i].status != Pending ==> i > 0 && es[i - 1] == PruneEvent(Pending, es[i].obj))
  {
    var n := |outs| - 1;
    var before, now := PruneEvents(objs, outs[..n]), PruneObjectEvents(objs[n], outs[n]);
    if i < |before| {
      PrunePendingFirst(objs, outs[..n], i);
    } else {
      assert PruneEvents(objs, outs)[i] == now[i - |before|];
    }
  }

  /** PruneTask.Run */
  method RunPrune(state: RunnerState, objs: seq<V>, dryRun: bool) returns (ghost outs: seq<PruneResult>)
    requires state.Valid()
    modifies state, state.manager, state.manager.store.cluster`live, state.manager.store.cluster`owned
    modifies state.manager.store.cluster`calls, state.manager.store.cluster`replies
    ensures state.Valid() && |outs| == |objs|
    ensures PruneProgress(objs, outs, dryRun, old(Trace(state)), Trace(state))
  {
    outs := [];
    for i := 0 to |objs|
      invariant state.Valid() && |outs| == i
      invariant PruneProgress(objs, outs, dryRun, old(Trace(state)), Trace(state))
    {
      ghost var before := Trace(state);
      var r := PruneOne(state, objs[i], dryRun);
      PruneProgressStep(objs, outs, r, dryRun, old(Trace(state)), before, Trace(state));
      outs := outs + [r];
    }
  }

  ghost predicate PruneProgress(objs: seq<V>, outs: seq<PruneResult>, dryRun: bool, from: TraceState, to: TraceState) {
    && to.events == from.events + PruneEvents(objs, outs)
    && to.calls == from.calls + PruneCalls(objs, outs, dryRun)
    && to.replies == from.replies + PruneReplies(outs)
    && to.owned <= from.owned - PrunedIds(objs, outs, dryRun)
  }

  lemma PruneProgressStep(objs: seq<V>, outs: seq<PruneResult>, r: PruneResult, dryRun: bool,
                          from: TraceState, mid: TraceState, to: TraceState)
    requires |outs| < |objs| && PruneProgress(objs, outs, dryRun, from, mid)
    requires to.events == mid.events + PruneObjectEvents(objs[|outs|], r)
    requires to.calls == mid.calls + DeleteCalls(objs[|outs|], r, dryRun)
    requires to.replies == mid.replies + PruneOneReplies(r)
    requires to.owned <= mid.owned - PrunedIds([objs[|outs|]], [r], dryRun)
    ensures PruneProgress(objs, outs + [r], dryRun, from, to)
  {
    PruneStep(objs, outs, r, dryRun);
    PruneRepliesStep(outs, r);
    Associative(from.events, PruneEvents(objs, outs), PruneObjectEvents(objs[|outs|], r));
    Associative(from.calls, PruneCalls(objs, outs, dryRun), DeleteCalls(objs[|outs|], r, dryRun));
    Associative(from.replies, PruneReplies(outs), PruneOneReplies(r));
  }

  /** One iteration of PruneTask.Run; an object that is already missing is not an error and gets no status. */
  method PruneOne(state: RunnerState, obj: V, dryRun: bool) returns (r: PruneResult)
    requires state.Valid()
    modifies state, state.manager, state.manager.store.cluster`live, state.manager.store.cluster`owned
    modifies state.manager.store.cluster`calls, state.manager.store.cluster`replies
    ensures state.Valid() && state.events == old(state.events) + PruneObjectEvents(obj, r)
    ensures state.manager.store.cluster.owned <= old(state.manager.store.cluster.owned) - PrunedIds([obj], [r], dryRun)
    ensures state.manager.store.cluster.calls == old(state.manager.store.cluster.calls) + DeleteCalls(obj, r, dryRun)
    ensures state.manager.store.cluster.replies == old(state.manager.store.cluster.replies) + PruneOneReplies(r)
  {
    state.SendEvent(PruneEvent(Pending, obj));
    r := RequestDelete(state.manager.store.cluster, obj, dryRun);
    if r != Pruned {
      if r != AlreadyGone { state.SendEvent(PruneEvent(Failed, obj)); }
      return;
    }
    state.SendEvent(PruneEvent(Successful, obj));
  }

  /** pruneObject: the delete request, if there is a REST mapping. */
  method RequestDelete(cluster: Cluster, obj: V, dryRun: bool) returns (r: PruneResult)
    requires cluster.Valid()
    modifies cluster`live, cluster`owned, cluster`calls, cluster`replies
    ensures cluster.Valid() && cluster.calls == old(cluster.calls) + DeleteCalls(obj, r, dryRun)
    ensures cluster.owned <= old(cluster.owned) - PrunedIds([obj], [r], dryRun)
    ensures cluster.replies == old(cluster.replies) + PruneOneReplies(r)
  {
    r := Unmapped;
    var mapped := cluster.CanSend();
    if mapped {
      var answer := cluster.Delete(obj.meta, dryRun);
      r := match answer case DeleteOk => Pruned case DeleteNotFound => AlreadyGone case DeleteError => Refused;
    }
  }

  lemma PruneStep(objs: seq<V>, outs: seq<PruneResult>, r: PruneResult, dryRun: bool)
    requires |outs| < |objs|
    ensures PruneEvents(objs, outs + [r]) == PruneEvents(objs, outs) + PruneObjectEvents(objs[|outs|], r)
    ensures PruneCalls(objs, outs + [r], dryRun) ==
            PruneCalls(objs, outs, dryRun) + DeleteCalls(objs[|outs|], r, dryRun)
    ensures PrunedIds(objs, outs + [r], dryRun) ==
            PrunedIds(objs, outs, dryRun) + PrunedIds([objs[|outs|]], [r], dryRun)
  {
    var outs' := outs + [r];
    assert outs'[..|outs|] == outs;
    var one := PrunedIds([objs[|outs|]], [r], dryRun);
    forall id ensures id in PrunedIds(objs, outs', dryRun) <==> id in PrunedIds(objs, outs, dryRun) || id in one {
      if id in PrunedIds(objs, outs, dryRun) {
        var i :| 0 <= i < |outs| && objs[i].meta == id && (outs[i] == AlreadyGone || (outs[i] == Pruned && !dryRun));
        assert outs'[i] == outs[i];
      }
      if id in one {
        assert [objs[|outs|]][0].meta == id && outs'[|outs|] == r;
      }
      if id in PrunedIds(objs, outs', dryRun) {
        var i :| 0 <= i < |outs'| && objs[i].meta == id && (outs'[i] == AlreadyGone || (outs'[i] == Pruned && !dryRun));
        if i == |outs| { assert [objs[|outs|]][0].meta == id && [r][0] == r; }
      }
    }
  }

  // ----- inventory -----

  /** InventoryTask.Run */
  method RunInventory(state: RunnerState, dryRun: bool) returns (ok: bool)
    requires state.Valid()
    modifies state, state.manager, state.manager.store, state.manager.store.cluster`live
    modifies state.manager.store.cluster`owned, state.manager.store.cluster`inventory
    modifies state.manager.store.cluster`replies
    ensures state.Valid()
    ensures state.manager.store.cluster.replies == old(state.manager.store.cluster.replies) + [SaveReply(ok)]
    ensures state.events ==
            old(state.events) + [InventoryEvent(Pending), InventoryEvent(if ok then Successful else Failed)]
    ensures state.manager.store.cluster.owned <= old(state.manager.store.cluster.owned)
    ensures state.manager.store.cluster.inventory ==
            TaskInventory(old(state.manager.store.cluster.inventory), InventoryTask(dryRun), SaveDone(ok),
                          RecordAll(old(state.events)), state.manager.startingObjects)
  {
    ghost var before := state.events;
    state.SendEvent(InventoryEvent(Pending));
    RecordAllStep(before, InventoryEvent(Pending));
    ok := state.manager.SaveCurrentInventoryState(dryRun);
    state.SendEvent(InventoryEvent(if ok then Successful else Failed));
  }
}
