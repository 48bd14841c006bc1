/** pkg/client/queuebuilder.go: from layers to the queue of tasks. */
module QueueBuilders {
  import opened Wrappers
  import opened Metadata
  import opened Annotation
  import opened Objects
  import opened Ordering
  import opened Sorting
  import opened Layering
  import opened DependencyGraphs
  import opened GraphBuilder
  import opened GroupOrder

  datatype Task =
    | ApplyTask(objects: seq<V>, dryRun: bool)
    | WaitTask(objects: seq<V>)
    | PruneTask(objects: seq<V>, dryRun: bool)
    | InventoryTask(dryRun: bool)

  datatype QueueOptions = QueueOptions(wait: bool, dryRun: bool, prune: bool)

  datatype BuildError = InvalidGraph(errors: seq<GraphError>) | CyclicDependency(dependencies: seq<Dependency>)

  predicate Waits(options: QueueOptions) {
    !options.dryRun && options.wait
  }

  /** The tasks of the groups: each group is applied and, if waiting is on, waited for. */
  function GroupTasks(groups: seq<seq<V>>, options: QueueOptions): seq<Task> {
    if groups == [] then []
    else
      var n := |groups| - 1;
      GroupTasks(groups[..n], options)
      + [ApplyTask(groups[n], options.dryRun)]
      + if Waits(options) then [WaitTask(groups[n])] else []
  }

  function QueueOf(groups: seq<seq<V>>, prune: seq<V>, options: QueueOptions): seq<Task> {
    GroupTasks(groups, options)
    + (if options.prune && prune != [] then [PruneTask(prune, options.dryRun)] else [])
    + [InventoryTask(options.dryRun)]
  }

  ghost predicate Buildable(objs: seq<V>) {
    (forall e :: !Reported(objs, e)) && !Cyclic(GraphOf(objs))
  }

  /** The same, as the builder finds out: no reference is bad, and sorting the graph leaves nothing over. */
  ghost predicate Accepted(objs: seq<V>) {
    (forall e :: !Reported(objs, e)) && Residue(GraphOf(objs)) == map[]
  }

  lemma AcceptedIsBuildable(objs: seq<V>)
    ensures Accepted(objs) <==> Buildable(objs)
  {
    GraphIsDetermined(GraphOf(objs), objs);
    SuccessIsAcyclic(GraphOf(objs));
  }

  /** The error lists every bad reference, or every dependency among the vertices that could not be sorted. */
  ghost predicate DescribesFailure(error: BuildError, objs: seq<V>) {
    match error
    case InvalidGraph(errors) => forall e :: e in errors <==> Reported(objs, e)
    case CyclicDependency(deps) => exists pairs :: ListsEdges(deps, pairs, Residue(GraphOf(objs)))
  }

  class QueueBuilder {
    var objects: seq<V>
    var pruneObjects: seq<V>

    constructor ()
      ensures objects == [] && pruneObjects == []
    {
      objects, pruneObjects := [], [];
    }

    method WithObjects(objs: seq<V>)
      modifies this
      ensures objects == objs && pruneObjects == old(pruneObjects)
    {
      objects := objs;
    }

    method WithPruneObjects(objs: seq<V>)
      modifies this
      ensures pruneObjects == objs && objects == old(objects)
    {
      pruneObjects := objs;
    }

    /** Build: the error of the graph or of its sorting, or the queue; the prune list is sorted in place. */
    method Build(options: QueueOptions) returns (r: Result<seq<Task>, BuildError>, groups: seq<seq<V>>)
      modifies this`pruneObjects
      ensures r.Ok? <==> Buildable(objects)
      ensures r.Ok? ==> AreGroups(groups, Layers(GraphOf(objects))) && r.value == QueueOf(groups, pruneObjects, options)
      ensures r.Ok? ==> GroupsInOrder(Less, groups)
      ensures r.Ok? ==> ((exists i :: 0 <= i < |r.value| && r.value[i].WaitTask?) <==>
                         groups != [] && options.wait && !options.dryRun)
      ensures r.Ok? ==> ((exists i :: 0 <= i < |r.value| && r.value[i].PruneTask?) <==>
                         pruneObjects != [] && options.prune)
      ensures r.Err? ==> DescribesFailure(r.error, objects)
      ensures multiset(pruneObjects) == multiset(old(pruneObjects))
      ensures r.Ok? && options.prune ==> Ordered(Flip(Less), pruneObjects)
      ensures r.Err? || !options.prune ==> pruneObjects == old(pruneObjects)
    {
      var sorted := GroupsToApply(objects);
      if sorted.Err? { return Err(sorted.error), []; }
      groups := sorted.value;
      if options.prune && |pruneObjects| > 0 { pruneObjects := PruneOrder(pruneObjects); }
      var tasks := TasksOf(groups, pruneObjects, options);
      return Ok(tasks), groups;
    }
  }

  /** The list of tasks that fills the queue. */
  method TasksOf(groups: seq<seq<V>>, prune: seq<V>, options: QueueOptions) returns (tasks: seq<Task>)
    ensures tasks == QueueOf(groups, prune, options)
    ensures (exists i :: 0 <= i < |tasks| && tasks[i].WaitTask?) <==> groups != [] && options.wait && !options.dryRun
    ensures (exists i :: 0 <= i < |tasks| && tasks[i].PruneTask?) <==> prune != [] && options.prune
  {
    tasks := TasksOfGroups(groups, options);
    if options.prune && |prune| > 0 { tasks := tasks + [PruneTask(prune, options.dryRun)]; }
    tasks := tasks + [InventoryTask(options.dryRun)];
    QueueIs(groups, prune, options);
  }

  /** The groups, of which there are none without objects. */
  method GroupsToApply(objs: seq<V>) returns (r: Result<seq<seq<V>>, BuildError>)
    ensures r.Ok? <==> Buildable(objs)
    ensures r.Ok? ==> AreGroups(r.value, Layers(GraphOf(objs))) && GroupsInOrder(Less, r.value)
    ensures r.Err? ==> DescribesFailure(r.error, objs)
  {
    if |objs| > 0 {
      r := SortedGroups(objs);
    } else {
      EmptyGraph(objs);
      r := Ok([]);
    }
  }

  /** The graph part of Build: construct it, sort it, report whichever step fails. */
  method SortedGroups(objs: seq<V>) returns (r: Result<seq<seq<V>>, BuildError>)
    ensures r.Ok? <==> Buildable(objs)
    ensures r.Ok? ==> AreGroups(r.value, Layers(GraphOf(objs))) && GroupsInOrder(Less, r.value)
    ensures r.Err? ==> DescribesFailure(r.error, objs)
  {
    var e := GraphOf(objs);
    GraphIsDetermined(e, objs);
    SuccessIsAcyclic(e);
    var graph, errors := NewDependencyGraph(objs);
    if graph == null { return Err(InvalidGraph(errors)); }
    GraphIsDetermined(graph.Contents(), objs);
    var sorted, cycle;
    ghost var pairs;
    LessIsStrictTotalOrder();
    sorted, cycle, pairs := graph.SortedResourceGroups(Less);
    if cycle.Some? {
      assert ListsEdges(cycle.value, pairs, Residue(e));
      return Err(CyclicDependency(cycle.value));
    }
    return Ok(sorted);
  }

  /** sort.Sort(sort.Reverse(...)) */
  method PruneOrder(objs: seq<V>) returns (sorted: seq<V>)
    ensures multiset(sorted) == multiset(objs) && |sorted| == |objs|
    ensures Ordered(Flip(Less), sorted)
  {
    LessIsStrictTotalOrder();
    sorted := Sort(Flip(Less), objs);
    assert |multiset(sorted)| == |multiset(objs)|;
  }

  method TasksOfGroups(groups: seq<seq<V>>, options: QueueOptions) returns (tasks: seq<Task>)
    ensures tasks == GroupTasks(groups, options)
  {
    tasks := [];
    for i := 0 to |groups|
      invariant tasks == GroupTasks(groups[..i], options)
    {
      assert groups[..i + 1][..i] == groups[..i];
      tasks := tasks + [ApplyTask(groups[i], options.dryRun)];
      if !options.dryRun && options.wait { tasks := tasks + [WaitTask(groups[i])]; }
    }
    assert groups[..|groups|] == groups;
  }

  lemma EmptyGraph(objs: seq<V>)
    requires objs == []
    ensures Buildable(objs) && Layers(GraphOf(objs)) == []
  {
    var e := GraphOf(objs);
    assert e == map[] && Ready(e) == {};
    forall o ensures !Held(objs, o) {
      LookupFindsHeld(objs, o.meta, o);
    }
  }

  // ----- where things are in the queue -----

  function ApplyIndex(options: QueueOptions, k: nat): nat {
    if Waits(options) then 2 * k else k
  }

  function GroupIndex(options: QueueOptions, i: nat): nat {
    if Waits(options) then i / 2 else i
  }

  lemma {:induction false} GroupTaskAt(groups: seq<seq<V>>, options: QueueOptions, k: nat)
    requires k < |groups|
    ensures |GroupTasks(groups, options)| == ApplyIndex(options, |groups|)
    ensures GroupTasks(groups, options)[ApplyIndex(options, k)] == ApplyTask(groups[k], options.dryRun)
    ensures Waits(options) ==> GroupTasks(groups, options)[2 * k + 1] == WaitTask(groups[k])
  {
    var n := |groups| - 1;
    if n > 0 { GroupTaskAt(groups[..n], options, if k < n then k else 0); }
  }

  /** The group of the `i`-th task of the queue, for the tasks that come from groups. */
  lemma GroupTaskIs(groups: seq<seq<V>>, options: QueueOptions, i: nat)
    requires i < |GroupTasks(groups, options)|
    ensures GroupIndex(options, i) < |groups|
    ensures var t := GroupTasks(groups, options)[i];
            (t.ApplyTask? || t.WaitTask?) && t.objects == groups[GroupIndex(options, i)]
    ensures GroupTasks(groups, options)[i].ApplyTask? ==> i == ApplyIndex(options, GroupIndex(options, i))
  {
    GroupTaskAt(groups, options, 0);
    GroupTaskAt(groups, options, GroupIndex(options, i));
  }

  /** The queue made of the layers of a graph, each sorted into a group, and of the prune list. */
  ghost predicate IsQueueOf(q: seq<Task>, e: Edges, prune: seq<V>, options: QueueOptions, groups: seq<seq<V>>) {
    AreGroups(groups, Layers(e)) && q == QueueOf(groups, prune, options)
  }

  predicate AppliesAt(q: seq<Task>, i: nat, o: V) {
    i < |q| && q[i].ApplyTask? && o in q[i].objects
  }

  lemma AppliedInLayer(q: seq<Task>, e: Edges, prune: seq<V>, options: QueueOptions, groups: seq<seq<V>>, i: nat, o: V)
    requires IsQueueOf(q, e, prune, options, groups) && AppliesAt(q, i, o)
    ensures GroupIndex(options, i) < |groups| && q[i].objects == groups[GroupIndex(options, i)]
    ensures i == ApplyIndex(options, GroupIndex(options, i))
    ensures InLayer(e, o, GroupIndex(options, i))
    ensures NoDuplicates(q[i].objects)
  {
    GroupTaskIs(groups, options, i);
    assert IsGroup(groups[GroupIndex(options, i)], Layers(e)[GroupIndex(options, i)]);
  }

  lemma AppliesLayer(q: seq<Task>, e: Edges, prune: seq<V>, options: QueueOptions, groups: seq<seq<V>>, k: nat, o: V)
    requires IsQueueOf(q, e, prune, options, groups) && InLayer(e, o, k)
    ensures AppliesAt(q, ApplyIndex(options, k), o)
  {
    GroupTaskAt(groups, options, k);
    assert IsGroup(groups[k], Layers(e)[k]);
  }

  /** Every vertex of a graph of which nothing is left over, and nothing else, is applied by exactly one task, once. */
  lemma AppliedOnce(q: seq<Task>, e: Edges, prune: seq<V>, options: QueueOptions, groups: seq<seq<V>>, o: V)
    requires IsQueueOf(q, e, prune, options, groups) && Residue(e) == map[]
    ensures o in e <==> exists i: nat :: AppliesAt(q, i, o)
    ensures forall i: nat, j: nat :: AppliesAt(q, i, o) && AppliesAt(q, j, o) ==> i == j
    ensures forall i: nat :: AppliesAt(q, i, o) ==> NoDuplicates(q[i].objects)
  {
    LayersCover(e, o);
    forall i: nat | AppliesAt(q, i, o)
      ensures InLayer(e, o, GroupIndex(options, i)) && i == ApplyIndex(options, GroupIndex(options, i))
      ensures NoDuplicates(q[i].objects)
    {
      AppliedInLayer(q, e, prune, options, groups, i, o);
    }
    if k :| InLayer(e, o, k) {
      AppliesLayer(q, e, prune, options, groups, k, o);
      LayerIsUnique(e, o, k);
    }
  }

  // ----- the shape of the queue -----

  /** Apply and wait tasks, then at most one prune task, then the inventory task. */
  ghost predicate HasShape(q: seq<Task>, prune: seq<V>, options: QueueOptions) {
    && q != []
    && q[|q| - 1] == InventoryTask(options.dryRun)
    && (forall i :: 0 <= i < |q| - 1 ==> !q[i].InventoryTask?)
    && (forall i :: 0 <= i < |q| && q[i].ApplyTask? ==> q[i].dryRun == options.dryRun)
    && (forall i :: 0 <= i < |q| && q[i].PruneTask? ==> i == |q| - 2 && q[i] == PruneTask(prune, options.dryRun))
    && (options.prune && prune != [] ==> |q| >= 2 && q[|q| - 2].PruneTask?)
  }

  /** Exactly the input is applied, each object by one task, once. */
  ghost predicate AppliesEachOnce(q: seq<Task>, objs: seq<V>) {
    && (forall i: nat, o :: AppliesAt(q, i, o) ==> o in objs)
    && (forall o :: o in objs ==> exists i: nat :: AppliesAt(q, i, o))
    && (forall i: nat, j: nat, o :: AppliesAt(q, i, o) && AppliesAt(q, j, o) ==> i == j)
    && (forall i :: 0 <= i < |q| && q[i].ApplyTask? ==> NoDuplicates(q[i].objects))
  }

  lemma {:induction false} GroupTasksShape(groups: seq<seq<V>>, options: QueueOptions)
    ensures forall i :: 0 <= i < |GroupTasks(groups, options)| ==>
              GroupTasks(groups, options)[i].WaitTask? ||
              (GroupTasks(groups, options)[i].ApplyTask? && GroupTasks(groups, options)[i].dryRun == options.dryRun)
  {
    if groups != [] { GroupTasksShape(groups[..|groups| - 1], options); }
  }

  lemma TailShape(head: seq<Task>, prune: seq<V>, options: QueueOptions)
    requires forall i :: 0 <= i < |head| ==>
               head[i].WaitTask? || (head[i].ApplyTask? && head[i].dryRun == options.dryRun)
    ensures HasShape(head + (if options.prune && prune != [] then [PruneTask(prune, options.dryRun)] else [])
                     + [InventoryTask(options.dryRun)], prune, options)
  {
  }

  /** What a queue that Build returns looks like, whatever the graph. */
  lemma QueueShape(groups: seq<seq<V>>, prune: seq<V>, options: QueueOptions)
    ensures HasShape(QueueOf(groups, prune, options), prune, options)
  {
    GroupTasksShape(groups, options);
    TailShape(GroupTasks(groups, options), prune, options);
  }

  /**
   * The queue task by task: each group is applied and, if waiting is asked for and this is no dry run, then waited
   * for; after the groups come the prune task, if there is something to prune and pruning is on, and the inventory
   * task.
   */
  lemma QueueIs(groups: seq<seq<V>>, prune: seq<V>, options: QueueOptions)
    ensures var q, n := QueueOf(groups, prune, options), |groups|;
            var tail := if options.prune && prune != [] then 2 else 1;
            && (options.wait && !options.dryRun ==>
                  |q| == 2 * n + tail
                  && forall k :: 0 <= k < n ==> AppliesThenWaits(q, 2 * k, groups[k], options.dryRun))
            && (!options.wait || options.dryRun ==>
                  |q| == n + tail && forall k :: 0 <= k < n ==> q[k] == ApplyTask(groups[k], options.dryRun))
            && (tail == 2 ==> q[|q| - 2] == PruneTask(prune, options.dryRun))
            && q[|q| - 1] == InventoryTask(options.dryRun)
    ensures var q := QueueOf(groups, prune, options);
            && ((exists i :: 0 <= i < |q| && q[i].WaitTask?) <==> groups != [] && options.wait && !options.dryRun)
            && ((exists i :: 0 <= i < |q| && q[i].PruneTask?) <==> prune != [] && options.prune)
  {
    var q := QueueOf(groups, prune, options);
    if groups != [] { GroupTaskAt(groups, options, 0); }
    forall k | 0 <= k < |groups|
      ensures Waits(options) ==> AppliesThenWaits(q, 2 * k, groups[k], options.dryRun)
      ensures !Waits(options) ==> q[k] == ApplyTask(groups[k], options.dryRun)
    {
      GroupTaskAt(groups, options, k);
      assert GroupTasks(groups, options) <= q;
    }
    QueueShape(groups, prune, options);
    forall i | 0 <= i < |q|
      ensures q[i].WaitTask? ==> groups != [] && Waits(options)
      ensures q[i].PruneTask? ==> prune != [] && options.prune
    {
      NoOtherTasks(groups, prune, options, i);
    }
  }

  predicate AppliesThenWaits(q: seq<Task>, i: nat, group: seq<V>, dryRun: bool) {
    i + 1 < |q| && q[i] == ApplyTask(group, dryRun) && q[i + 1] == WaitTask(group)
  }

  /** A queue without waiting has no wait task, and one without pruning no prune task. */
  lemma NoOtherTasks(groups: seq<seq<V>>, prune: seq<V>, options: QueueOptions, i: nat)
    requires i < |QueueOf(groups, prune, options)|
    ensures QueueOf(groups, prune, options)[i].WaitTask? ==> groups != [] && Waits(options)
    ensures QueueOf(groups, prune, options)[i].PruneTask? ==> prune != [] && options.prune
  {
    var q, t := QueueOf(groups, prune, options), GroupTasks(groups, options);
    if i < |t| {
      assert q[i] == t[i];
      GroupTaskIs(groups, options, i);
      GroupTaskAt(groups, options, GroupIndex(options, i));
    }
  }

  /** The queue for the objects of a graph of which nothing is left over applies each object once. */
  lemma InputAppliedOnce(q: seq<Task>, e: Edges, objs: seq<V>, prune: seq<V>, options: QueueOptions,
                         groups: seq<seq<V>>)
    requires IsQueueOf(q, e, prune, options, groups) && Residue(e) == map[]
    requires forall o :: o in e <==> o in objs
    ensures AppliesEachOnce(q, objs)
  {
    forall o
      ensures o in e <==> exists i: nat :: AppliesAt(q, i, o)
      ensures forall i: nat, j: nat :: AppliesAt(q, i, o) && AppliesAt(q, j, o) ==> i == j
    {
      AppliedOnce(q, e, prune, options, groups, o);
    }
    forall i | 0 <= i < |q| && q[i].ApplyTask? ensures NoDuplicates(q[i].objects) {
      GroupOfApplyTask(q, e, prune, options, groups, i);
    }
  }

  lemma GroupOfApplyTask(q: seq<Task>, e: Edges, prune: seq<V>, options: QueueOptions, groups: seq<seq<V>>, i: nat)
    requires IsQueueOf(q, e, prune, options, groups) && i < |q| && q[i].ApplyTask?
    ensures NoDuplicates(q[i].objects)
  {
    GroupTaskIs(groups, options, i);
    assert IsGroup(groups[GroupIndex(options, i)], Layers(e)[GroupIndex(options, i)]);
  }

  // ----- end-to-end order -----

  /** A dependency is applied by a strictly earlier task and, when waiting is on, waited for in between. */
  lemma DependencyComesFirst(q: seq<Task>, e: Edges, prune: seq<V>, options: QueueOptions, groups: seq<seq<V>>,
                             u: V, w: V, i: nat, j: nat)
    requires IsQueueOf(q, e, prune, options, groups) && Closed(e)
    requires u in e && w in e[u] && AppliesAt(q, i, u) && AppliesAt(q, j, w)
    ensures j < i
    ensures options.wait && !options.dryRun ==> j + 1 < i && q[j + 1] == WaitTask(q[j].objects)
  {
    AppliedInLayer(q, e, prune, options, groups, i, u);
    AppliedInLayer(q, e, prune, options, groups, j, w);
    DependencyIsEarlier(e, u, GroupIndex(options, i), w, GroupIndex(options, j));
    if Waits(options) { GroupTaskAt(groups, options, GroupIndex(options, j)); }
  }

  lemma EdgeOfGraph(objs: seq<V>, u: V, w: V)
    requires DependsOn(objs, u, w)
    ensures Closed(GraphOf(objs)) && u in GraphOf(objs) && w in GraphOf(objs)[u]
  {
    GraphIsDetermined(GraphOf(objs), objs);
    DependenciesAreInputs(objs, u, w);
  }

  predicate HasKind(o: V, group: string, kind: string) {
    o.meta.group == group && o.meta.kind == kind
  }

  /** The object is a CRD whose decoded spec defines this kind. */
  predicate DefinesTheKindOf(w: V, u: V) {
    HasKind(w, "apiextensions.k8s.io", "CustomResourceDefinition")
    && w.crd == Some(GroupKind(u.meta.group, u.meta.kind))
  }

  predicate IsTheNamespaceOf(w: V, u: V) {
    HasKind(w, "", "Namespace") && w.meta.name == u.meta.ns
  }

  /** The object is a webhook configuration one of whose entries names the service by name and namespace. */
  predicate IsCalledBy(w: V, u: V) {
    && (HasKind(u, "admissionregistration.k8s.io", "ValidatingWebhookConfiguration")
        || HasKind(u, "admissionregistration.k8s.io", "MutatingWebhookConfiguration"))
    && HasKind(w, "", "Service")
    && exists i :: 0 <= i < |u.webhooks| && u.webhooks[i] == Some(ServiceRef(w.meta.name, w.meta.ns))
  }

  /** The object has the annotation, and the id is among the references read from it. */
  predicate RefersTo(o: V, id: ObjectMetadata) {
    && "config.kubernetes.io/depends-on" in o.annotations
    && id in UnmarshalSpec(o.annotations["config.kubernetes.io/depends-on"]).0
  }

  /** The kinds of dependency the source promises to order, for objects with distinct ids. */
  predicate MustFollow(u: V, w: V) {
    DefinesTheKindOf(w, u) || IsTheNamespaceOf(w, u) || IsCalledBy(w, u) || RefersTo(u, w.meta)
  }

  lemma RulesInFields(u: V, w: V)
    ensures DefinesTheKindOf(w, u) <==> IsCRD(w) && w.crd == Some(GK(u.meta))
    ensures IsTheNamespaceOf(w, u) <==> IsNamespace(w) && w.meta.name == u.meta.ns
    ensures IsCalledBy(w, u) <==> IsRegistrationWebhook(u) && CallsService(u, w.meta)
    ensures RefersTo(u, w.meta) <==> w.meta in Explicit(u)
  {
    CallsServiceIs(u, w.meta);
  }

  /** With distinct ids, CRD kinds and namespace names, those are exactly the dependencies. */
  lemma MustFollowIsDependsOn(objs: seq<V>, u: V, w: V)
    requires DistinctIds(objs) && DistinctOwners(objs) && u in objs && w in objs
    ensures MustFollow(u, w) <==> DependsOn(objs, u, w)
  {
    RulesInFields(u, w);
    DistinctAreHeld(objs, u);
    DistinctAreHeld(objs, w);
    OnlyMatch(objs, DefinesKind(GK(u.meta)), w);
    OnlyMatch(objs, IsNamespaceNamed(u.meta.ns), w);
  }

  /** Namespaces, CRDs, called services and explicit dependencies are applied, and waited for, first. */
  lemma EndToEndOrder(q: seq<Task>, objs: seq<V>, prune: seq<V>, options: QueueOptions, groups: seq<seq<V>>, u: V, w: V)
    requires IsQueueOf(q, GraphOf(objs), prune, options, groups) && Residue(GraphOf(objs)) == map[]
    requires DistinctIds(objs) && DistinctOwners(objs)
    requires u in objs && w in objs && MustFollow(u, w)
    ensures exists i: nat, j: nat :: AppliesAt(q, i, u) && AppliesAt(q, j, w) && j < i
                                     && (options.wait && !options.dryRun ==>
                                           j + 1 < i && q[j + 1] == WaitTask(q[j].objects))
  {
    var e := GraphOf(objs);
    MustFollowIsDependsOn(objs, u, w);
    EdgeOfGraph(objs, u, w);
    AppliedOnce(q, e, prune, options, groups, u);
    AppliedOnce(q, e, prune, options, groups, w);
    var i: nat :| AppliesAt(q, i, u);
    var j: nat :| AppliesAt(q, j, w);
    DependencyComesFirst(q, e, prune, options, groups, u, w, i, j);
  }

  /**
   * With distinct ids alone, called services and explicit dependencies always come first. Of several CRDs for one
   * kind, or several Namespaces of one name, only the last in the input does.
   */
  lemma RulesAreExact(objs: seq<V>, u: V, w: V)
    requires DistinctIds(objs) && u in objs && w in objs
    ensures WebhookRule(objs, u, w) <==> IsCalledBy(w, u)
    ensures ExplicitRule(objs, u, w) <==> RefersTo(u, w.meta)
    ensures CustomResourceRule(objs, u, w) <==>
            exists i :: 0 <= i < |objs| && objs[i] == w && DefinesTheKindOf(w, u)
                        && forall j :: i < j < |objs| ==> !DefinesTheKindOf(objs[j], u)
    ensures NamespaceRule(objs, u, w) <==>
            exists i :: 0 <= i < |objs| && objs[i] == w && IsTheNamespaceOf(w, u)
                        && forall j :: i < j < |objs| ==> !IsTheNamespaceOf(objs[j], u)
  {
    DistinctAreHeld(objs, u);
    DistinctAreHeld(objs, w);
    RulesInFields(u, w);
    forall o ensures DefinesTheKindOf(o, u) <==> DefinesKind(GK(u.meta))(o)
             ensures IsTheNamespaceOf(o, u) <==> IsNamespaceNamed(u.meta.ns)(o)
    {
      RulesInFields(u, o);
    }
    LastMatchIsLast(objs, DefinesKind(GK(u.meta)), w);
    LastMatchIsLast(objs, IsNamespaceNamed(u.meta.ns), w);
  }

  /** The annotation of the object has a part that is no reference, with this error. */
  predicate IsMalformed(o: V, error: ReferenceError) {
    && "config.kubernetes.io/depends-on" in o.annotations
    && UnmarshalSpec(o.annotations["config.kubernetes.io/depends-on"]).1 == Some(error)
  }

  /**
   * With distinct ids: which errors there are. One for each object whose annotation has a malformed part, and one
   * from each object to each id that it refers to and no object has.
   */
  lemma ErrorsAreExact(objs: seq<V>, e: GraphError)
    requires DistinctIds(objs)
    ensures e.Malformed? ==> (Reported(objs, e) <==> e.obj in objs && IsMalformed(e.obj, e.error))
    ensures e.External? ==>
              (Reported(objs, e) <==>
               && (exists o :: o in objs && o.meta == e.from && RefersTo(o, e.to))
               && forall o :: o in objs ==> o.meta != e.to)
  {
    forall o ensures Held(objs, o) <==> o in objs { DistinctAreHeld(objs, o); }
    if e.External? { NobodyHas(objs, e.to); }
    if e.Malformed? && e.obj in objs && IsMalformed(e.obj, e.error) { assert Reports(objs, e.obj, e); }
    if o :| e.External? && o in objs && o.meta == e.from && RefersTo(o, e.to) {
      assert LastMatch(objs, HasMetadata(e.to)) == None ==> Reports(objs, o, e);
    }
  }

  lemma NobodyHas(objs: seq<V>, m: ObjectMetadata)
    ensures LastMatch(objs, HasMetadata(m)) == None <==> forall x :: x in objs ==> x.meta != m
  {
    if LastMatch(objs, HasMetadata(m)) == None {
      forall x | x in objs ensures x.meta != m {
        var i :| 0 <= i < |objs| && objs[i] == x;
        NoMatch(objs, HasMetadata(m), i);
      }
    } else {
      MatchedIsInput(objs, HasMetadata(m));
    }
  }
}
