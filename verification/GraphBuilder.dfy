/** pkg/resource/graph.go: NewDependencyGraph, against a declarative definition of who depends on whom. */
module GraphBuilder {
  import opened Wrappers
  import opened Metadata
  import opened Objects
  import opened Annotation
  import opened Layering
  import opened DependencyGraphs

  // ----- who holds a lookup entry -----

  type Test = V -> bool

  /** The last object of the list that passes the test: the one a map filled in list order ends up holding. */
  function LastMatch(objs: seq<V>, test: Test): Option<V> {
    if objs == [] then None
    else
      var o := objs[|objs| - 1];
      if test(o) then Some(o) else LastMatch(objs[..|objs| - 1], test)
  }

  function HasMetadata(m: ObjectMetadata): Test { (o: V) => o.meta == m }

  /** A CRD whose decoded spec defines the kind. */
  function DefinesKind(gk: GroupKind): Test { (o: V) => IsCRD(o) && o.crd == Some(gk) }

  function IsNamespaceNamed(name: string): Test { (o: V) => IsNamespace(o) && o.meta.name == name }

  /** Where the last match stands, if there is one. */
  lemma {:induction false} LastMatchAt(objs: seq<V>, test: Test) returns (i: nat)
    requires LastMatch(objs, test).Some?
    ensures i < |objs| && LastMatch(objs, test) == Some(objs[i]) && test(objs[i])
    ensures forall j :: i < j < |objs| ==> !test(objs[j])
  {
    i := |objs| - 1;
    if !test(objs[i]) {
      var front := objs[..i];
      i := LastMatchAt(front, test);
      forall j | i < j < |front| ensures !test(objs[j]) { assert front[j] == objs[j]; }
    }
  }

  lemma {:induction false} NoMatch(objs: seq<V>, test: Test, i: nat)
    requires LastMatch(objs, test) == None && i < |objs|
    ensures !test(objs[i])
  {
    if i < |objs| - 1 { NoMatch(objs[..|objs| - 1], test, i); }
  }

  lemma LastMatchIsLast(objs: seq<V>, test: Test, o: V)
    ensures LastMatch(objs, test) == Some(o) <==>
            exists i :: 0 <= i < |objs| && objs[i] == o && test(o) && forall j :: i < j < |objs| ==> !test(objs[j])
    ensures LastMatch(objs, test) == None <==> forall i :: 0 <= i < |objs| ==> !test(objs[i])
  {
    if LastMatch(objs, test) == None {
      forall i | 0 <= i < |objs| ensures !test(objs[i]) { NoMatch(objs, test, i); }
    } else {
      var k := LastMatchAt(objs, test);
      assert objs[k] == o ==> test(o);
      assert forall i :: 0 <= i < |objs| && test(objs[i]) && i != k ==> i < k;
    }
  }

  /** The object is the one the metadata lookup holds. */
  predicate Held(objs: seq<V>, o: V) {
    LastMatch(objs, HasMetadata(o.meta)) == Some(o)
  }

  // ----- the declarative edge relation -----

  function Explicit(o: V): seq<ObjectMetadata> { ExplicitSpec(o.annotations).0 }

  predicate CustomResourceRule(objs: seq<V>, from: V, to: V) {
    Held(objs, from) && LastMatch(objs, DefinesKind(GK(from.meta))) == Some(to)
  }

  predicate NamespaceRule(objs: seq<V>, from: V, to: V) {
    Held(objs, from) && LastMatch(objs, IsNamespaceNamed(from.meta.ns)) == Some(to)
  }

  predicate WebhookRule(objs: seq<V>, from: V, to: V) {
    from in objs && IsRegistrationWebhook(from) && CallsService(from, to.meta) && Held(objs, to)
  }

  predicate ExplicitRule(objs: seq<V>, from: V, to: V) {
    Held(objs, from) && Held(objs, to) && to.meta in Explicit(from)
  }

  predicate DependsOn(objs: seq<V>, from: V, to: V) {
    || CustomResourceRule(objs, from, to)
    || NamespaceRule(objs, from, to)
    || WebhookRule(objs, from, to)
    || ExplicitRule(objs, from, to)
  }

  datatype GraphError = Malformed(obj: V, error: ReferenceError) | External(from: ObjectMetadata, to: ObjectMetadata)

  /** The errors one held object contributes. */
  predicate Reports(objs: seq<V>, o: V, e: GraphError) {
    || (e.Malformed? && e.obj == o && ExplicitSpec(o.annotations).1 == Some(e.error))
    || (e.External? && e.from == o.meta && e.to in Explicit(o) && LastMatch(objs, HasMetadata(e.to)) == None)
  }

  /** Some held object has a malformed or an external reference. */
  ghost predicate Reported(objs: seq<V>, e: GraphError) {
    exists o :: Held(objs, o) && Reports(objs, o, e)
  }

  /** The graph is the declared one: its vertices are the input, its edges the dependencies. */
  ghost predicate IsGraphOf(e: Edges, objs: seq<V>) {
    && (forall v :: v in e <==> v in objs)
    && (forall u, w :: u in e ==> (w in e[u] <==> DependsOn(objs, u, w)))
  }

  // ----- the four lookups -----

  datatype Lookups = Lookups(
    crds: map<GroupKind, V>,
    namespaces: map<string, V>,
    webhooks: map<ObjectMetadata, seq<V>>,
    metadata: map<ObjectMetadata, V>)

  predicate Agrees<K(!new)>(table: map<K, V>, k: K, last: Option<V>) {
    if k in table then last == Some(table[k]) else last == None
  }

  ghost predicate MetadataOf(table: map<ObjectMetadata, V>, objs: seq<V>) {
    forall m :: Agrees(table, m, LastMatch(objs, HasMetadata(m)))
  }

  ghost predicate CrdsOf(table: map<GroupKind, V>, objs: seq<V>) {
    forall gk :: Agrees(table, gk, LastMatch(objs, DefinesKind(gk)))
  }

  ghost predicate NamespacesOf(table: map<string, V>, objs: seq<V>) {
    forall n :: Agrees(table, n, LastMatch(objs, IsNamespaceNamed(n)))
  }

  predicate Registered(webhooks: map<ObjectMetadata, seq<V>>, m: ObjectMetadata, o: V) {
    m in webhooks && o in webhooks[m]
  }

  ghost predicate WebhooksOf(table: map<ObjectMetadata, seq<V>>, objs: seq<V>) {
    forall m, o :: Registered(table, m, o) <==> o in objs && IsRegistrationWebhook(o) && CallsService(o, m)
  }

  ghost predicate LookupsOf(l: Lookups, objs: seq<V>) {
    && MetadataOf(l.metadata, objs) && CrdsOf(l.crds, objs)
    && NamespacesOf(l.namespaces, objs) && WebhooksOf(l.webhooks, objs)
  }

  lemma LastMatchAppend(before: seq<V>, o: V, test: Test)
    ensures LastMatch(before + [o], test) == if test(o) then Some(o) else LastMatch(before, test)
  {
    assert (before + [o])[..|before|] == before;
  }

  lemma MetadataStep(table: map<ObjectMetadata, V>, before: seq<V>, o: V)
    requires MetadataOf(table, before)
    ensures MetadataOf(table[o.meta := o], before + [o])
  {
    forall m ensures Agrees(table[o.meta := o], m, LastMatch(before + [o], HasMetadata(m))) {
      LastMatchAppend(before, o, HasMetadata(m));
      assert Agrees(table, m, LastMatch(before, HasMetadata(m)));
    }
  }

  lemma CrdStep(table: map<GroupKind, V>, before: seq<V>, o: V)
    requires CrdsOf(table, before)
    ensures CrdsOf(if IsCRD(o) && o.crd.Some? then table[o.crd.value := o] else table, before + [o])
  {
    var table' := if IsCRD(o) && o.crd.Some? then table[o.crd.value := o] else table;
    forall gk ensures Agrees(table', gk, LastMatch(before + [o], DefinesKind(gk))) {
      LastMatchAppend(before, o, DefinesKind(gk));
      assert Agrees(table, gk, LastMatch(before, DefinesKind(gk)));
    }
  }

  lemma NamespaceStep(table: map<string, V>, before: seq<V>, o: V)
    requires NamespacesOf(table, before)
    ensures NamespacesOf(if IsNamespace(o) then table[o.meta.name := o] else table, before + [o])
  {
    var table' := if IsNamespace(o) then table[o.meta.name := o] else table;
    forall n ensures Agrees(table', n, LastMatch(before + [o], IsNamespaceNamed(n))) {
      LastMatchAppend(before, o, IsNamespaceNamed(n));
      assert Agrees(table, n, LastMatch(before, IsNamespaceNamed(n)));
    }
  }

  lemma WebhookStep(table: map<ObjectMetadata, seq<V>>, table': map<ObjectMetadata, seq<V>>, before: seq<V>, o: V)
    requires WebhooksOf(table, before)
    requires forall m, x :: Registered(table', m, x) <==>
                            Registered(table, m, x) || (x == o && IsRegistrationWebhook(o) && CallsService(o, m))
    ensures WebhooksOf(table', before + [o])
  {
  }

  /** The kinds are told apart by a first-match switch, which is a case split because they differ. */
  lemma KindsAreDisjoint(o: V)
    ensures !(IsCRD(o) && IsNamespace(o)) && !(IsCRD(o) && IsRegistrationWebhook(o))
    ensures !(IsNamespace(o) && IsRegistrationWebhook(o))
  {
    assert |CRD_GK.kind| == 24 && |NAMESPACE_GK.kind| == 9 && |VALIDATING_GK.kind| == 30 && |MUTATING_GK.kind| == 28;
  }

  /** What one more object does to the lookups. */
  method Register(l: Lookups, o: V, ghost before: seq<V>) returns (l': Lookups)
    requires LookupsOf(l, before)
    ensures LookupsOf(l', before + [o])
  {
    KindsAreDisjoint(o);
    MetadataStep(l.metadata, before, o);
    CrdStep(l.crds, before, o);
    NamespaceStep(l.namespaces, before, o);
    l' := l.(metadata := l.metadata[o.meta := o]);
    if IsCRD(o) {
      if o.crd.Some? { l' := l'.(crds := l'.crds[o.crd.value := o]); }
    } else if IsNamespace(o) {
      l' := l'.(namespaces := l'.namespaces[o.meta.name := o]);
    } else if IsRegistrationWebhook(o) {
      var webhooks := RegisterWebhook(l'.webhooks, o);
      l' := l'.(webhooks := webhooks);
    }
    WebhookStep(l.webhooks, l'.webhooks, before, o);
  }

  method RegisterWebhook(webhooks: map<ObjectMetadata, seq<V>>, o: V) returns (webhooks': map<ObjectMetadata, seq<V>>)
    ensures forall m, x :: Registered(webhooks', m, x) <==> Registered(webhooks, m, x) || (x == o && CallsService(o, m))
  {
    var services := ServicesMetadataFromWebhook(o);
    webhooks' := webhooks;
    for i := 0 to |services|
      invariant forall m, x :: Registered(webhooks', m, x) <==>
                               Registered(webhooks, m, x) || (x == o && m in services[..i])
    {
      var svc := services[i];
      var registered := if svc in webhooks' then webhooks'[svc] else [];
      ghost var before := webhooks';
      assert services[..i + 1] == services[..i] + [svc];
      webhooks' := webhooks'[svc := registered + [o]];
      assert forall m, x :: Registered(webhooks', m, x) <==> Registered(before, m, x) || (x == o && m == svc);
    }
    assert services[..|services|] == services;
  }

  // ----- one held object -----

  /** The edges inserted while the lookup entry of `o` is visited. */
  predicate Contributes(objs: seq<V>, o: V, from: V, to: V) {
    || (from == o && LastMatch(objs, DefinesKind(GK(o.meta))) == Some(to))
    || (from == o && LastMatch(objs, IsNamespaceNamed(o.meta.ns)) == Some(to))
    || (to == o && from in objs && IsRegistrationWebhook(from) && CallsService(from, o.meta))
    || (from == o && Held(objs, to) && to.meta in Explicit(o))
  }

  /** Every edge comes from visiting exactly one kind of entry: the source's, or the called service's. */
  lemma ContributionsAreDependencies(objs: seq<V>, from: V, to: V)
    ensures DependsOn(objs, from, to) <==> exists o :: Held(objs, o) && Contributes(objs, o, from, to)
  {
    if CustomResourceRule(objs, from, to) || NamespaceRule(objs, from, to) || ExplicitRule(objs, from, to) {
      assert Held(objs, from) && Contributes(objs, from, from, to);
    }
    if WebhookRule(objs, from, to) {
      assert Held(objs, to) && Contributes(objs, to, from, to);
    }
  }

  lemma MatchedIsInput(objs: seq<V>, test: Test)
    ensures LastMatch(objs, test).Some? ==> LastMatch(objs, test).value in objs && test(LastMatch(objs, test).value)
  {
    if LastMatch(objs, test).Some? { LastMatchIsLast(objs, test, LastMatch(objs, test).value); }
  }

  /** Looking up metadata finds the held object with that metadata, if there is one. */
  lemma LookupFindsHeld(objs: seq<V>, m: ObjectMetadata, w: V)
    ensures LastMatch(objs, HasMetadata(m)) == Some(w) <==> Held(objs, w) && w.meta == m
    ensures Held(objs, w) ==> w in objs
  {
    MatchedIsInput(objs, HasMetadata(m));
    MatchedIsInput(objs, HasMetadata(w.meta));
  }

  /** The held objects that the references name, in the order of the references. */
  function HeldAmong(objs: seq<V>, refs: seq<ObjectMetadata>): seq<V> {
    if refs == [] then []
    else
      var n := |refs| - 1;
      HeldAmong(objs, refs[..n])
      + match LastMatch(objs, HasMetadata(refs[n])) case Some(w) => [w] case None => []
  }

  /** One error for every reference that names no held object. */
  function ExternalAmong(objs: seq<V>, o: V, refs: seq<ObjectMetadata>): seq<GraphError> {
    if refs == [] then []
    else
      var n := |refs| - 1;
      ExternalAmong(objs, o, refs[..n])
      + if LastMatch(objs, HasMetadata(refs[n])) == None then [External(o.meta, refs[n])] else []
  }

  function MalformedIn(o: V): seq<GraphError> {
    match ExplicitSpec(o.annotations).1
    case Some(error) => [Malformed(o, error)]
    case None => []
  }

  lemma {:induction false} HeldAmongIs(objs: seq<V>, refs: seq<ObjectMetadata>, w: V)
    ensures w in HeldAmong(objs, refs) <==> Held(objs, w) && w.meta in refs
  {
    if refs != [] {
      var n := |refs| - 1;
      HeldAmongIs(objs, refs[..n], w);
      assert refs == refs[..n] + [refs[n]];
      LookupFindsHeld(objs, refs[n], w);
    }
  }

  lemma {:induction false} ExternalAmongIs(objs: seq<V>, o: V, refs: seq<ObjectMetadata>, e: GraphError)
    ensures e in ExternalAmong(objs, o, refs) <==>
            e.External? && e.from == o.meta && e.to in refs && LastMatch(objs, HasMetadata(e.to)) == None
  {
    if refs != [] {
      var n := |refs| - 1;
      ExternalAmongIs(objs, o, refs[..n], e);
      assert refs == refs[..n] + [refs[n]];
    }
  }

  /** The results of dependendenciesForObj hold exactly the dependencies and the errors of the object. */
  lemma ReferencesAreComplete(objs: seq<V>, o: V)
    ensures forall w :: w in HeldAmong(objs, Explicit(o)) <==> Held(objs, w) && w.meta in Explicit(o)
    ensures forall e :: e in MalformedIn(o) + ExternalAmong(objs, o, Explicit(o)) <==> Reports(objs, o, e)
  {
    forall w ensures w in HeldAmong(objs, Explicit(o)) <==> Held(objs, w) && w.meta in Explicit(o) {
      HeldAmongIs(objs, Explicit(o), w);
    }
    forall e ensures e in MalformedIn(o) + ExternalAmong(objs, o, Explicit(o)) <==> Reports(objs, o, e) {
      ExternalAmongIs(objs, o, Explicit(o), e);
    }
  }

  /** dependendenciesForObj */
  method DependenciesForObj(o: V, l: Lookups, ghost objs: seq<V>)
    returns (dependencies: seq<V>, errors: seq<GraphError>)
    requires LookupsOf(l, objs)
    ensures dependencies == HeldAmong(objs, Explicit(o))
    ensures errors == MalformedIn(o) + ExternalAmong(objs, o, Explicit(o))
  {
    var refs, err := if DEPENDS_ON in o.annotations then Some(o.annotations[DEPENDS_ON]) else None, None;
    var metas: seq<ObjectMetadata> := [];
    if refs.Some? { metas, err := Unmarshal(refs.value); }
    assert (metas, err) == ExplicitSpec(o.annotations);
    var external;
    dependencies, external := ResolveReferences(o, metas, l, objs);
    errors := (if err.Some? then [Malformed(o, err.value)] else []) + external;
  }

  /** The loop over the references. */
  method ResolveReferences(o: V, metas: seq<ObjectMetadata>, l: Lookups, ghost objs: seq<V>)
    returns (dependencies: seq<V>, errors: seq<GraphError>)
    requires LookupsOf(l, objs)
    ensures dependencies == HeldAmong(objs, metas) && errors == ExternalAmong(objs, o, metas)
  {
    dependencies, errors := [], [];
    for i := 0 to |metas|
      invariant dependencies == HeldAmong(objs, metas[..i]) && errors == ExternalAmong(objs, o, metas[..i])
    {
      assert metas[..i + 1][..i] == metas[..i];
      assert Agrees(l.metadata, metas[i], LastMatch(objs, HasMetadata(metas[i])));
      if metas[i] in l.metadata {
        dependencies := dependencies + [l.metadata[metas[i]]];
      } else {
        errors := errors + [External(o.meta, metas[i])];
      }
    }
    assert metas[..|metas|] == metas;
  }

  // ----- growing the graph -----

  /** The graph gained exactly these edges and no vertex. */
  ghost predicate GrewBy(e: Edges, e': Edges, pairs: set<(V, V)>) {
    && e'.Keys == e.Keys
    && forall u, w :: u in e ==> (w in e'[u] <==> w in e[u] || (u, w) in pairs)
  }

  function PairsFrom(from: V, targets: seq<V>): set<(V, V)> {
    set w | w in targets :: (from, w)
  }

  function PairsTo(sources: seq<V>, to: V): set<(V, V)> {
    set u | u in sources :: (u, to)
  }

  lemma GrewByTwice(e: Edges, e': Edges, e'': Edges, p: set<(V, V)>, q: set<(V, V)>)
    requires GrewBy(e, e', p) && GrewBy(e', e'', q)
    ensures GrewBy(e, e'', p + q)
  {
    forall u, w | u in e ensures w in e''[u] <==> w in e[u] || (u, w) in p + q {
      assert w in e''[u] <==> w in e'[u] || (u, w) in q;
    }
  }

  lemma PairsFromStep(from: V, targets: seq<V>, i: nat)
    requires i < |targets|
    ensures PairsFrom(from, targets[..i + 1]) == PairsFrom(from, targets[..i]) + {(from, targets[i])}
  {
    assert targets[..i + 1] == targets[..i] + [targets[i]];
  }

  lemma PairsToStep(sources: seq<V>, to: V, i: nat)
    requires i < |sources|
    ensures PairsTo(sources[..i + 1], to) == PairsTo(sources[..i], to) + {(sources[i], to)}
  {
    assert sources[..i + 1] == sources[..i] + [sources[i]];
  }

  method AddKnownEdge(graph: DependencyGraph, from: V, to: V)
    requires graph.Valid() && from in graph.edges && to in graph.edges
    modifies graph, graph.edges.Values
    ensures graph.Valid() && fresh(graph.edges.Values - old(graph.edges.Values))
    ensures GrewBy(old(graph.Contents()), graph.Contents(), {(from, to)})
  {
    assert from in graph.Contents() && to in graph.Contents();
    graph.AddEdge(from, to);
  }

  method AddEdgesFrom(graph: DependencyGraph, from: V, targets: seq<V>)
    requires graph.Valid() && from in graph.edges && forall w :: w in targets ==> w in graph.edges
    modifies graph, graph.edges.Values
    ensures graph.Valid() && fresh(graph.edges.Values - old(graph.edges.Values))
    ensures GrewBy(old(graph.Contents()), graph.Contents(), PairsFrom(from, targets))
  {
    ghost var e := graph.Contents();
    for i := 0 to |targets|
      invariant graph.Valid() && fresh(graph.edges.Values - old(graph.edges.Values))
      invariant GrewBy(e, graph.Contents(), PairsFrom(from, targets[..i]))
    {
      ghost var e' := graph.Contents();
      assert graph.edges.Keys == e'.Keys == e.Keys;
      AddKnownEdge(graph, from, targets[i]);
      PairsFromStep(from, targets, i);
      GrewByTwice(e, e', graph.Contents(), PairsFrom(from, targets[..i]), {(from, targets[i])});
    }
    assert targets[..|targets|] == targets;
  }

  method AddEdgesTo(graph: DependencyGraph, sources: seq<V>, to: V)
    requires graph.Valid() && to in graph.edges && forall u :: u in sources ==> u in graph.edges
    modifies graph, graph.edges.Values
    ensures graph.Valid() && fresh(graph.edges.Values - old(graph.edges.Values))
    ensures GrewBy(old(graph.Contents()), graph.Contents(), PairsTo(sources, to))
  {
    ghost var e := graph.Contents();
    for i := 0 to |sources|
      invariant graph.Valid() && fresh(graph.edges.Values - old(graph.edges.Values))
      invariant GrewBy(e, graph.Contents(), PairsTo(sources[..i], to))
    {
      ghost var e' := graph.Contents();
      assert graph.edges.Keys == e'.Keys == e.Keys;
      AddKnownEdge(graph, sources[i], to);
      PairsToStep(sources, to, i);
      GrewByTwice(e, e', graph.Contents(), PairsTo(sources[..i], to), {(sources[i], to)});
    }
    assert sources[..|sources|] == sources;
  }

  ghost predicate HasVertices(e: Edges, objs: seq<V>) {
    forall v :: v in e <==> v in objs
  }

  /** The body of the second loop of NewDependencyGraph, for one lookup entry. */
  method VisitEntry(graph: DependencyGraph, l: Lookups, o: V, ghost objs: seq<V>) returns (errors: seq<GraphError>)
    requires LookupsOf(l, objs) && Held(objs, o)
    requires graph.Valid() && HasVertices(graph.Contents(), objs)
    modifies graph, graph.edges.Values
    ensures graph.Valid() && fresh(graph.edges.Values - old(graph.edges.Values))
    ensures graph.Contents().Keys == old(graph.Contents()).Keys
    ensures forall u, w :: u in graph.Contents() ==>
              (w in graph.Contents()[u] <==> w in old(graph.Contents())[u] || Contributes(objs, o, u, w))
    ensures forall e :: e in errors <==> Reports(objs, o, e)
  {
    var crd, namespace_, webhooks := EntryNeighbours(l, o, objs);
    var dependencies;
    dependencies, errors := DependenciesForObj(o, l, objs);
    ReferencesAreComplete(objs, o);
    forall w | w in dependencies ensures w in objs { LookupFindsHeld(objs, w.meta, w); }
    LookupFindsHeld(objs, o.meta, o);
    NeighboursAreContributions(objs, o, crd, namespace_, webhooks, dependencies);
    assert graph.edges.Keys == graph.Contents().Keys;
    AddNeighbours(graph, o, crd, namespace_, webhooks, dependencies);
  }

  method AddNeighbours(graph: DependencyGraph, o: V, crd: seq<V>, ns: seq<V>, webhooks: seq<V>, deps: seq<V>)
    requires graph.Valid() && o in graph.edges
    requires forall w :: w in crd || w in ns || w in webhooks || w in deps ==> w in graph.edges
    modifies graph, graph.edges.Values
    ensures graph.Valid() && fresh(graph.edges.Values - old(graph.edges.Values))
    ensures GrewBy(old(graph.Contents()), graph.Contents(), NeighbourPairs(o, crd, ns, webhooks, deps))
  {
    ghost var e0 := graph.Contents();
    AddOwnerEdges(graph, o, crd, ns);
    ghost var e2 := graph.Contents();
    assert graph.edges.Keys == e2.Keys == e0.Keys;
    AddReferenceEdges(graph, o, webhooks, deps);
    GrewByTwice(e0, e2, graph.Contents(), PairsFrom(o, crd) + PairsFrom(o, ns),
                PairsTo(webhooks, o) + PairsFrom(o, deps));
  }

  /** The edges to the CRD and to the namespace of the object. */
  method AddOwnerEdges(graph: DependencyGraph, o: V, crd: seq<V>, ns: seq<V>)
    requires graph.Valid() && o in graph.edges
    requires forall w :: w in crd || w in ns ==> w in graph.edges
    modifies graph, graph.edges.Values
    ensures graph.Valid() && fresh(graph.edges.Values - old(graph.edges.Values))
    ensures GrewBy(old(graph.Contents()), graph.Contents(), PairsFrom(o, crd) + PairsFrom(o, ns))
  {
    ghost var e0 := graph.Contents();
    AddEdgesFrom(graph, o, crd);
    ghost var e1 := graph.Contents();
    assert graph.edges.Keys == e1.Keys == e0.Keys;
    AddEdgesFrom(graph, o, ns);
    GrewByTwice(e0, e1, graph.Contents(), PairsFrom(o, crd), PairsFrom(o, ns));
  }

  /** The edges from the webhooks that call the object, and to its explicit dependencies. */
  method AddReferenceEdges(graph: DependencyGraph, o: V, webhooks: seq<V>, deps: seq<V>)
    requires graph.Valid() && o in graph.edges
    requires forall w :: w in webhooks || w in deps ==> w in graph.edges
    modifies graph, graph.edges.Values
    ensures graph.Valid() && fresh(graph.edges.Values - old(graph.edges.Values))
    ensures GrewBy(old(graph.Contents()), graph.Contents(), PairsTo(webhooks, o) + PairsFrom(o, deps))
  {
    ghost var e0 := graph.Contents();
    AddEdgesTo(graph, webhooks, o);
    ghost var e1 := graph.Contents();
    assert graph.edges.Keys == e1.Keys == e0.Keys;
    AddEdgesFrom(graph, o, deps);
    GrewByTwice(e0, e1, graph.Contents(), PairsTo(webhooks, o), PairsFrom(o, deps));
  }

  function NeighbourPairs(o: V, crd: seq<V>, ns: seq<V>, webhooks: seq<V>, deps: seq<V>): set<(V, V)> {
    (PairsFrom(o, crd) + PairsFrom(o, ns)) + (PairsTo(webhooks, o) + PairsFrom(o, deps))
  }

  /** What the CRD, namespace and webhook lookups say about one entry. */
  method EntryNeighbours(l: Lookups, o: V, ghost objs: seq<V>)
    returns (crd: seq<V>, namespace_: seq<V>, webhooks: seq<V>)
    requires LookupsOf(l, objs)
    ensures forall w :: w in crd <==> LastMatch(objs, DefinesKind(GK(o.meta))) == Some(w)
    ensures forall w :: w in namespace_ <==> LastMatch(objs, IsNamespaceNamed(o.meta.ns)) == Some(w)
    ensures forall u :: u in webhooks <==> u in objs && IsRegistrationWebhook(u) && CallsService(u, o.meta)
    ensures forall w :: w in crd || w in namespace_ || w in webhooks ==> w in objs
  {
    var gk, ns := GK(o.meta), o.meta.ns;
    MatchedIsInput(objs, DefinesKind(gk));
    MatchedIsInput(objs, IsNamespaceNamed(ns));
    assert Agrees(l.crds, gk, LastMatch(objs, DefinesKind(gk)));
    assert Agrees(l.namespaces, ns, LastMatch(objs, IsNamespaceNamed(ns)));
    crd := if gk in l.crds then [l.crds[gk]] else [];
    namespace_ := if ns in l.namespaces then [l.namespaces[ns]] else [];
    webhooks := if o.meta in l.webhooks then l.webhooks[o.meta] else [];
    assert forall u :: u in webhooks <==> Registered(l.webhooks, o.meta, u);
  }

  lemma NeighboursAreContributions(objs: seq<V>, o: V, crd: seq<V>, ns: seq<V>, webhooks: seq<V>, deps: seq<V>)
    requires forall w :: w in crd <==> LastMatch(objs, DefinesKind(GK(o.meta))) == Some(w)
    requires forall w :: w in ns <==> LastMatch(objs, IsNamespaceNamed(o.meta.ns)) == Some(w)
    requires forall u :: u in webhooks <==> u in objs && IsRegistrationWebhook(u) && CallsService(u, o.meta)
    requires forall w :: w in deps <==> Held(objs, w) && w.meta in Explicit(o)
    ensures forall u, w :: (u, w) in NeighbourPairs(o, crd, ns, webhooks, deps) <==> Contributes(objs, o, u, w)
  {
  }

  // ----- NewDependencyGraph -----

  /** The first loop: every object becomes a vertex and is registered in the lookups. */
  method RegisterAll(g: DependencyGraph, objs: seq<V>) returns (l: Lookups)
    requires g.Valid() && g.edges == map[]
    modifies g
    ensures g.Valid() && fresh(g.edges.Values)
    ensures HasVertices(g.Contents(), objs) && forall v :: v in g.Contents() ==> g.Contents()[v] == {}
    ensures LookupsOf(l, objs)
  {
    l := Lookups(map[], map[], map[], map[]);
    for i := 0 to |objs|
      invariant fresh(g.edges.Values) && g.Valid()
      invariant HasVertices(g.Contents(), objs[..i])
      invariant forall v :: v in g.Contents() ==> g.Contents()[v] == {}
      invariant LookupsOf(l, objs[..i])
    {
      assert objs[..i + 1] == objs[..i] + [objs[i]];
      g.AddVertex(objs[i]);
      l := Register(l, objs[i], objs[..i]);
    }
    assert objs[..|objs|] == objs;
  }

  /** The lookup entry of the object is no longer to do. */
  predicate Visited(l: Lookups, todo: set<ObjectMetadata>, o: V) {
    o.meta in l.metadata && l.metadata[o.meta] == o && o.meta !in todo
  }

  /** The edges and errors of the entries already visited. */
  ghost predicate VisitedSoFar(e: Edges, errors: seq<GraphError>, l: Lookups, todo: set<ObjectMetadata>, objs: seq<V>) {
    && HasVertices(e, objs)
    && (forall u, w :: u in e ==> (w in e[u] <==> exists o :: Visited(l, todo, o) && Contributes(objs, o, u, w)))
    && (forall x :: x in errors <==> exists o :: Visited(l, todo, o) && Reports(objs, o, x))
  }

  lemma VisitOneMore(e: Edges, e': Edges, errors: seq<GraphError>, more: seq<GraphError>, l: Lookups,
                     todo: set<ObjectMetadata>, m: ObjectMetadata, objs: seq<V>)
    requires VisitedSoFar(e, errors, l, todo, objs)
    requires m in todo && m in l.metadata && l.metadata[m].meta == m
    requires e'.Keys == e.Keys
    requires forall u, w :: u in e ==> (w in e'[u] <==> w in e[u] || Contributes(objs, l.metadata[m], u, w))
    requires forall x :: x in more <==> Reports(objs, l.metadata[m], x)
    ensures VisitedSoFar(e', errors + more, l, todo - {m}, objs)
  {
    var o := l.metadata[m];
    assert forall x :: Visited(l, todo - {m}, x) <==> Visited(l, todo, x) || x == o;
    forall u, w | u in e
      ensures w in e'[u] <==> exists x :: Visited(l, todo - {m}, x) && Contributes(objs, x, u, w)
    {
      assert Contributes(objs, o, u, w) ==> Visited(l, todo - {m}, o);
    }
    forall x ensures x in errors + more <==> exists y :: Visited(l, todo - {m}, y) && Reports(objs, y, x) {
      assert Reports(objs, o, x) ==> Visited(l, todo - {m}, o);
    }
  }

  lemma AllVisited(e: Edges, errors: seq<GraphError>, l: Lookups, objs: seq<V>)
    requires LookupsOf(l, objs) && VisitedSoFar(e, errors, l, {}, objs)
    ensures IsGraphOf(e, objs)
    ensures forall x :: x in errors <==> Reported(objs, x)
  {
    forall o ensures Visited(l, {}, o) <==> Held(objs, o) {
      assert Agrees(l.metadata, o.meta, LastMatch(objs, HasMetadata(o.meta)));
    }
    forall u, w ensures DependsOn(objs, u, w) <==> exists o :: Visited(l, {}, o) && Contributes(objs, o, u, w) {
      ContributionsAreDependencies(objs, u, w);
    }
    forall x ensures x in errors <==> Reported(objs, x) {
      if Reported(objs, x) {
        var o :| Held(objs, o) && Reports(objs, o, x);
        assert Visited(l, {}, o);
      }
    }
  }

  /** The second loop: the lookup entries in any order. */
  method VisitAll(g: DependencyGraph, l: Lookups, ghost objs: seq<V>) returns (errors: seq<GraphError>)
    requires g.Valid() && LookupsOf(l, objs) && VisitedSoFar(g.Contents(), [], l, l.metadata.Keys, objs)
    modifies g, g.edges.Values
    ensures g.Valid() && fresh(g.edges.Values - old(g.edges.Values))
    ensures VisitedSoFar(g.Contents(), errors, l, {}, objs)
  {
    errors := [];
    var todo := l.metadata.Keys;
    while todo != {}
      invariant g.Valid() && fresh(g.edges.Values - old(g.edges.Values))
      invariant todo <= l.metadata.Keys
      invariant VisitedSoFar(g.Contents(), errors, l, todo, objs)
    {
      var m :| m in todo;
      errors := VisitNext(g, l, m, errors, todo, objs);
      todo := todo - {m};
    }
  }

  /** One iteration of the second loop. */
  method VisitNext(g: DependencyGraph, l: Lookups, m: ObjectMetadata, errors: seq<GraphError>,
                   ghost todo: set<ObjectMetadata>, ghost objs: seq<V>)
    returns (r: seq<GraphError>)
    requires g.Valid() && LookupsOf(l, objs) && m in todo && todo <= l.metadata.Keys
    requires VisitedSoFar(g.Contents(), errors, l, todo, objs)
    modifies g, g.edges.Values
    ensures g.Valid() && fresh(g.edges.Values - old(g.edges.Values))
    ensures VisitedSoFar(g.Contents(), r, l, todo - {m}, objs)
  {
    var o := l.metadata[m];
    ghost var e := g.Contents();
    assert Agrees(l.metadata, m, LastMatch(objs, HasMetadata(m)));
    LookupFindsHeld(objs, m, o);
    var more := VisitEntry(g, l, o, objs);
    VisitOneMore(e, g.Contents(), errors, more, l, todo, m, objs);
    r := errors + more;
  }

  /** NewDependencyGraph: `nil` and the errors, or the declared graph. */
  method NewDependencyGraph(objs: seq<V>) returns (graph: DependencyGraph?, errors: seq<GraphError>)
    ensures graph == null <==> exists e :: Reported(objs, e)
    ensures forall e :: e in errors <==> Reported(objs, e)
    ensures graph != null ==> fresh(graph) && fresh(graph.edges.Values) && graph.Valid()
    ensures graph != null ==> IsGraphOf(graph.Contents(), objs)
  {
    var g := new DependencyGraph();
    var l := RegisterAll(g, objs);
    errors := VisitAll(g, l, objs);
    AllVisited(g.Contents(), errors, l, objs);
    if |errors| > 0 {
      assert Reported(objs, errors[0]);
      graph := null;
    } else {
      graph := g;
    }
  }
}
