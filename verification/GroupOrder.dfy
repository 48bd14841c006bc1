/** What the groups are a function of: the declared graph, and for distinct inputs not even the input order. */
module GroupOrder {
  import opened Wrappers
  import opened Objects
  import opened Ordering
  import opened Sorting
  import opened Layering
  import opened DependencyGraphs
  import opened GraphBuilder

  /** The declared graph as a value. */
  function GraphOf(objs: seq<V>): Edges {
    map v | v in objs :: set w | w in objs && DependsOn(objs, v, w)
  }

  lemma DependenciesAreInputs(objs: seq<V>, u: V, w: V)
    requires DependsOn(objs, u, w)
    ensures u in objs && w in objs
  {
    LookupFindsHeld(objs, u.meta, u);
    LookupFindsHeld(objs, w.meta, w);
    MatchedIsInput(objs, DefinesKind(GK(u.meta)));
    MatchedIsInput(objs, IsNamespaceNamed(u.meta.ns));
  }

  /** There is exactly one graph meeting the declaration, and every edge of it ends at a vertex. */
  lemma GraphIsDetermined(e: Edges, objs: seq<V>)
    ensures IsGraphOf(e, objs) <==> e == GraphOf(objs)
    ensures Closed(GraphOf(objs))
  {
    var g := GraphOf(objs);
    forall u, w | u in objs ensures w in g[u] <==> DependsOn(objs, u, w) {
      if DependsOn(objs, u, w) { DependenciesAreInputs(objs, u, w); }
    }
    assert IsGraphOf(g, objs);
    if IsGraphOf(e, objs) {
      assert e.Keys == g.Keys;
      forall u | u in e ensures e[u] == g[u] {
        assert forall w :: w in e[u] <==> DependsOn(objs, u, w);
        assert forall w :: w in g[u] <==> DependsOn(objs, u, w);
      }
    }
  }

  // ----- distinct inputs -----

  ghost predicate DistinctIds(objs: seq<V>) {
    forall a, b :: a in objs && b in objs && a.meta == b.meta ==> a == b
  }

  /** No two CRDs define one kind and no two Namespaces have one name. */
  ghost predicate DistinctOwners(objs: seq<V>) {
    && (forall a, b, gk :: a in objs && b in objs && DefinesKind(gk)(a) && DefinesKind(gk)(b) ==> a == b)
    && (forall a, b, n :: a in objs && b in objs && IsNamespaceNamed(n)(a) && IsNamespaceNamed(n)(b) ==> a == b)
  }

  lemma OnlyMatch(objs: seq<V>, test: Test, o: V)
    requires forall a, b :: a in objs && b in objs && test(a) && test(b) ==> a == b
    ensures LastMatch(objs, test) == Some(o) <==> o in objs && test(o)
  {
    MatchedIsInput(objs, test);
    LastMatchIsLast(objs, test, o);
  }

  /** Distinct ids: every object is the one its metadata looks up. */
  lemma DistinctAreHeld(objs: seq<V>, o: V)
    requires DistinctIds(objs)
    ensures Held(objs, o) <==> o in objs
  {
    OnlyMatch(objs, HasMetadata(o.meta), o);
  }

  /** Inputs with the same objects in another order have the same graph. */
  lemma PermutedGraph(objs: seq<V>, objs': seq<V>)
    requires forall o :: o in objs <==> o in objs'
    requires DistinctIds(objs) && DistinctOwners(objs)
    ensures GraphOf(objs) == GraphOf(objs')
  {
    assert DistinctIds(objs') && DistinctOwners(objs');
    forall u, w ensures DependsOn(objs, u, w) <==> DependsOn(objs', u, w) {
      DistinctAreHeld(objs, u);
      DistinctAreHeld(objs', u);
      DistinctAreHeld(objs, w);
      DistinctAreHeld(objs', w);
      OnlyMatch(objs, DefinesKind(GK(u.meta)), w);
      OnlyMatch(objs', DefinesKind(GK(u.meta)), w);
      OnlyMatch(objs, IsNamespaceNamed(u.meta.ns), w);
      OnlyMatch(objs', IsNamespaceNamed(u.meta.ns), w);
    }
    forall v | v in objs ensures GraphOf(objs)[v] == GraphOf(objs')[v] {
      assert forall w :: w in objs && DependsOn(objs, v, w) <==> w in objs' && DependsOn(objs', v, w);
    }
  }

  // ----- determinism -----

  lemma GroupIsDetermined(g: seq<V>, g': seq<V>, layer: set<V>)
    requires IsGroup(g, layer) && IsGroup(g', layer) && Ordered(Less, g) && Ordered(Less, g')
    requires forall a, b :: a in layer && b in layer && a.meta == b.meta ==> a == b
    ensures g == g'
  {
    assert forall i :: 0 <= i < |g| ==> g[i] in layer;
    assert forall i :: 0 <= i < |g'| ==> g'[i] in layer;
    LessIsStrictTotalOrder();
    OrderedIsUnique(Less, g, g');
  }

  /** However map iteration and the unstable sort turn out, distinct ids admit only one sequence of groups. */
  lemma GroupsAreDetermined(objs: seq<V>, groups: seq<seq<V>>, groups': seq<seq<V>>)
    requires DistinctIds(objs)
    requires AreGroups(groups, Layers(GraphOf(objs))) && AreGroups(groups', Layers(GraphOf(objs)))
    requires GroupsInOrder(Less, groups) && GroupsInOrder(Less, groups')
    ensures groups == groups'
  {
    var e := GraphOf(objs);
    LayersPartition(e);
    forall k | 0 <= k < |groups| ensures groups[k] == groups'[k] {
      forall a | a in Layers(e)[k] ensures a in objs {
        assert InLayer(e, a, k);
      }
      GroupIsDetermined(groups[k], groups'[k], Layers(e)[k]);
    }
  }

  /** With distinct CRD kinds and namespace names too, the input order does not matter either. */
  lemma GroupsIgnoreInputOrder(objs: seq<V>, objs': seq<V>, e: Edges, e': Edges,
                               groups: seq<seq<V>>, groups': seq<seq<V>>)
    requires forall o :: o in objs <==> o in objs'
    requires DistinctIds(objs) && DistinctOwners(objs)
    requires IsGraphOf(e, objs) && IsGraphOf(e', objs')
    requires AreGroups(groups, Layers(e)) && AreGroups(groups', Layers(e'))
    requires GroupsInOrder(Less, groups) && GroupsInOrder(Less, groups')
    ensures groups == groups'
  {
    GraphIsDetermined(e, objs);
    GraphIsDetermined(e', objs');
    PermutedGraph(objs, objs');
    GroupsAreDetermined(objs, groups, groups');
  }
}
