/**
 * pkg/resource/graph.go: the graph as the source stores it, a map from vertices to sets that are shared by
 * reference, and the sorting that drains those sets in place.
 */
module DependencyGraphs {
  import opened Wrappers
  import opened Metadata
  import opened Sorting
  import opened Layering

  /** sets.Set, a reference type in Go: whoever holds it sees its deletions. */
  class VertexSet {
    var items: set<V>

    constructor ()
      ensures items == {}
    {
      items := {};
    }
  }

  datatype Dependency = Dependency(from: ObjectMetadata, to: ObjectMetadata)

  predicate NoDuplicates<T(==)>(s: seq<T>) {
    forall i, j :: 0 <= i < j < |s| ==> s[i] != s[j]
  }

  /** A group holds the objects of one layer, each once. */
  ghost predicate IsGroup(group: seq<V>, layer: set<V>) {
    NoDuplicates(group) && forall v :: v in group <==> v in layer
  }

  /** Each group is sorted. */
  predicate GroupsInOrder(lt: Comparison, groups: seq<seq<V>>) {
    forall k :: 0 <= k < |groups| ==> Ordered(lt, groups[k])
  }

  ghost predicate AreGroups(groups: seq<seq<V>>, layers: seq<set<V>>) {
    |groups| == |layers| && forall k :: 0 <= k < |groups| ==> IsGroup(groups[k], layers[k])
  }

  lemma AreGroupsAppend(groups: seq<seq<V>>, layers: seq<set<V>>, group: seq<V>, layer: set<V>)
    requires AreGroups(groups, layers) && IsGroup(group, layer)
    ensures AreGroups(groups + [group], layers + [layer])
  {
  }

  lemma InOrderAppend(less: Comparison, groups: seq<seq<V>>, group: seq<V>)
    requires GroupsInOrder(less, groups) && Ordered(less, group)
    ensures GroupsInOrder(less, groups + [group])
  {
  }

  lemma OneGroupMore(less: Comparison, groups: seq<seq<V>>, layers: seq<set<V>>, group: seq<V>, layer: set<V>)
    requires AreGroups(groups, layers) && IsGroup(group, layer) && GroupsInOrder(less, groups) && Ordered(less, group)
    ensures AreGroups(groups + [group], layers + [layer]) && GroupsInOrder(less, groups + [group])
  {
    AreGroupsAppend(groups, layers, group, layer);
    InOrderAppend(less, groups, group);
  }

  /** The error lists every dependency between left-over vertices, each once. */
  ghost predicate ListsEdges(deps: seq<Dependency>, pairs: seq<(V, V)>, e: Edges) {
    && NoDuplicates(pairs)
    && (forall u, w :: (u, w) in pairs <==> u in e && w in e[u])
    && |deps| == |pairs|
    && forall i :: 0 <= i < |pairs| ==> deps[i] == Dependency(pairs[i].0.meta, pairs[i].1.meta)
  }

  /** So it holds exactly the dependencies of left-over vertices, each from the dependent to what it depends on. */
  lemma ListedDependencies(deps: seq<Dependency>, pairs: seq<(V, V)>, e: Edges, d: Dependency)
    requires ListsEdges(deps, pairs, e)
    ensures d in deps <==> exists u, w :: u in e && w in e[u] && d.from == u.meta && d.to == w.meta
  {
    if d in deps {
      var i :| 0 <= i < |deps| && deps[i] == d;
      assert (pairs[i].0, pairs[i].1) in pairs;
    }
    if u, w :| u in e && w in e[u] && d.from == u.meta && d.to == w.meta {
      assert (u, w) in pairs;
      var i :| 0 <= i < |pairs| && pairs[i] == (u, w);
      assert deps[i] == d;
    }
  }

  type EdgeSets = map<V, VertexSet>

  /** No two vertices share a set. */
  predicate Separate(m: EdgeSets) {
    forall u, v :: u in m && v in m && u != v ==> m[u] != m[v]
  }

  ghost function Snapshot(m: EdgeSets): Edges
    reads m.Values
  {
    map v | v in m :: m[v].items
  }

  class DependencyGraph {
    var edges: EdgeSets

    ghost predicate Valid()
      reads this
    {
      Separate(edges)
    }

    ghost function Contents(): Edges
      reads this, edges.Values
    {
      Snapshot(edges)
    }

    constructor ()
      ensures Valid() && Contents() == map[] && edges == map[]
    {
      edges := map[];
    }

    method AddVertex(obj: V)
      requires Valid()
      modifies this
      ensures Valid() && fresh(edges.Values - old(edges.Values)) && old(edges.Values) <= edges.Values
      ensures Contents() == if obj in old(Contents()) then old(Contents()) else old(Contents())[obj := {}]
    {
      if obj !in edges {
        var empty := new VertexSet();
        var before := edges;
        edges := edges[obj := empty];
        assert forall v :: v in before ==> edges[v] == before[v] && edges[v] in edges.Values;
        assert edges[obj] in edges.Values;
      }
    }

    method AddEdge(from: V, to: V)
      requires Valid()
      modifies this, edges.Values
      ensures Valid() && fresh(edges.Values - old(edges.Values))
      ensures Contents() == WithEdge(old(Contents()), from, to)
    {
      AddVertex(from);
      AddVertex(to);
      ghost var c := Contents();
      assert from in c;
      InsertInto(edges, from, to);
    }

    /**
     * SortedResourceGroups. The clone of the map is shallow, so the sets of the graph itself are drained: the
     * contract speaks of the edges at entry and says what is left of them. `less` is the comparison of
     * SortableObjects.
     */
    method SortedResourceGroups(less: Comparison)
      returns (groups: seq<seq<V>>, cycle: Option<seq<Dependency>>, ghost pairs: seq<(V, V)>)
      requires Valid() && StrictTotalOrder(less)
      modifies edges.Values
      ensures AreGroups(groups, Layers(old(Contents()))) && GroupsInOrder(less, groups)
      ensures cycle == None <==> Residue(old(Contents())) == map[]
      ensures cycle.Some? ==> ListsEdges(cycle.value, pairs, Residue(old(Contents())))
      ensures Valid() && edges == old(edges)
      ensures Contents() == Drained(old(Contents()))
    {
      ghost var e := Contents();
      var remaining;
      remaining, groups := PeelAll(less);
      cycle, pairs := None, [];
      if |remaining| > 0 {
        var deps;
        deps, pairs := CyclicalDependencies(remaining);
        cycle := Some(deps);
      }
      assert |remaining| == 0 <==> Residue(e) == map[] by { assert Residue(e).Keys == remaining.Keys; }
      LeavesDrained(edges, remaining, e);
    }

    /** The loop of SortedResourceGroups, on the clone of the map, until it is empty or nothing is ready. */
    method PeelAll(less: Comparison) returns (remaining: EdgeSets, groups: seq<seq<V>>)
      requires Valid() && StrictTotalOrder(less)
      modifies edges.Values
      ensures Valid() && edges == old(edges)
      ensures AreGroups(groups, Layers(old(Contents()))) && GroupsInOrder(less, groups)
      ensures RemainingOf(remaining, edges) && RemovedAreDrained(remaining, edges)
      ensures Snapshot(remaining) == Residue(old(Contents()))
    {
      ghost var e := Contents();
      remaining := edges;
      groups := [];
      ghost var emitted: seq<set<V>> := [];
      assert emitted + Layers(e) == Layers(e);
      while |remaining| > 0
        invariant RemainingOf(remaining, edges)
        invariant Separate(edges)
        invariant RemovedAreDrained(remaining, edges)
        invariant emitted + Layers(Snapshot(remaining)) == Layers(e)
        invariant Residue(Snapshot(remaining)) == Residue(e)
        invariant AreGroups(groups, emitted) && GroupsInOrder(less, groups)
        decreases |remaining|
      {
        ghost var now := Snapshot(remaining);
        assert remaining.Values <= edges.Values;
        var rest, group := PeelRound(less, edges, remaining);
        if |group| == 0 { break; }
        LayersUnfolded(now, emitted);
        remaining := rest;
        OneGroupMore(less, groups, emitted, group, Ready(now));
        groups := groups + [group];
        emitted := emitted + [Ready(now)];
      }
      if |remaining| == 0 { Exhausted(Snapshot(remaining), remaining.Keys); }
      Stuck(Snapshot(remaining), emitted);
    }
  }

  /** The clone, part of whose vertices may have been removed, still points at the sets of the graph. */
  predicate RemainingOf(remaining: EdgeSets, edges: EdgeSets) {
    forall v :: v in remaining ==> v in edges && remaining[v] == edges[v]
  }

  /** The sets of the vertices already emitted have been emptied. */
  ghost predicate RemovedAreDrained(remaining: EdgeSets, edges: EdgeSets)
    reads edges.Values
  {
    forall v :: v in edges && v !in remaining ==> edges[v].items == {}
  }

  /** The sets hold what sorting a graph with edges `e` leaves of them. */
  lemma LeavesDrained(edges: EdgeSets, remaining: EdgeSets, e: Edges)
    requires edges.Keys == e.Keys && RemainingOf(remaining, edges) && RemovedAreDrained(remaining, edges)
    requires Snapshot(remaining) == Residue(e)
    ensures Snapshot(edges) == Drained(e)
  {
    assert forall v :: v in edges ==> (v in remaining <==> v in Snapshot(remaining));
  }

  lemma Exhausted(now: Edges, keys: set<V>)
    requires |keys| == 0 && now.Keys == keys
    ensures now == map[] && Ready(now) == {}
  {
  }

  lemma Stuck(now: Edges, emitted: seq<set<V>>)
    requires Ready(now) == {}
    ensures emitted + Layers(now) == emitted && Residue(now) == now
  {
  }

  lemma LayersUnfolded(now: Edges, emitted: seq<set<V>>)
    requires Ready(now) != {}
    ensures emitted + Layers(now) == (emitted + [Ready(now)]) + Layers(Peel(now))
    ensures Residue(now) == Residue(Peel(now))
  {
    PeelShrinks(now);
  }

  /** Set.Insert on the set of one vertex; no other vertex sees it. */
  method InsertInto(m: EdgeSets, from: V, to: V)
    requires Separate(m) && from in m
    modifies m[from]
    ensures Snapshot(m) == old(Snapshot(m))[from := old(Snapshot(m))[from] + {to}]
  {
    m[from].items := m[from].items + {to};
  }

  function WithVertex(e: Edges, v: V): Edges {
    if v in e then e else e[v := {}]
  }

  function WithEdge(e: Edges, from: V, to: V): Edges {
    var e' := WithVertex(WithVertex(e, from), to);
    e'[from := e'[from] + {to}]
  }

  /** The vertices that depend on nothing, met in the random order of a map iteration. */
  method ReadyVertices(m: EdgeSets) returns (group: seq<V>)
    ensures NoDuplicates(group)
    ensures forall v :: v in group <==> v in Ready(Snapshot(m))
  {
    group := [];
    var todo := m.Keys;
    while todo != {}
      invariant todo <= m.Keys
      invariant NoDuplicates(group)
      invariant forall v :: v in group <==> v in m && v !in todo && m[v].items == {}
    {
      var v :| v in todo;
      if m[v].items == {} { group := group + [v]; }
      todo := todo - {v};
    }
  }

  /** Deletes one vertex from every set. */
  method DeleteFromSets(m: EdgeSets, resource: V)
    requires Separate(m)
    modifies m.Values
    ensures forall v :: v in m ==> m[v].items == old(m[v].items) - {resource}
  {
    var todo := m.Keys;
    while todo != {}
      invariant todo <= m.Keys
      invariant forall v :: v in m ==> m[v].items == old(m[v].items) - if v in todo then {} else {resource}
    {
      var v :| v in todo;
      assert m[v] in m.Values;
      m[v].items := m[v].items - {resource};
      todo := todo - {v};
    }
  }

  /** Removes a whole group: its vertices leave the map and every remaining set. */
  method RemoveGroup(m: EdgeSets, group: seq<V>) returns (remaining: EdgeSets)
    requires Separate(m)
    requires forall v :: v in group ==> v in m
    modifies m.Values
    ensures remaining == m - (set v | v in group)
    ensures forall v :: v in remaining ==> m[v].items == old(m[v].items) - set w | w in group
    ensures forall v :: v in group && old(m[v].items) == {} ==> m[v].items == {}
  {
    remaining := m;
    for n := 0 to |group|
      invariant remaining == m - (set v | v in group[..n])
      invariant remaining.Values <= m.Values
      invariant forall v :: v in m ==> m[v].items <= old(m[v].items)
      invariant forall v :: v in remaining ==> m[v].items == old(m[v].items) - set w | w in group[..n]
    {
      assert group[..n + 1] == group[..n] + [group[n]];
      remaining := remaining - {group[n]};
      DeleteFromSets(remaining, group[n]);
    }
    assert group[..|group|] == group;
  }

  /** One round: finds the ready vertices, removes them, and sorts them. An empty group changes nothing. */
  method PeelRound(less: Comparison, edges: EdgeSets, m: EdgeSets) returns (rest: EdgeSets, group: seq<V>)
    requires StrictTotalOrder(less) && Separate(edges) && RemainingOf(m, edges) && RemovedAreDrained(m, edges)
    modifies m.Values
    ensures IsGroup(group, Ready(old(Snapshot(m)))) && Ordered(less, group)
    ensures group == [] ==> Ready(old(Snapshot(m))) == {} && rest == m && Snapshot(m) == old(Snapshot(m))
    ensures group != [] ==> Ready(old(Snapshot(m))) != {} && Snapshot(rest) == Peel(old(Snapshot(m)))
    ensures group != [] ==> |rest| < |m|
    ensures RemainingOf(rest, edges) && RemovedAreDrained(rest, edges)
  {
    ghost var now := Snapshot(m);
    var ready := ReadyVertices(m);
    group := SortGroup(less, ready, Ready(now));
    if |ready| == 0 {
      assert Ready(now) == {} by { assert forall v :: v in Ready(now) ==> v in ready; }
      rest := m;
    } else {
      assert ready[0] in Ready(now);
      rest := RemoveReady(edges, m, ready);
    }
  }

  method RemoveReady(edges: EdgeSets, m: EdgeSets, ready: seq<V>) returns (rest: EdgeSets)
    requires Separate(edges) && RemainingOf(m, edges) && RemovedAreDrained(m, edges)
    requires Ready(Snapshot(m)) != {} && forall v :: v in ready <==> v in Ready(Snapshot(m))
    modifies m.Values
    ensures |rest| < |m| && Snapshot(rest) == Peel(old(Snapshot(m)))
    ensures RemainingOf(rest, edges) && RemovedAreDrained(rest, edges)
  {
    ghost var now := Snapshot(m);
    assert (set w | w in ready) == Ready(now);
    rest := RemoveGroup(m, ready);
    SnapshotIsPeel(rest, m, now);
  }

  /** Removing the ready vertices and draining the sets is one peeling step. */
  lemma SnapshotIsPeel(rest: EdgeSets, m: EdgeSets, now: Edges)
    requires now.Keys == m.Keys && Ready(now) != {}
    requires rest == m - Ready(now)
    requires forall v :: v in rest ==> m[v].items == now[v] - Ready(now)
    ensures Snapshot(rest) == Peel(now) && |rest| < |m|
  {
    PeelShrinks(now);
    assert rest.Keys == Peel(now).Keys;
    assert |rest.Keys| == |Peel(now).Keys| && |now.Keys| == |m.Keys|;
  }

  method SortGroup(less: Comparison, group: seq<V>, ghost layer: set<V>) returns (sorted: seq<V>)
    requires StrictTotalOrder(less)
    requires NoDuplicates(group) && forall v :: v in group <==> v in layer
    ensures IsGroup(sorted, layer) && |sorted| == |group| && Ordered(less, sorted)
  {
    sorted := Sort(less, group);
    assert |multiset(sorted)| == |multiset(group)|;
    PermutationKeepsDistinct(group, sorted);
  }

  lemma {:induction false} DistinctMultiplicity(s: seq<V>)
    ensures NoDuplicates(s) <==> forall v :: multiset(s)[v] <= 1
  {
    if s != [] {
      var n := |s| - 1;
      DistinctMultiplicity(s[..n]);
      assert s == s[..n] + [s[n]];
      if NoDuplicates(s) {
        assert s[n] !in s[..n];
      } else if NoDuplicates(s[..n]) {
        assert s[n] in s[..n];
        assert multiset(s)[s[n]] == multiset(s[..n])[s[n]] + 1;
      } else {
        var v :| multiset(s[..n])[v] > 1;
        assert multiset(s)[v] > 1;
      }
    }
  }

  lemma PermutationKeepsDistinct(a: seq<V>, b: seq<V>)
    requires multiset(a) == multiset(b)
    ensures NoDuplicates(a) <==> NoDuplicates(b)
    ensures forall v :: v in a <==> v in b
  {
    DistinctMultiplicity(a);
    DistinctMultiplicity(b);
    forall v ensures v in a <==> v in b {
      assert v in a <==> v in multiset(a);
    }
  }

  /** The content of the error, gathered by two nested map iterations. */
  method CyclicalDependencies(m: EdgeSets) returns (deps: seq<Dependency>, ghost pairs: seq<(V, V)>)
    ensures ListsEdges(deps, pairs, Snapshot(m))
  {
    deps, pairs := [], [];
    var todo := m.Keys;
    while todo != {}
      invariant todo <= m.Keys
      invariant NoDuplicates(pairs)
      invariant forall u, w :: (u, w) in pairs <==> u in m && u !in todo && w in m[u].items
      invariant |deps| == |pairs|
      invariant forall i :: 0 <= i < |pairs| ==> deps[i] == Dependency(pairs[i].0.meta, pairs[i].1.meta)
    {
      var from :| from in todo;
      var toList := m[from].items;
      while toList != {}
        invariant toList <= m[from].items
        invariant NoDuplicates(pairs)
        invariant forall u, w :: (u, w) in pairs <==>
                                 u in m && w in m[u].items && (u !in todo || (u == from && w !in toList))
        invariant |deps| == |pairs|
        invariant forall i :: 0 <= i < |pairs| ==> deps[i] == Dependency(pairs[i].0.meta, pairs[i].1.meta)
      {
        var to :| to in toList;
        assert (from, to) !in pairs;
        deps := deps + [Dependency(from.meta, to.meta)];
        pairs := pairs + [(from, to)];
        toList := toList - {to};
      }
      todo := todo - {from};
    }
  }
}
