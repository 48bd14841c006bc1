/**
 * The mathematics behind SortedResourceGroups: peeling a dependency graph layer by layer, related to walks,
 * cycles and arbitrary layerings, none of which the algorithm mentions.
 */
module Layering {
  import opened Objects

  type V = Unstructured
  /** For each object the set of objects it depends on. */
  type Edges = map<V, set<V>>

  ghost predicate Closed(e: Edges) {
    forall v, w :: v in e && w in e[v] ==> w in e
  }

  // ----- peeling -----

  function Ready(e: Edges): set<V> {
    set v | v in e && e[v] == {}
  }

  function Peel(e: Edges): Edges {
    map v | v in e && e[v] != {} :: e[v] - Ready(e)
  }

  lemma PeelShrinks(e: Edges)
    requires Ready(e) != {}
    ensures |Peel(e)| < |e|
  {
    var v :| v in Ready(e);
    assert Peel(e).Keys <= e.Keys - {v};
    SubsetSize(Peel(e).Keys, e.Keys - {v});
  }

  lemma {:induction false} SubsetSize<T>(a: set<T>, b: set<T>)
    requires a <= b
    ensures |a| <= |b|
  {
    if a != {} {
      var x :| x in a;
      SubsetSize(a - {x}, b - {x});
    }
  }

  lemma PeelClosed(e: Edges)
    requires Closed(e)
    ensures Closed(Peel(e))
  {
  }

  /** The sets emitted, in order. */
  function Layers(e: Edges): seq<set<V>>
    decreases |e|
  {
    if Ready(e) == {} then []
    else
      PeelShrinks(e);
      [Ready(e)] + Layers(Peel(e))
  }

  /** What is left when no vertex is ready any more. */
  function Residue(e: Edges): Edges
    decreases |e|
  {
    if Ready(e) == {} then e
    else
      PeelShrinks(e);
      Residue(Peel(e))
  }

  ghost predicate InLayer(e: Edges, v: V, k: int) {
    0 <= k < |Layers(e)| && v in Layers(e)[k]
  }

  lemma LayersUnfold(e: Edges, v: V, k: int)
    requires Ready(e) != {}
    ensures InLayer(e, v, k) <==> (k == 0 && v in Ready(e)) || (k > 0 && InLayer(Peel(e), v, k - 1))
  {
    PeelShrinks(e);
    var rest := Layers(Peel(e));
    assert Layers(e) == [Ready(e)] + rest;
    if 0 < k < |Layers(e)| { assert Layers(e)[k] == rest[k - 1]; }
  }

  lemma {:induction false} LayersCover(e: Edges, v: V)
    ensures v in e <==> v in Residue(e) || exists k :: InLayer(e, v, k)
    decreases |e|
  {
    if Ready(e) != {} {
      PeelShrinks(e);
      LayersCover(Peel(e), v);
      LayersUnfold(e, v, 0);
      if k :| InLayer(e, v, k) { LayersUnfold(e, v, k); }
      if k :| InLayer(Peel(e), v, k) { LayersUnfold(e, v, k + 1); }
    }
  }

  lemma {:induction false} LayerIsUnique(e: Edges, v: V, k: int)
    requires InLayer(e, v, k)
    ensures v !in Residue(e)
    ensures forall j :: InLayer(e, v, j) ==> j == k
    decreases |e|
  {
    PeelShrinks(e);
    LayersUnfold(e, v, k);
    if k > 0 {
      LayerIsUnique(Peel(e), v, k - 1);
      LayersCover(Peel(e), v);
    } else {
      LayersCover(Peel(e), v);
    }
    forall j | InLayer(e, v, j) ensures j == k {
      LayersUnfold(e, v, j);
    }
  }

  lemma {:induction false} LayersAreNonEmpty(e: Edges)
    ensures forall k :: 0 <= k < |Layers(e)| ==> Layers(e)[k] != {}
    decreases |e|
  {
    if Ready(e) != {} {
      PeelShrinks(e);
      LayersAreNonEmpty(Peel(e));
      assert forall k :: 0 < k < |Layers(e)| ==> Layers(e)[k] == Layers(Peel(e))[k - 1];
    }
  }

  /** Every vertex is emitted in exactly one layer, or is left over; no layer is empty. */
  lemma LayersPartition(e: Edges)
    ensures forall v :: v in e <==> v in Residue(e) || exists k :: InLayer(e, v, k)
    ensures forall k, v :: InLayer(e, v, k) ==> v !in Residue(e)
    ensures forall j, k, v :: InLayer(e, v, j) && InLayer(e, v, k) ==> j == k
    ensures forall k :: 0 <= k < |Layers(e)| ==> Layers(e)[k] != {}
  {
    LayersAreNonEmpty(e);
    forall v ensures v in e <==> v in Residue(e) || exists k :: InLayer(e, v, k) { LayersCover(e, v); }
    forall k, v | InLayer(e, v, k) ensures v !in Residue(e) && forall j :: InLayer(e, v, j) ==> j == k {
      LayerIsUnique(e, v, k);
    }
  }

  /** The left-over edges are the original ones between left-over vertices. */
  lemma {:induction false} ResidueEdges(e: Edges)
    requires Closed(e)
    ensures forall v :: v in Residue(e) ==> v in e && Residue(e)[v] == set w | w in e[v] && w in Residue(e)
    ensures Closed(Residue(e))
    decreases |e|
  {
    if Ready(e) != {} {
      PeelShrinks(e);
      PeelClosed(e);
      ResidueEdges(Peel(e));
    }
  }

  // ----- walks -----

  /** A sequence of objects each of which depends on the next. */
  ghost predicate Walk(e: Edges, p: seq<V>) {
    && p != []
    && (forall i :: 0 <= i < |p| ==> p[i] in e)
    && (forall i :: 0 <= i < |p| - 1 ==> p[i + 1] in e[p[i]])
  }

  /** A walk of `n` dependencies starting at `v`. */
  ghost predicate WalkFrom(e: Edges, v: V, n: nat, p: seq<V>) {
    Walk(e, p) && p[0] == v && |p| == n + 1
  }

  ghost predicate HasWalk(e: Edges, v: V, n: nat) {
    exists p :: WalkFrom(e, v, n, p)
  }

  /** The longest dependency path from `v` has `n` edges. */
  ghost predicate LongestPath(e: Edges, v: V, n: nat) {
    HasWalk(e, v, n) && forall m: nat :: m > n ==> !HasWalk(e, v, m)
  }

  /** Some walk from `v` visits a vertex twice. */
  ghost predicate ReachesCycle(e: Edges, v: V) {
    exists p, i, j :: WalkRepeats(e, v, p, i, j)
  }

  ghost predicate WalkRepeats(e: Edges, v: V, p: seq<V>, i: int, j: int) {
    Walk(e, p) && p[0] == v && 0 <= i < j < |p| && p[i] == p[j]
  }

  ghost predicate Cyclic(e: Edges) {
    exists p :: Walk(e, p) && |p| > 1 && p[0] == p[|p| - 1]
  }

  lemma ReachesCycleIsCyclic(e: Edges)
    ensures Cyclic(e) <==> exists v :: v in e && ReachesCycle(e, v)
  {
    if Cyclic(e) {
      var p :| Walk(e, p) && |p| > 1 && p[0] == p[|p| - 1];
      assert WalkRepeats(e, p[0], p, 0, |p| - 1);
    }
    if v :| v in e && ReachesCycle(e, v) {
      var p, i, j :| WalkRepeats(e, v, p, i, j);
      var q := p[i..j + 1];
      assert Walk(e, q) && q[0] == q[|q| - 1];
    }
  }

  // ----- walks and peeling -----

  /** A walk of the peeled graph extends by one step in the graph itself. */
  lemma WalkExtends(e: Edges, v: V, n: nat, p: seq<V>)
    requires Closed(e) && WalkFrom(Peel(e), v, n, p)
    ensures HasWalk(e, v, n + 1)
  {
    assert p[n] in Peel(e);
    var w :| w in e[p[n]];
    assert WalkFrom(e, v, n + 1, p + [w]);
  }

  /** Dropping the last step of a walk leaves a walk of the peeled graph. */
  lemma WalkContracts(e: Edges, p: seq<V>)
    requires Walk(e, p) && |p| > 1
    ensures Walk(Peel(e), p[..|p| - 1])
  {
    var q := p[..|p| - 1];
    forall i | 0 <= i < |q| ensures q[i] in Peel(e) {
      assert p[i + 1] in e[p[i]];
    }
    forall i | 0 <= i < |q| - 1 ensures q[i + 1] in Peel(e)[q[i]] {
      assert p[i + 2] in e[p[i + 1]];
    }
  }

  lemma WalksOfPeel(e: Edges, v: V, n: nat)
    requires Closed(e)
    ensures HasWalk(Peel(e), v, n) <==> HasWalk(e, v, n + 1)
  {
    if HasWalk(Peel(e), v, n) {
      var p :| WalkFrom(Peel(e), v, n, p);
      WalkExtends(e, v, n, p);
    }
    if HasWalk(e, v, n + 1) {
      var p :| WalkFrom(e, v, n + 1, p);
      WalkContracts(e, p);
      assert WalkFrom(Peel(e), v, n, p[..n + 1]);
    }
  }

  lemma WalksOfReady(e: Edges, v: V)
    requires Closed(e)
    ensures HasWalk(e, v, 0) <==> v in e
    ensures v in e ==> (e[v] == {} <==> !HasWalk(e, v, 1))
  {
    if v in e {
      assert WalkFrom(e, v, 0, [v]);
      if w :| w in e[v] { assert WalkFrom(e, v, 1, [v, w]); }
      if HasWalk(e, v, 1) {
        var p :| WalkFrom(e, v, 1, p);
        assert p[1] in e[p[0]];
      }
    }
    if HasWalk(e, v, 0) { var p :| WalkFrom(e, v, 0, p); }
  }

  lemma WalkPrefix(e: Edges, v: V, m: nat, n: nat)
    requires HasWalk(e, v, n) && m <= n
    ensures HasWalk(e, v, m)
  {
    var p :| WalkFrom(e, v, n, p);
    assert WalkFrom(e, v, m, p[..m + 1]);
  }

  // ----- main results on layers -----

  /** The layer of a vertex is the length of its longest dependency path. */
  lemma {:induction false} LayerIsLongestPath(e: Edges, v: V, k: nat)
    requires Closed(e)
    ensures InLayer(e, v, k) <==> LongestPath(e, v, k)
    decreases |e|
  {
    WalksOfReady(e, v);
    LayersCover(e, v);
    if Ready(e) != {} { LayersUnfold(e, v, k); }
    if v in Ready(e) {
      forall m: nat | m > 0 ensures !HasWalk(e, v, m) {
        if HasWalk(e, v, m) { WalkPrefix(e, v, 1, m); }
      }
      LayersCover(Peel(e), v);
      assert k > 0 ==> !HasWalk(e, v, k);
    } else if k == 0 {
      assert v in e ==> HasWalk(e, v, 1);
    } else {
      if Ready(e) == {} {
        if LongestPath(e, v, k) { EveryVertexContinues(e, v, k + 1); }
      } else {
        PeelShrinks(e);
        PeelClosed(e);
        LayerIsLongestPath(Peel(e), v, k - 1);
        LongestPathOfPeel(e, v, k);
      }
    }
  }

  lemma LongestPathOfPeel(e: Edges, v: V, k: nat)
    requires Closed(e) && k > 0
    ensures LongestPath(Peel(e), v, k - 1) <==> LongestPath(e, v, k)
  {
    forall m: nat | m > 0 ensures HasWalk(Peel(e), v, m - 1) <==> HasWalk(e, v, m) {
      WalksOfPeel(e, v, m - 1);
    }
    assert forall m: nat :: HasWalk(Peel(e), v, m) <==> HasWalk(e, v, m + 1);
  }

  /** Where every vertex depends on something, walks of any length start anywhere. */
  lemma {:induction false} EveryVertexContinues(e: Edges, v: V, n: nat)
    requires Closed(e) && Ready(e) == {} && v in e
    ensures HasWalk(e, v, n)
    decreases n
  {
    WalksOfReady(e, v);
    if n > 0 {
      assert v !in Ready(e);
      var w :| w in e[v];
      EveryVertexContinues(e, w, n - 1);
      var p :| WalkFrom(e, w, n - 1, p);
      assert WalkFrom(e, v, n, [v] + p);
    }
  }

  // ----- main results on what is left over -----

  /** A repeating walk survives peeling. */
  lemma CycleSurvivesPeel(e: Edges, v: V)
    requires ReachesCycle(e, v)
    ensures ReachesCycle(Peel(e), v)
  {
    var p, i, j :| WalkRepeats(e, v, p, i, j);
    var q := p[..j + 1] + [p[i + 1]];
    assert p[i + 1] in e[p[i]];
    forall k | 0 <= k < |q| - 1 ensures q[k + 1] in e[q[k]] {
      if k < j { assert q[k + 1] == p[k + 1]; }
    }
    WalkContracts(e, q);
    assert q[..|q| - 1] == p[..j + 1];
    assert WalkRepeats(Peel(e), v, p[..j + 1], i, j);
  }

  lemma {:induction false} CycleIsLeftOver(e: Edges, v: V)
    requires ReachesCycle(e, v)
    ensures v in Residue(e)
    decreases |e|
  {
    if Ready(e) == {} {
      var p, i, j :| WalkRepeats(e, v, p, i, j);
    } else {
      PeelShrinks(e);
      CycleSurvivesPeel(e, v);
      CycleIsLeftOver(Peel(e), v);
    }
  }

  lemma {:induction false} Pigeonhole(p: seq<V>, s: set<V>)
    requires (forall i :: 0 <= i < |p| ==> p[i] in s) && |p| > |s|
    ensures exists i, j :: 0 <= i < j < |p| && p[i] == p[j]
    decreases |s|
  {
    var x := p[0];
    if j :| 0 < j < |p| && p[j] == x {
      assert p[0] == p[j];
    } else {
      var q := p[1..];
      Pigeonhole(q, s - {x});
      var i, j :| 0 <= i < j < |q| && q[i] == q[j];
      assert p[i + 1] == p[j + 1];
    }
  }

  lemma LongWalkRepeats(e: Edges, v: V)
    requires HasWalk(e, v, |e|)
    ensures ReachesCycle(e, v)
  {
    var p :| WalkFrom(e, v, |e|, p);
    Pigeonhole(p, e.Keys);
    var i, j :| 0 <= i < j < |p| && p[i] == p[j];
    assert WalkRepeats(e, v, p, i, j);
  }

  lemma {:induction false} WalksOfResidue(e: Edges, v: V, n: nat)
    requires Closed(e) && v in Residue(e)
    ensures HasWalk(e, v, n)
    decreases |e|
  {
    if Ready(e) == {} {
      EveryVertexContinues(e, v, n);
    } else {
      PeelShrinks(e);
      PeelClosed(e);
      WalksOfResidue(Peel(e), v, n);
      WalksOfPeel(e, v, n);
      WalkPrefix(e, v, n, n + 1);
    }
  }

  /** The vertices left over are exactly those from which a cycle can be reached. */
  lemma ResidueReachesCycle(e: Edges, v: V)
    requires Closed(e)
    ensures v in Residue(e) <==> ReachesCycle(e, v)
  {
    if v in Residue(e) {
      WalksOfResidue(e, v, |e|);
      LongWalkRepeats(e, v);
    }
    if ReachesCycle(e, v) { CycleIsLeftOver(e, v); }
  }

  /** Success or not, the vertices emitted are exactly those from which no cycle can be reached. */
  lemma EmittedAreAcyclic(e: Edges, v: V)
    requires Closed(e) && v in e
    ensures (exists k :: InLayer(e, v, k)) <==> !ReachesCycle(e, v)
  {
    LayersPartition(e);
    ResidueReachesCycle(e, v);
  }

  /** Nothing is left over exactly when the graph has no cycle. */
  lemma SuccessIsAcyclic(e: Edges)
    requires Closed(e)
    ensures Residue(e) == map[] <==> !Cyclic(e)
  {
    ReachesCycleIsCyclic(e);
    forall v ensures v in Residue(e) <==> ReachesCycle(e, v) {
      ResidueReachesCycle(e, v);
    }
    if v :| v in Residue(e) {
      LayersPartition(e);
      assert v in e && ReachesCycle(e, v);
    } else {
      assert Residue(e) == map[];
    }
  }

  // ----- sorting the same graph again -----

  /** What sorting leaves of the edges: those among the vertices left over. */
  function Drained(e: Edges): Edges {
    map v | v in e :: if v in Residue(e) then Residue(e)[v] else {}
  }

  lemma {:induction false} ResidueIsStuck(e: Edges)
    ensures Ready(Residue(e)) == {}
    decreases |e|
  {
    if Ready(e) != {} {
      PeelShrinks(e);
      ResidueIsStuck(Peel(e));
    }
  }

  /** `r` is stuck, and the vertices of `d` outside it depend on nothing. */
  ghost predicate StuckBut(d: Edges, r: Edges) {
    && Ready(r) == {} && Closed(d) && r.Keys <= d.Keys
    && (forall v :: v in d && v !in r ==> d[v] == {})
    && (forall v :: v in r ==> r[v] == set w | w in d[v] && w in r)
  }

  lemma PeelOfStuckBut(d: Edges, r: Edges)
    requires StuckBut(d, r)
    ensures Ready(d) == d.Keys - r.Keys && Peel(d) == r
  {
    forall v | v in r ensures d[v] != {} && d[v] - (d.Keys - r.Keys) == r[v] {
      assert v !in Ready(r);
      var w :| w in r[v];
      assert w in d[v];
    }
    assert Ready(d) == d.Keys - r.Keys;
    assert Peel(d).Keys == r.Keys;
    assert forall v :: v in r ==> Peel(d)[v] == r[v];
  }

  lemma LayersOfStuck(e: Edges)
    requires Ready(e) == {}
    ensures Layers(e) == [] && Residue(e) == e
  {
  }

  function OneLayer(s: set<V>): seq<set<V>> {
    if s == {} then [] else [s]
  }

  lemma NothingReady(e: Edges)
    requires Ready(e) == {}
    ensures Peel(e) == e
  {
    forall v | v in e ensures v in Peel(e) && Peel(e)[v] == e[v] {
      assert v !in Ready(e);
      assert e[v] - Ready(e) == e[v];
    }
  }

  lemma OneRound(e: Edges)
    requires Ready(Peel(e)) == {}
    ensures Residue(e) == Peel(e) && Layers(e) == OneLayer(Ready(e))
  {
    LayersOfStuck(Peel(e));
    if Ready(e) == {} { NothingReady(e); }
  }

  /** The second time, everything that had been emitted is ready at once, and the same vertices are left over. */
  lemma DrainedLayers(e: Edges)
    requires Closed(e)
    ensures Residue(Drained(e)) == Residue(e)
    ensures Layers(Drained(e)) == OneLayer(e.Keys - Residue(e).Keys)
  {
    ResidueIsStuck(e);
    ResidueEdges(e);
    assert StuckBut(Drained(e), Residue(e)) && Drained(e).Keys == e.Keys;
    PeelOfStuckBut(Drained(e), Residue(e));
    OneRound(Drained(e));
  }

  /**
   * Sorting a graph again reports the same failure, and the same groups exactly if nothing that was emitted depended
   * on anything.
   */
  lemma SecondSortIsExact(e: Edges)
    requires Closed(e)
    ensures Residue(Drained(e)) == Residue(e)
    ensures Layers(Drained(e)) == Layers(e) <==> forall v :: v in e && v !in Residue(e) ==> e[v] == {}
  {
    DrainedLayers(e);
    if forall v :: v in e && v !in Residue(e) ==> e[v] == {} {
      ResidueIsStuck(e);
      ResidueEdges(e);
      assert StuckBut(e, Residue(e));
      PeelOfStuckBut(e, Residue(e));
      OneRound(e);
    }
    if Layers(Drained(e)) == Layers(e) {
      forall v | v in e && v !in Residue(e) ensures e[v] == {} {
        assert v in Layers(e)[0];
      }
    }
  }

  // ----- minimality -----

  /** Any way of grouping the vertices that puts each one after everything it depends on. */
  ghost predicate ValidLayering(e: Edges, groups: seq<set<V>>) {
    forall v :: v in e ==> exists k :: PlacedAfterDependencies(e, groups, v, k)
  }

  ghost predicate PlacedAfterDependencies(e: Edges, groups: seq<set<V>>, v: V, k: int) {
    && 0 <= k < |groups| && v in groups[k] && v in e
    && forall w :: w in e[v] ==> exists j :: 0 <= j < k && w in groups[j]
  }

  /** A vertex with a walk of `n` steps has an occurrence at least `n` groups in, wherever it is placed. */
  lemma {:induction false} WalkNeedsGroups(e: Edges, groups: seq<set<V>>, v: V, n: nat, p: seq<V>, k: int)
    requires Closed(e) && OncePlaced(groups) && ValidLayering(e, groups)
    requires WalkFrom(e, v, n, p)
    requires 0 <= k < |groups| && v in groups[k]
    ensures k >= n
    decreases n
  {
    if n > 0 {
      var w := p[1];
      assert p[1] in e[p[0]];
      var k' :| PlacedAfterDependencies(e, groups, v, k');
      assert k' == k;
      var j :| 0 <= j < k && w in groups[j];
      assert WalkFrom(e, w, n - 1, p[1..]);
      WalkNeedsGroups(e, groups, w, n - 1, p[1..], j);
    }
  }

  ghost predicate OncePlaced(groups: seq<set<V>>) {
    forall i, j, v :: 0 <= i < |groups| && 0 <= j < |groups| && v in groups[i] && v in groups[j] ==> i == j
  }

  /** No valid grouping uses fewer groups, nor places any vertex earlier. */
  lemma LayersAreMinimal(e: Edges, groups: seq<set<V>>)
    requires Closed(e) && OncePlaced(groups) && ValidLayering(e, groups)
    ensures |groups| >= |Layers(e)|
    ensures forall v, k, i :: InLayer(e, v, k) && 0 <= i < |groups| && v in groups[i] ==> k <= i
  {
    LayersPartition(e);
    forall v, k, i | InLayer(e, v, k) && 0 <= i < |groups| && v in groups[i]
      ensures k <= i
    {
      LayerIsLongestPath(e, v, k);
      var p :| WalkFrom(e, v, k, p);
      WalkNeedsGroups(e, groups, v, k, p, i);
    }
    var n := |Layers(e)|;
    if n > 0 {
      var v :| v in Layers(e)[n - 1];
      assert InLayer(e, v, n - 1);
      var i :| PlacedAfterDependencies(e, groups, v, i);
    }
  }

  /** The layers are themselves a valid grouping of an acyclic graph. */
  lemma LayersAreValid(e: Edges)
    requires Closed(e) && Residue(e) == map[]
    ensures ValidLayering(e, Layers(e)) && OncePlaced(Layers(e))
  {
    LayersPartition(e);
    assert forall v, k :: 0 <= k < |Layers(e)| && v in Layers(e)[k] ==> InLayer(e, v, k);
    forall v | v in e ensures exists k :: PlacedAfterDependencies(e, Layers(e), v, k) {
      var k :| InLayer(e, v, k);
      forall w | w in e[v] ensures exists j :: 0 <= j < k && w in Layers(e)[j] {
        var j :| InLayer(e, w, j);
        DependencyIsEarlier(e, v, k, w, j);
      }
      assert PlacedAfterDependencies(e, Layers(e), v, k);
    }
  }

  /** Dependencies are emitted in strictly earlier layers. */
  lemma DependencyIsEarlier(e: Edges, v: V, k: nat, w: V, j: nat)
    requires Closed(e) && v in e && w in e[v]
    requires InLayer(e, v, k) && InLayer(e, w, j)
    ensures j < k
  {
    LayerIsLongestPath(e, v, k);
    LayerIsLongestPath(e, w, j);
    var p :| WalkFrom(e, w, j, p);
    assert WalkFrom(e, v, j + 1, [v] + p);
    assert HasWalk(e, v, j + 1);
  }
}
