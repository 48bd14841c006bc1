/** sort.Sort over SortableObjects, and what the order makes unique. */
module Sorting {
  import opened Wrappers
  import opened Text
  import opened Metadata
  import opened Objects
  import opened Ordering

  type Comparison = (ObjectMetadata, ObjectMetadata) -> bool

  ghost predicate StrictTotalOrder(lt: Comparison) {
    && (forall a, b :: a == b || lt(a, b) || lt(b, a))
    && (forall a, b :: !(lt(a, b) && lt(b, a)))
    && (forall a, b, c :: lt(a, b) && lt(b, c) ==> lt(a, c))
  }

  /** sort.Reverse: the same comparison with its arguments swapped. */
  function Flip(lt: Comparison): Comparison {
    (a: ObjectMetadata, b: ObjectMetadata) => lt(b, a)
  }

  lemma LessIsStrictTotalOrder()
    ensures StrictTotalOrder(Less) && StrictTotalOrder(Flip(Less))
  {
    forall a: ObjectMetadata, b: ObjectMetadata
      ensures (a == b || Less(a, b) || Less(b, a)) && !(Less(a, b) && Less(b, a))
    {
      LessTrichotomy(a, b);
    }
    forall a: ObjectMetadata, b: ObjectMetadata, c: ObjectMetadata | Less(a, b) && Less(b, c)
      ensures Less(a, c)
    {
      LessTransitive(a, b, c);
    }
    FlipIsStrictTotalOrder(Less);
  }

  lemma FlipIsStrictTotalOrder(lt: Comparison)
    requires StrictTotalOrder(lt)
    ensures StrictTotalOrder(Flip(lt))
  {
    forall a: ObjectMetadata, b: ObjectMetadata, c: ObjectMetadata | Flip(lt)(a, b) && Flip(lt)(b, c)
      ensures Flip(lt)(a, c)
    {
      assert lt(c, b) && lt(b, a);
    }
  }

  /** No later object compares below an earlier one. */
  predicate Ordered(lt: Comparison, objs: seq<Unstructured>) {
    forall i, j :: 0 <= i < j < |objs| ==> !lt(objs[j].meta, objs[i].meta)
  }

  predicate DistinctMetadata(objs: seq<Unstructured>) {
    forall i, j :: 0 <= i < j < |objs| ==> objs[i].meta != objs[j].meta
  }

  /**
   * sort.Sort promises an ordered permutation and nothing about equal elements, so callers may rely only on
   * this contract; the body is one sort that meets it.
   */
  method Sort(lt: Comparison, objs: seq<Unstructured>) returns (sorted: seq<Unstructured>)
    requires StrictTotalOrder(lt)
    ensures multiset(sorted) == multiset(objs)
    ensures Ordered(lt, sorted)
  {
    sorted := [];
    for n := 0 to |objs|
      invariant multiset(sorted) == multiset(objs[..n])
      invariant Ordered(lt, sorted)
    {
      assert objs[..n + 1] == objs[..n] + [objs[n]];
      sorted := Insert(lt, sorted, objs[n]);
    }
    assert objs[..|objs|] == objs;
  }

  method Insert(lt: Comparison, sorted: seq<Unstructured>, x: Unstructured) returns (r: seq<Unstructured>)
    requires StrictTotalOrder(lt)
    requires Ordered(lt, sorted)
    ensures multiset(r) == multiset(sorted) + multiset{x}
    ensures Ordered(lt, r)
  {
    var k := |sorted|;
    while k > 0 && lt(x.meta, sorted[k - 1].meta)
      invariant 0 <= k <= |sorted|
      invariant forall j :: k <= j < |sorted| ==> lt(x.meta, sorted[j].meta)
    {
      k := k - 1;
    }
    r := sorted[..k] + [x] + sorted[k..];
    assert sorted == sorted[..k] + sorted[k..];
    InsertKeepsOrder(lt, sorted, k, x);
  }

  lemma InsertKeepsOrder(lt: Comparison, sorted: seq<Unstructured>, k: nat, x: Unstructured)
    requires StrictTotalOrder(lt)
    requires Ordered(lt, sorted) && k <= |sorted|
    requires k > 0 ==> !lt(x.meta, sorted[k - 1].meta)
    requires forall j :: k <= j < |sorted| ==> lt(x.meta, sorted[j].meta)
    ensures Ordered(lt, sorted[..k] + [x] + sorted[k..])
  {
    var r := sorted[..k] + [x] + sorted[k..];
    forall i, j | 0 <= i < j < |r| ensures !lt(r[j].meta, r[i].meta) {
      if j == k {
        if i < k - 1 { NotBelow(lt, r[i].meta, sorted[k - 1].meta, x.meta); }
      } else if i == k {
        assert r[j] == sorted[j - 1];
      } else {
        assert r[i] == sorted[if i < k then i else i - 1] && r[j] == sorted[if j < k then j else j - 1];
      }
    }
  }

  lemma NotBelow(lt: Comparison, a: ObjectMetadata, b: ObjectMetadata, c: ObjectMetadata)
    requires StrictTotalOrder(lt)
    requires !lt(b, a) && !lt(c, b)
    ensures !lt(c, a)
  {
    assert a == b || lt(a, b);
  }

  lemma OrderedIsStrict(lt: Comparison, objs: seq<Unstructured>)
    requires StrictTotalOrder(lt)
    requires Ordered(lt, objs) && DistinctMetadata(objs)
    ensures forall i, j :: 0 <= i < j < |objs| ==> lt(objs[i].meta, objs[j].meta)
  {
  }

  /** With distinct metadata there is only one ordered arrangement of the same objects. */
  lemma {:induction false} OrderedIsUnique(lt: Comparison, a: seq<Unstructured>, b: seq<Unstructured>)
    requires StrictTotalOrder(lt)
    requires Ordered(lt, a) && Ordered(lt, b)
    requires DistinctMetadata(a) && DistinctMetadata(b)
    requires forall x :: x in a <==> x in b
    ensures a == b
  {
    if a == [] {
      assert forall i :: 0 <= i < |b| ==> b[i] in b;
    } else {
      assert a[0] in b && b[0] in a;
      OrderedIsStrict(lt, a);
      OrderedIsStrict(lt, b);
      assert a[0] == b[0];
      forall x ensures x in a[1..] <==> x in b[1..] {
        TailMembers(a, x);
        TailMembers(b, x);
      }
      OrderedIsUnique(lt, a[1..], b[1..]);
    }
  }

  lemma TailMembers(a: seq<Unstructured>, x: Unstructured)
    requires a != [] && DistinctMetadata(a)
    ensures x in a[1..] <==> x in a && x != a[0]
  {
    assert a == [a[0]] + a[1..];
    if x in a[1..] {
      var i :| 0 <= i < |a[1..]| && a[1..][i] == x;
      assert a[i + 1] == x;
    }
  }

  function Reverse(objs: seq<Unstructured>): seq<Unstructured> {
    seq(|objs|, i requires 0 <= i < |objs| => objs[|objs| - 1 - i])
  }

  /** Sorting with the flipped comparison gives the exact reverse of the sorted list. */
  lemma ReversedOrderIsReverse(up: seq<Unstructured>, down: seq<Unstructured>)
    requires Ordered(Less, up) && Ordered(Flip(Less), down)
    requires DistinctMetadata(up) && DistinctMetadata(down)
    requires forall x :: x in up <==> x in down
    ensures down == Reverse(up)
  {
    var r := Reverse(up);
    forall x ensures x in r <==> x in up {
      if x in up {
        var i :| 0 <= i < |up| && up[i] == x;
        assert r[|up| - 1 - i] == x;
      }
    }
    LessIsStrictTotalOrder();
    OrderedIsUnique(Flip(Less), down, r);
  }

  lemma RankNeverRises(down: seq<Unstructured>, i: nat, j: nat)
    requires Ordered(Flip(Less), down) && i < j < |down|
    ensures Rank(GK(down[j].meta)) <= Rank(GK(down[i].meta))
  {
    assert !Flip(Less)(down[j].meta, down[i].meta);
  }

  /**
   * In a pruning order namespaces come last, CRDs after every kind but the basic ones, and services after the webhook
   * configurations.
   */
  lemma PruningOrder(down: seq<Unstructured>, i: nat, j: nat)
    requires Ordered(Flip(Less), down) && i < |down| && j < |down|
    ensures IsNamespace(down[j]) && !IsNamespace(down[i]) ==> i < j
    ensures IsCRD(down[j]) && !IsBasic(GK(down[i].meta)) ==> i < j
    ensures GK(down[j].meta) == SERVICE_GK && IsRegistrationWebhook(down[i]) ==> i < j
  {
    RankBounds(GK(down[i].meta));
    CRDRanksBelow(GK(down[i].meta));
    RankOfService();
    RankOfWebhooks();
    if j < i { RankNeverRises(down, j, i); }
  }

  /**
   * The dependencies that are found without an annotation: of an object on its namespace, of a custom resource on its
   * CRD, of a webhook configuration on a service. A Namespace is in no namespace, and no basic kind is a custom one.
   */
  predicate ImplicitDependency(u: Unstructured, w: Unstructured) {
    || (IsNamespace(w) && w.meta.name == u.meta.ns && !IsNamespace(u))
    || (IsCRD(w) && w.crd == Some(GK(u.meta)) && !IsBasic(GK(u.meta)))
    || (IsRegistrationWebhook(u) && CallsService(u, w.meta))
  }

  /** Pruning deletes an object before what it depends on implicitly. */
  lemma DependentsArePrunedFirst(down: seq<Unstructured>, i: nat, j: nat)
    requires Ordered(Flip(Less), down) && i < |down| && j < |down|
    requires ImplicitDependency(down[i], down[j])
    ensures i < j
  {
    PruningOrder(down, i, j);
  }

  /** For any two objects: which of them is pruned first. An explicit dependency comes last exactly if it is less. */
  lemma PrunedFirstExactly(down: seq<Unstructured>, i: nat, j: nat)
    requires Ordered(Flip(Less), down) && DistinctMetadata(down) && i < |down| && j < |down|
    ensures i < j <==> Less(down[j].meta, down[i].meta)
  {
    LessIsStrictTotalOrder();
    OrderedIsStrict(Flip(Less), down);
    LessTrichotomy(down[i].meta, down[j].meta);
  }

  lemma OrderedPair(g: seq<Unstructured>, i: nat, j: nat)
    requires Ordered(Less, g) && i < j < |g|
    ensures !Less(g[j].meta, g[i].meta)
  {
  }

  /** What the order of a group means for two of its objects of one kind: by namespace, then by name. */
  lemma OneKindIsSorted(g: seq<Unstructured>, i: nat, j: nat)
    requires Ordered(Less, g) && i < j < |g|
    requires g[i].meta.group == g[j].meta.group && g[i].meta.kind == g[j].meta.kind
    ensures g[i].meta.ns == g[j].meta.ns || LexLess(g[i].meta.ns, g[j].meta.ns)
    ensures g[i].meta.ns == g[j].meta.ns ==>
              g[i].meta.name == g[j].meta.name || LexLess(g[i].meta.name, g[j].meta.name)
  {
    OrderedPair(g, i, j);
    LexTrichotomy(g[i].meta.ns, g[j].meta.ns);
    LexTrichotomy(g[i].meta.name, g[j].meta.name);
  }

  /**
   * And for two objects of any kinds: the kinds of the list come first and in its order, the others follow by group
   * and then by kind.
   */
  lemma KindsAreSorted(g: seq<Unstructured>, i: nat, j: nat)
    requires Ordered(Less, g) && i < j < |g|
    ensures GK(g[j].meta) in ORDER_LIST ==>
              exists a, b ::
                0 <= a <= b < |ORDER_LIST| && ORDER_LIST[a] == GK(g[i].meta) && ORDER_LIST[b] == GK(g[j].meta)
    ensures GK(g[i].meta) !in ORDER_LIST ==>
              && GK(g[j].meta) !in ORDER_LIST
              && (g[i].meta.group == g[j].meta.group || LexLess(g[i].meta.group, g[j].meta.group))
              && (g[i].meta.group == g[j].meta.group ==>
                    g[i].meta.kind == g[j].meta.kind || LexLess(g[i].meta.kind, g[j].meta.kind))
  {
    OrderedPair(g, i, j);
    ListedRank(GK(g[i].meta));
    ListedRank(GK(g[j].meta));
    LexTrichotomy(g[i].meta.group, g[j].meta.group);
    LexTrichotomy(g[i].meta.kind, g[j].meta.kind);
  }
}
