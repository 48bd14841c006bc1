/** pkg/resource/sort.go: the order inside a group of objects, and its reverse for pruning. */
module Ordering {
  import opened Text
  import opened Metadata
  import opened Objects

  // ----- the rank of well-known kinds -----

  /** orderList, entry by entry as the source writes it (including the spelling of `Daemonset`). */
  const ORDER_LIST: seq<GroupKind> := [
    GroupKind("", "Namespace"),
    GroupKind("", "ResourceQuota"),
    GroupKind("", "LimitRange"),
    GroupKind("apiextensions.k8s.io", "CustomResourceDefinition"),
    GroupKind("storage.k8s.io", "StorageClass"),
    GroupKind("networking.k8s.io", "IngressClass"),
    GroupKind("scheduling.k8s.io", "PriorityClass"),
    GroupKind("gateway.networking.k8s.io", "GatewayClass"),
    GroupKind("", "ServiceAccount"),
    GroupKind("rbac.authorization.k8s.io", "Role"),
    GroupKind("rbac.authorization.k8s.io", "ClusterRole"),
    GroupKind("rbac.authorization.k8s.io", "RoleBinding"),
    GroupKind("rbac.authorization.k8s.io", "ClusterRoleBinding"),
    GroupKind("", "Secret"),
    GroupKind("", "ConfigMap"),
    GroupKind("", "PersistentVolume"),
    GroupKind("", "PersistentVolumeClaim"),
    GroupKind("networking.k8s.io", "NetworkPolicy"),
    GroupKind("", "ReplicationController"),
    GroupKind("apps", "StatefulSet"),
    GroupKind("apps", "Deployment"),
    GroupKind("apps", "Daemonset"),
    GroupKind("batch", "CronJob"),
    GroupKind("batch", "Job"),
    GroupKind("", "Pod"),
    GroupKind("", "Service"),
    GroupKind("", "Endpoints"),
    GroupKind("discovery.k8s.io", "EndpointSlice"),
    GroupKind("networking.k8s.io", "Ingress"),
    GroupKind("gateway.networking.k8s.io", "Gateway"),
    GroupKind("gateway.networking.k8s.io", "HTTPRoute"),
    GroupKind("gateway.networking.k8s.io", "ReferenceGrant"),
    GroupKind("policy", "PodDisruptionBudget"),
    GroupKind("autoscaling", "HorizontalPodAutoscaler"),
    GroupKind("autoscaling.k8s.io", "VerticalPodAutoscaler"),
    GroupKind("apiregistration.k8s.io", "APIService"),
    GroupKind("admissionregistration.k8s.io", "MutatingWebhookConfiguration"),
    GroupKind("admissionregistration.k8s.io", "ValidatingWebhookConfiguration")
  ]

  /** The table after the first `n` entries have been written; a repeated entry overwrites. */
  function RankTable(list: seq<GroupKind>, n: nat): map<GroupKind, int>
    requires n <= |list|
  {
    if n == 0 then map[] else RankTable(list, n - 1)[list[n - 1] := -|list| + n - 1]
  }

  /** Exactly the first `n` kinds are in the table, each with the rank of one of its positions. */
  lemma {:induction false} RankTableEntry(list: seq<GroupKind>, n: nat, gk: GroupKind)
    requires n <= |list|
    ensures gk in RankTable(list, n) <==> exists i :: 0 <= i < n && list[i] == gk
    ensures gk in RankTable(list, n) ==>
              exists i :: 0 <= i < n && list[i] == gk && RankTable(list, n)[gk] == -|list| + i
  {
    if n > 0 {
      RankTableEntry(list, n - 1, gk);
      if list[n - 1] != gk && gk in RankTable(list, n) {
        var i :| 0 <= i < n - 1 && list[i] == gk && RankTable(list, n - 1)[gk] == -|list| + i;
        assert list[i] == gk && RankTable(list, n)[gk] == -|list| + i;
      }
    }
  }

  /** The initialiser of defaultGroupKindSortMap. */
  method BuildRankTable(list: seq<GroupKind>) returns (table: map<GroupKind, int>)
    ensures table == RankTable(list, |list|)
  {
    table := map[];
    for i := 0 to |list|
      invariant table == RankTable(list, i)
    {
      table := table[list[i] := -|list| + i];
    }
  }

  /** The kind has an entry in the table. */
  predicate IsListed(gk: GroupKind) {
    gk in RankTable(ORDER_LIST, |ORDER_LIST|)
  }

  /** A lookup in the table; kinds that are not in it have the zero rank. */
  function Rank(gk: GroupKind): int {
    var table := RankTable(ORDER_LIST, |ORDER_LIST|);
    if gk in table then table[gk] else 0
  }

  lemma NamespaceIsListedOnce(i: nat)
    requires i < |ORDER_LIST|
    ensures ORDER_LIST[i] == NAMESPACE_GK <==> i == 0
  {
    assert i > 0 ==> |ORDER_LIST[i].kind| != 9 || ORDER_LIST[i].kind[0] != 'N';
  }

  /** Namespace has the smallest rank of all kinds, and the listed kinds rank below the unlisted ones. */
  lemma RankBounds(gk: GroupKind)
    ensures gk != NAMESPACE_GK ==> Rank(NAMESPACE_GK) < Rank(gk)
    ensures IsListed(gk) ==> Rank(gk) < 0
    ensures !IsListed(gk) ==> Rank(gk) == 0
  {
    var n := |ORDER_LIST|;
    var table := RankTable(ORDER_LIST, n);
    NamespaceIsListedOnce(0);
    RankTableEntry(ORDER_LIST, n, NAMESPACE_GK);
    var z :| 0 <= z < n && ORDER_LIST[z] == NAMESPACE_GK && table[NAMESPACE_GK] == -n + z;
    NamespaceIsListedOnce(z);
    RankTableEntry(ORDER_LIST, n, gk);
    if IsListed(gk) {
      var i :| 0 <= i < n && ORDER_LIST[i] == gk && table[gk] == -n + i;
      NamespaceIsListedOnce(i);
    }
  }

  /** A listed kind ranks by one of its positions, below zero; any other kind has rank zero. */
  lemma ListedRank(gk: GroupKind)
    ensures gk in ORDER_LIST ==>
              Rank(gk) < 0 && exists i :: 0 <= i < |ORDER_LIST| && ORDER_LIST[i] == gk && Rank(gk) == -|ORDER_LIST| + i
    ensures gk !in ORDER_LIST ==> Rank(gk) == 0
  {
    RankTableEntry(ORDER_LIST, |ORDER_LIST|, gk);
  }

  lemma CRDIsListedOnce(i: nat)
    requires i < |ORDER_LIST|
    ensures ORDER_LIST[i] == CRD_GK <==> i == 3
  {
    assert i != 3 ==> |ORDER_LIST[i].kind| != 24;
  }

  lemma QuotaIsListedOnce(i: nat)
    requires i < |ORDER_LIST|
    ensures ORDER_LIST[i] == GroupKind("", "ResourceQuota") <==> i == 1
  {
    assert i != 1 ==> |ORDER_LIST[i].kind| != 13 || ORDER_LIST[i].kind[0] != 'R';
  }

  lemma LimitRangeIsListedOnce(i: nat)
    requires i < |ORDER_LIST|
    ensures ORDER_LIST[i] == GroupKind("", "LimitRange") <==> i == 2
  {
    assert i != 2 ==> |ORDER_LIST[i].kind| != 10 || ORDER_LIST[i].kind[0] != 'L';
  }

  lemma ServiceIsListedOnce(i: nat)
    requires i < |ORDER_LIST|
    ensures ORDER_LIST[i] == SERVICE_GK <==> i == 25
  {
    assert i != 25 ==> |ORDER_LIST[i].kind| != 7 || ORDER_LIST[i].kind[0] != 'S';
  }

  lemma WebhooksAreListedOnce(i: nat)
    requires i < |ORDER_LIST|
    ensures ORDER_LIST[i] == MUTATING_GK <==> i == 36
    ensures ORDER_LIST[i] == VALIDATING_GK <==> i == 37
  {
    assert i < 36 ==> |ORDER_LIST[i].kind| < 28;
  }

  /** A kind that is listed once has the rank of its position. */
  lemma RankAt(list: seq<GroupKind>, z: nat)
    requires z < |list| && forall i :: 0 <= i < |list| && list[i] == list[z] ==> i == z
    ensures list[z] in RankTable(list, |list|) && RankTable(list, |list|)[list[z]] == -|list| + z
  {
    RankTableEntry(list, |list|, list[z]);
  }

  lemma RankOfCRD()
    ensures Rank(CRD_GK) == -|ORDER_LIST| + 3
  {
    CRDIsListedOnce(3);
    forall i | 0 <= i < |ORDER_LIST| && ORDER_LIST[i] == ORDER_LIST[3] ensures i == 3 { CRDIsListedOnce(i); }
    RankAt(ORDER_LIST, 3);
  }

  lemma RankOfService()
    ensures Rank(SERVICE_GK) == -|ORDER_LIST| + 25
  {
    ServiceIsListedOnce(25);
    forall i | 0 <= i < |ORDER_LIST| && ORDER_LIST[i] == ORDER_LIST[25] ensures i == 25 { ServiceIsListedOnce(i); }
    RankAt(ORDER_LIST, 25);
  }

  lemma RankOfWebhooks()
    ensures Rank(MUTATING_GK) == -|ORDER_LIST| + 36 && Rank(VALIDATING_GK) == -|ORDER_LIST| + 37
  {
    WebhooksAreListedOnce(36);
    WebhooksAreListedOnce(37);
    forall i | 0 <= i < |ORDER_LIST| && ORDER_LIST[i] == ORDER_LIST[36] ensures i == 36 { WebhooksAreListedOnce(i); }
    forall i | 0 <= i < |ORDER_LIST| && ORDER_LIST[i] == ORDER_LIST[37] ensures i == 37 { WebhooksAreListedOnce(i); }
    RankAt(ORDER_LIST, 36);
    RankAt(ORDER_LIST, 37);
  }

  /** The kinds that do not rank above CustomResourceDefinition. */
  predicate IsBasic(gk: GroupKind) {
    gk == NAMESPACE_GK || gk == GroupKind("", "ResourceQuota") || gk == GroupKind("", "LimitRange") || gk == CRD_GK
  }

  /** The rest of the kinds do, so that any custom resource comes after its definition. */
  lemma CRDRanksBelow(gk: GroupKind)
    ensures Rank(CRD_GK) < Rank(gk) <==> !IsBasic(gk)
  {
    var n := |ORDER_LIST|;
    RankOfCRD();
    RankTableEntry(ORDER_LIST, n, gk);
    if IsListed(gk) {
      var i :| 0 <= i < n && ORDER_LIST[i] == gk && RankTable(ORDER_LIST, n)[gk] == -n + i;
      BasicIsFirst(i);
    } else if IsBasic(gk) {
      var i := BasicPosition(gk);
      assert false;
    }
  }

  lemma BasicIsFirst(i: nat)
    requires i < |ORDER_LIST|
    ensures IsBasic(ORDER_LIST[i]) <==> i < 4
  {
    NamespaceIsListedOnce(i);
    QuotaIsListedOnce(i);
    LimitRangeIsListedOnce(i);
    CRDIsListedOnce(i);
  }

  lemma BasicPosition(gk: GroupKind) returns (i: nat)
    requires IsBasic(gk)
    ensures i < |ORDER_LIST| && ORDER_LIST[i] == gk
  {
    i := if gk == NAMESPACE_GK then 0 else if gk == CRD_GK then 3 else if |gk.kind| == 13 then 1 else 2;
  }

  // ----- the order -----

  predicate LessGK(i: GroupKind, j: GroupKind) {
    if Rank(i) != Rank(j) then Rank(i) < Rank(j)
    else if i.group != j.group then LexLess(i.group, j.group)
    else LexLess(i.kind, j.kind)
  }

  predicate Less(i: ObjectMetadata, j: ObjectMetadata) {
    if GK(i) != GK(j) then LessGK(GK(i), GK(j))
    else if i.ns != j.ns then LexLess(i.ns, j.ns)
    else LexLess(i.name, j.name)
  }

  /** `less` is total and asymmetric: exactly one of three cases holds. */
  lemma LessTrichotomy(a: ObjectMetadata, b: ObjectMetadata)
    ensures a == b || Less(a, b) || Less(b, a)
    ensures !(Less(a, b) && Less(b, a))
    ensures a == b ==> !Less(a, b)
  {
    LexTrichotomy(a.group, b.group);
    LexTrichotomy(a.kind, b.kind);
    LexTrichotomy(a.ns, b.ns);
    LexTrichotomy(a.name, b.name);
  }

  lemma LessGKTransitive(a: GroupKind, b: GroupKind, c: GroupKind)
    requires LessGK(a, b) && LessGK(b, c) && a != b && b != c
    ensures LessGK(a, c) && a != c
  {
    LexTrichotomy(a.group, b.group);
    LexTrichotomy(a.kind, b.kind);
    if a.group == b.group == c.group {
      if Rank(a) == Rank(b) == Rank(c) { LexTransitive(a.kind, b.kind, c.kind); }
    } else if a.group != b.group && b.group != c.group && Rank(a) == Rank(b) == Rank(c) {
      LexTransitive(a.group, b.group, c.group);
    }
  }

  lemma LessTransitive(a: ObjectMetadata, b: ObjectMetadata, c: ObjectMetadata)
    requires Less(a, b) && Less(b, c)
    ensures Less(a, c)
  {
    if GK(a) != GK(b) && GK(b) != GK(c) {
      LessGKTransitive(GK(a), GK(b), GK(c));
    } else if GK(a) == GK(b) == GK(c) {
      if a.ns == b.ns == c.ns {
        LexTransitive(a.name, b.name, c.name);
      } else if a.ns != b.ns && b.ns != c.ns {
        LexTransitive(a.ns, b.ns, c.ns);
        LexTrichotomy(a.ns, b.ns);
      }
    }
  }
}
