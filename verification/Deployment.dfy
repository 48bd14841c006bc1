/** pkg/poller/statuschecker.go: when a Deployment that decodes counts as current. */
module Deployments {
  import opened Wrappers

  datatype Verdict = InProgress | Failed | Terminating | Current

  datatype Condition = Condition(kind: string, status: string, reason: string)

  datatype Deployment = Deployment(
    deleted: bool,                         // a deletion timestamp is set
    generation: int,
    observedGeneration: Option<int>,
    progressDeadlineSeconds: Option<int>,
    specReplicas: Option<int>,
    statusReplicas: int,
    updatedReplicas: int,
    availableReplicas: int,
    readyReplicas: int,
    conditions: seq<Condition>)

  predicate ExceedsDeadline(c: Condition) {
    c.kind == "Progressing" && c.reason == "ProgressDeadlineExceeded"
  }

  predicate ReportsProgress(c: Condition) {
    c.kind == "Progressing" && c.reason == "NewReplicaSetAvailable" && c.status == "True"
  }

  predicate ReportsAvailable(c: Condition) {
    c.kind == "Available" && c.status == "True"
  }

  predicate Has(conditions: seq<Condition>, p: Condition -> bool) {
    exists c :: c in conditions && p(c)
  }

  function Wanted(d: Deployment): int {
    if d.specReplicas.Some? then d.specReplicas.value else 1
  }

  /** The four comparisons with the wanted number of replicas. */
  predicate HasReplicas(d: Deployment, n: int) {
    && d.statusReplicas == n && d.updatedReplicas >= n
    && d.availableReplicas >= d.updatedReplicas && d.readyReplicas >= n
  }

  /** replicasStatusResult; None is the nil result. */
  function ReplicasStatusResult(d: Deployment): (r: Option<Verdict>)
    ensures r == None || r == Some(InProgress)
    ensures d.specReplicas.Some? ==> (r == None <==> HasReplicas(d, d.specReplicas.value))
    ensures d.specReplicas == None ==> (r == None <==> HasReplicas(d, 1))
  {
    if Wanted(d) > d.statusReplicas then Some(InProgress)
    else if Wanted(d) > d.updatedReplicas then Some(InProgress)
    else if d.statusReplicas > Wanted(d) then Some(InProgress)
    else if d.updatedReplicas > d.availableReplicas then Some(InProgress)
    else if Wanted(d) > d.readyReplicas then Some(InProgress)
    else None
  }

  /** The rollout has finished: every replica is the new one, available and ready, and the conditions agree. */
  predicate RolledOut(d: Deployment) {
    && ReplicasStatusResult(d) == None
    && (d.progressDeadlineSeconds == None || Has(d.conditions, ReportsProgress))
    && Has(d.conditions, ReportsAvailable)
  }

  /** deployStatusCheck */
  method DeployStatusCheck(d: Deployment) returns (v: Verdict)
    ensures v == Failed <==> Has(d.conditions, ExceedsDeadline)
    ensures v == Current <==> !Has(d.conditions, ExceedsDeadline) && RolledOut(d)
    ensures v != Terminating
  {
    var isProgressing := d.progressDeadlineSeconds == None;
    var isAvailable := false;
    for i := 0 to |d.conditions|
      invariant forall j :: 0 <= j < i ==> !ExceedsDeadline(d.conditions[j])
      invariant isProgressing <==> d.progressDeadlineSeconds == None || Has(d.conditions[..i], ReportsProgress)
      invariant isAvailable <==> Has(d.conditions[..i], ReportsAvailable)
    {
      var c := d.conditions[i];
      HasAppend(d.conditions[..i], c, ReportsProgress);
      HasAppend(d.conditions[..i], c, ReportsAvailable);
      assert d.conditions[..i + 1] == d.conditions[..i] + [c];
      if ExceedsDeadline(c) { return Failed; }
      if ReportsProgress(c) { isProgressing := true; }
      else if ReportsAvailable(c) { isAvailable := true; }
    }
    assert d.conditions[..|d.conditions|] == d.conditions;
    var replicas := ReplicasStatusResult(d);
    if replicas.Some? { return replicas.value; }
    if !isProgressing { return InProgress; }
    if !isAvailable { return InProgress; }
    return Current;
  }

  lemma HasAppend(conditions: seq<Condition>, c: Condition, p: Condition -> bool)
    ensures Has(conditions + [c], p) <==> Has(conditions, p) || p(c)
  {
    assert forall x :: x in conditions + [c] <==> x in conditions || x == c;
  }

  predicate Observed(d: Deployment) {
    d.observedGeneration == None || d.observedGeneration == Some(d.generation)
  }

  /** The verdict as a function of what the conditions contain, not of their order. */
  function VerdictOf(d: Deployment): Verdict {
    if d.deleted then Terminating
    else if !Observed(d) then InProgress
    else if Has(d.conditions, ExceedsDeadline) then Failed
    else if RolledOut(d) then Current
    else InProgress
  }

  /** A Deployment that wants this many replicas is current, in the fields of its record. */
  predicate IsCurrentWith(d: Deployment, n: int) {
    && !d.deleted
    && (d.observedGeneration == None || d.observedGeneration == Some(d.generation))
    && (forall c :: c in d.conditions ==> c.kind == "Progressing" ==> c.reason != "ProgressDeadlineExceeded")
    && d.statusReplicas == n && d.updatedReplicas >= n
    && d.availableReplicas >= d.updatedReplicas && d.readyReplicas >= n
    && (d.progressDeadlineSeconds == None
        || exists c :: c in d.conditions && c.kind == "Progressing" && c.reason == "NewReplicaSetAvailable"
                       && c.status == "True")
    && (exists c :: c in d.conditions && c.kind == "Available" && c.status == "True")
  }

  /** statusCheck for a Deployment: deletion first, then the generations, then the rollout. */
  method StatusCheck(d: Deployment) returns (v: Verdict)
    ensures v == VerdictOf(d)
    ensures d.specReplicas.Some? ==> (v == Current <==> IsCurrentWith(d, d.specReplicas.value))
    ensures d.specReplicas == None ==> (v == Current <==> IsCurrentWith(d, 1))
    ensures v == Failed <==>
            && !d.deleted
            && (d.observedGeneration == None || d.observedGeneration == Some(d.generation))
            && (exists c :: c in d.conditions && c.kind == "Progressing" && c.reason == "ProgressDeadlineExceeded")
    ensures v == Terminating <==> d.deleted
  {
    if d.deleted { return Terminating; }
    if d.observedGeneration.Some? && d.observedGeneration.value != d.generation { return InProgress; }
    v := DeployStatusCheck(d);
  }

  /** A Deployment that does not say how many replicas it wants is judged as one that wants a single one. */
  lemma OneReplicaIsDefault(d: Deployment)
    requires d.specReplicas == None
    ensures VerdictOf(d) == VerdictOf(d.(specReplicas := Some(1)))
  {
    var e := d.(specReplicas := Some(1));
    assert Wanted(e) == 1 && RolledOut(d) == RolledOut(e);
  }

  /** Listing the conditions in another order does not change the verdict. */
  lemma VerdictIgnoresOrder(d: Deployment, conditions: seq<Condition>)
    requires multiset(conditions) == multiset(d.conditions)
    ensures VerdictOf(d.(conditions := conditions)) == VerdictOf(d)
  {
    forall c ensures c in conditions <==> c in d.conditions {
      assert c in conditions <==> c in multiset(conditions);
    }
    SameMembers(d.conditions, conditions, ExceedsDeadline);
    SameMembers(d.conditions, conditions, ReportsProgress);
    SameMembers(d.conditions, conditions, ReportsAvailable);
  }

  lemma SameMembers(a: seq<Condition>, b: seq<Condition>, p: Condition -> bool)
    requires forall c :: c in a <==> c in b
    ensures Has(a, p) <==> Has(b, p)
  {
  }
}
