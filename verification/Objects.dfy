/**
 * pkg/resource/unstructured.go: the objects being applied, reduced to what the decisions look at.
 *
 * A value of `Unstructured` stands for a Go reference: `addr` is its identity, so two objects with equal
 * contents at different addresses are different. The contents are those after the mutators have run.
 */
module Objects {
  import opened Wrappers
  import opened Metadata

  datatype GroupKind = GroupKind(group: string, kind: string)

  /** The service a webhook entry calls, where the entry has a decodable client configuration that names one. */
  datatype ServiceRef = ServiceRef(name: string, ns: string)

  datatype Unstructured = Unstructured(
    addr: nat,
    meta: ObjectMetadata,
    crd: Option<GroupKind>,                // the decoded spec of a CRD; None when it does not decode
    webhooks: seq<Option<ServiceRef>>,     // one entry per webhook of a webhook configuration
    annotations: map<string, string>)

  const CRD_GK := GroupKind("apiextensions.k8s.io", "CustomResourceDefinition")
  const NAMESPACE_GK := GroupKind("", "Namespace")
  const VALIDATING_GK := GroupKind("admissionregistration.k8s.io", "ValidatingWebhookConfiguration")
  const MUTATING_GK := GroupKind("admissionregistration.k8s.io", "MutatingWebhookConfiguration")
  const SERVICE_GK := GroupKind("", "Service")

  function GK(m: ObjectMetadata): GroupKind {
    GroupKind(m.group, m.kind)
  }

  predicate MetadataIsCRD(m: ObjectMetadata) { GK(m) == CRD_GK }

  predicate IsCRD(o: Unstructured) { MetadataIsCRD(o.meta) }

  predicate IsNamespace(o: Unstructured) { GK(o.meta) == NAMESPACE_GK }

  predicate IsRegistrationWebhook(o: Unstructured) { GK(o.meta) == VALIDATING_GK || GK(o.meta) == MUTATING_GK }

  function ServiceMetadata(s: ServiceRef): ObjectMetadata {
    ObjectMetadata(s.name, s.ns, SERVICE_GK.group, SERVICE_GK.kind)
  }

  /** The webhook entry refers to the service with this metadata. */
  predicate Names(entry: Option<ServiceRef>, m: ObjectMetadata) {
    entry.Some? && ServiceMetadata(entry.value) == m
  }

  /** How many entries of a webhook configuration call the service. */
  function CallCount(entries: seq<Option<ServiceRef>>, m: ObjectMetadata): nat {
    if entries == [] then 0
    else CallCount(entries[..|entries| - 1], m) + if Names(entries[|entries| - 1], m) then 1 else 0
  }

  /** The webhook configuration calls the service with this metadata. */
  predicate CallsService(webhook: Unstructured, m: ObjectMetadata) {
    exists i :: 0 <= i < |webhook.webhooks| && Names(webhook.webhooks[i], m)
  }

  /** In the words of the API: an entry names a service by its name and its namespace. */
  lemma CallsServiceIs(webhook: Unstructured, m: ObjectMetadata)
    ensures CallsService(webhook, m) <==>
            m.group == "" && m.kind == "Service" &&
            exists i :: 0 <= i < |webhook.webhooks| && webhook.webhooks[i] == Some(ServiceRef(m.name, m.ns))
  {
    forall i | 0 <= i < |webhook.webhooks| && webhook.webhooks[i] == Some(ServiceRef(m.name, m.ns))
      ensures m.group == "" && m.kind == "Service" ==> Names(webhook.webhooks[i], m)
    {
    }
  }

  lemma {:induction false} CalledIsCounted(entries: seq<Option<ServiceRef>>, m: ObjectMetadata)
    ensures CallCount(entries, m) > 0 <==> exists i :: 0 <= i < |entries| && Names(entries[i], m)
  {
    if entries != [] {
      var n := |entries| - 1;
      CalledIsCounted(entries[..n], m);
      if i :| 0 <= i < n && Names(entries[..n][i], m) { assert Names(entries[i], m); }
      if i :| 0 <= i < n && Names(entries[i], m) { assert Names(entries[..n][i], m); }
    }
  }

  /** The entries that call the service. */
  function CallingEntries(entries: seq<Option<ServiceRef>>, m: ObjectMetadata): set<nat> {
    set i: nat | i < |entries| && entries[i] == Some(ServiceRef(m.name, m.ns))
  }

  lemma {:induction false} CallCountIs(entries: seq<Option<ServiceRef>>, m: ObjectMetadata)
    ensures CallCount(entries, m) ==
            if m.group == "" && m.kind == "Service" then |CallingEntries(entries, m)| else 0
  {
    if entries != [] {
      var n := |entries| - 1;
      CallCountIs(entries[..n], m);
      var before := CallingEntries(entries[..n], m);
      assert CallingEntries(entries, m) ==
             before + if entries[n] == Some(ServiceRef(m.name, m.ns)) then {n} else {};
    }
  }

  /** Lists every called service once per webhook entry that refers to it; undecodable entries are skipped. */
  method ServicesMetadataFromWebhook(webhook: Unstructured) returns (services: seq<ObjectMetadata>)
    ensures forall m :: multiset(services)[m] == CallCount(webhook.webhooks, m)
    ensures forall m :: m in services <==> CallsService(webhook, m)
  {
    services := [];
    var entries := webhook.webhooks;
    for i := 0 to |entries|
      invariant forall m :: multiset(services)[m] == CallCount(entries[..i], m)
    {
      assert entries[..i + 1][..i] == entries[..i];
      if entries[i].Some? {
        services := services + [ServiceMetadata(entries[i].value)];
      }
    }
    assert entries[..|entries|] == entries;
    forall m ensures m in services <==> CallsService(webhook, m) {
      assert m in services <==> m in multiset(services);
      CalledIsCounted(webhook.webhooks, m);
    }
  }
}
