/**
 * The remote side: which ids exist, the ConfigMap that backs the inventory, and what the tool owns.
 *
 * Every answer of the API server is chosen arbitrarily, and before every request other clients may create and
 * delete anything except the inventory. `owned` holds the ids the tool applied and has not deleted since, as
 * long as they stay in the cluster.
 */
module Clusters {
  import opened Wrappers
  import opened Metadata
  import opened Objects

  datatype PatchOutcome = PatchOk | PatchError | PatchUnsupportedMediaType
  datatype DeleteOutcome = DeleteOk | DeleteNotFound | DeleteError
  datatype FetchOutcome = Found(obj: Unstructured) | Missing | FetchError

  /** The requests that change objects. */
  datatype Call = PatchCall(id: ObjectMetadata, dryRun: bool) | DeleteCall(id: ObjectMetadata, dryRun: bool)

  /** The requests that only read: an object, or the ConfigMap of the inventory. */
  datatype Read = FetchRead(id: ObjectMetadata, outcome: FetchOutcome) | InventoryRead(ok: bool)

  predicate Fails(x: Read) {
    x == InventoryRead(false) || (x.FetchRead? && x.outcome == FetchError)
  }

  predicate AnyFails(answers: seq<Read>) {
    exists x :: x in answers && Fails(x)
  }

  datatype FilterVerdict = Pass | Drop | FilterError

  /** What a task is told while it runs: by a filter, by the REST mapper and the encoder, by the API server. */
  datatype Reply =
    | FilterReply(verdict: FilterVerdict)
    | SendableReply(ok: bool)
    | PatchReply(patched: PatchOutcome)
    | DeleteReply(deleted: DeleteOutcome)
    | SaveReply(saved: bool)

  datatype World = World(live: set<ObjectMetadata>, owned: set<ObjectMetadata>, inventory: Option<map<string, string>>)

  class Cluster {
    var live: set<ObjectMetadata>
    var inventory: Option<map<string, string>>
    ghost var owned: set<ObjectMetadata>
    ghost var calls: seq<Call>
    ghost var answers: seq<Read>
    ghost var replies: seq<Reply>

    ghost predicate Valid()
      reads this
    {
      owned <= live
    }

    ghost function State(): World
      reads this
    {
      World(live, owned, inventory)
    }

    constructor (live: set<ObjectMetadata>)
      ensures Valid() && owned == {} && inventory == None && calls == [] && answers == [] && replies == []
      ensures this.live == live
    {
      this.live, inventory, owned, calls, answers, replies := live, None, {}, [], [], [];
    }

    /** Other clients act. */
    method Interfere()
      requires Valid()
      modifies this`live, this`owned
      ensures Valid() && owned == old(owned) * live
    {
      live := *;
      owned := owned * live;
    }

    /** A filter decides about an object. */
    method AskFilter() returns (verdict: FilterVerdict)
      modifies this`replies
      ensures replies == old(replies) + [FilterReply(verdict)]
    {
      verdict := *;
      replies := replies + [FilterReply(verdict)];
    }

    /** Whether a request can be sent at all: there is a REST mapping, and an object to apply can be encoded. */
    method CanSend() returns (ok: bool)
      modifies this`replies
      ensures replies == old(replies) + [SendableReply(ok)]
    {
      ok := *;
      replies := replies + [SendableReply(ok)];
    }

    /** The server-side apply request of applyObject. */
    method Patch(id: ObjectMetadata, dryRun: bool) returns (r: PatchOutcome)
      requires Valid()
      modifies this`live, this`owned, this`calls, this`replies
      ensures Valid() && calls == old(calls) + [PatchCall(id, dryRun)] && replies == old(replies) + [PatchReply(r)]
      ensures owned == old(owned) * live + if r == PatchOk && !dryRun then {id} else {}
    {
      Interfere();
      calls := calls + [PatchCall(id, dryRun)];
      r := *;
      replies := replies + [PatchReply(r)];
      if r == PatchOk && !dryRun {
        live := live + {id};
        owned := owned + {id};
      }
    }

    /** The delete request of pruneObject; a deleted object may linger while its dependents are collected. */
    method Delete(id: ObjectMetadata, dryRun: bool) returns (r: DeleteOutcome)
      requires Valid()
      modifies this`live, this`owned, this`calls, this`replies
      ensures Valid() && calls == old(calls) + [DeleteCall(id, dryRun)] && replies == old(replies) + [DeleteReply(r)]
      ensures owned == (if r == DeleteOk && !dryRun then old(owned) - {id} else old(owned)) * live
      ensures r == DeleteNotFound ==> id !in live
    {
      Interfere();
      calls := calls + [DeleteCall(id, dryRun)];
      r := *;
      if r == DeleteNotFound && id in live { r := DeleteError; }
      replies := replies + [DeleteReply(r)];
      if r == DeleteOk && !dryRun {
        owned := owned - {id};
        var lingers: bool := *;
        if !lingers { live := live - {id}; }
      }
    }

    /** RemoteResourceGetter.Get: the fetched object carries the id asked for; a missing one is not an error. */
    method Get(id: ObjectMetadata) returns (r: FetchOutcome)
      requires Valid()
      modifies this`live, this`owned, this`answers
      ensures Valid() && owned == old(owned) * live && answers == old(answers) + [FetchRead(id, r)]
      ensures r.Found? ==> r.obj.meta == id
      ensures r == Missing ==> id !in live
    {
      Interfere();
      r := *;
      if r.Found? { r := Found(r.obj.(meta := id)); }
      if r == Missing && id in live { r := FetchError; }
      answers := answers + [FetchRead(id, r)];
    }
  }
}
