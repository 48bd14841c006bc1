/**
 * pkg/event/event.go and pkg/client/runner_state.go: the events of a run, and the status each object is left
 * with by the events reported for it.
 */
module Events {
  import opened Wrappers
  import opened Metadata
  import opened Objects

  type V = Unstructured

  datatype Status = Pending | Successful | Failed | Skipped

  datatype Event =
    | ErrorEvent
    | ApplyEvent(status: Status, obj: V)
    | PruneEvent(status: Status, obj: V)
    | InventoryEvent(status: Status)
    | StatusUpdateEvent(status: Status, meta: ObjectMetadata)

  /** objectStatus of pkg/inventory/manager.go */
  datatype ObjectStatus = ApplySuccessful | ApplyFailed | DeleteSuccessful | DeleteFailed | WasSkipped

  type Statuses = map<V, ObjectStatus>

  /** registerEventInManager: which events set a status, and of which object. */
  function Recorded(e: Event): Option<(V, ObjectStatus)> {
    match e
    case ApplyEvent(Successful, o) => Some((o, ApplySuccessful))
    case ApplyEvent(Failed, o) => Some((o, ApplyFailed))
    case ApplyEvent(Skipped, o) => Some((o, WasSkipped))
    case PruneEvent(Successful, o) => Some((o, DeleteSuccessful))
    case PruneEvent(Failed, o) => Some((o, DeleteFailed))
    case _ => None
  }

  function Record(st: Statuses, e: Event): Statuses {
    match Recorded(e)
    case None => st
    case Some((o, s)) => st[o := s]
  }

  /** The statuses after a whole log. */
  function RecordAll(log: seq<Event>): Statuses {
    if log == [] then map[] else Record(RecordAll(log[..|log| - 1]), log[|log| - 1])
  }

  /** The event sets a status of the object: every report about it but that it is pending, or that pruning skips it. */
  predicate IsAbout(e: Event, o: V) {
    || (e.ApplyEvent? && e.obj == o && e.status != Pending)
    || (e.PruneEvent? && e.obj == o && (e.status == Successful || e.status == Failed))
  }

  /** The event is in the log, and no later one sets a status of its object. */
  ghost predicate LastReported(log: seq<Event>, e: Event)
    requires e.ApplyEvent? || e.PruneEvent?
  {
    exists i :: 0 <= i < |log| && log[i] == e && forall j :: i < j < |log| ==> !IsAbout(log[j], e.obj)
  }

  /** The event that reports a status. */
  function ReportOf(o: V, s: ObjectStatus): (e: Event)
    ensures e.ApplyEvent? || e.PruneEvent?
    ensures e.obj == o
  {
    match s
    case ApplySuccessful => ApplyEvent(Successful, o)
    case ApplyFailed => ApplyEvent(Failed, o)
    case WasSkipped => ApplyEvent(Skipped, o)
    case DeleteSuccessful => PruneEvent(Successful, o)
    case DeleteFailed => PruneEvent(Failed, o)
  }

  lemma RecordedIs(e: Event, o: V, s: ObjectStatus)
    ensures Recorded(e) == Some((o, s)) <==> e == ReportOf(o, s)
    ensures IsAbout(e, o) <==> Recorded(e).Some? && Recorded(e).value.0 == o
  {
  }

  /** The manager's map is exactly the last report for each object. */
  lemma {:induction false} StatusIsLastReport(log: seq<Event>, o: V, s: ObjectStatus)
    ensures o in RecordAll(log) && RecordAll(log)[o] == s <==> LastReported(log, ReportOf(o, s))
  {
    if log != [] {
      var n := |log| - 1;
      StatusIsLastReport(log[..n], o, s);
      RecordedIs(log[n], o, s);
      LastReportedStep(log, ReportOf(o, s));
    }
  }

  lemma LastReportedStep(log: seq<Event>, e: Event)
    requires log != [] && (e.ApplyEvent? || e.PruneEvent?) && IsAbout(e, e.obj)
    ensures var n := |log| - 1;
            LastReported(log, e) <==> log[n] == e || (!IsAbout(log[n], e.obj) && LastReported(log[..n], e))
  {
    var n := |log| - 1;
    if !IsAbout(log[n], e.obj) && LastReported(log[..n], e) {
      var i :| 0 <= i < n && log[..n][i] == e && forall j :: i < j < n ==> !IsAbout(log[..n][j], e.obj);
      assert log[i] == e && forall j :: i < j < n ==> log[j] == log[..n][j];
    }
    if LastReported(log, e) {
      var i :| 0 <= i < |log| && log[i] == e && forall j :: i < j < |log| ==> !IsAbout(log[j], e.obj);
      if i < n { assert log[..n][i] == e; }
    }
  }

  lemma RecordAllStep(log: seq<Event>, e: Event)
    ensures RecordAll(log + [e]) == Record(RecordAll(log), e)
  {
    assert (log + [e])[..|log|] == log;
  }
}
