/** Concrete inputs on which a promise one might expect fails; the exact conditions are beside the promises. */
module Counterexamples {
  import opened Wrappers
  import opened Metadata
  import opened Annotation
  import opened Objects
  import opened Ordering
  import opened Clusters
  import opened Inventory
  import opened Layering
  import opened DependencyGraphs
  import opened GraphBuilder
  import opened GroupOrder
  import opened QueueBuilders
  import opened Tasks
  import opened Runner
  import opened Appliers
  import opened Orphans
  import opened Scenarios
  import opened Multiplexer

  // ----- the key codec: see PrintThenParse -----

  function Named(name: string): ObjectMetadata {
    ObjectMetadata(name, "default", "rbac.authorization.k8s.io", "Role")
  }

  /** A double underscore in a name is read back as a colon. */
  lemma DoubleUnderscoreIsLost(m: ObjectMetadata)
    requires HasKeyCharacters(m) && m.name == "a__b"
    ensures ObjectMetadataFromString(ToString(m)) == Some(m.(name := "a:b"))
  {
    KeyIsAccepted(m);
    ColonAppears();
  }

  lemma ColonAppears()
    ensures UnescapeColons(EscapeColons("a__b")) == "a:b"
  {
    EscapeCharacters("a__b");
    assert "a__b" == ['a'] + "__b";
    UnescapeOne('a', "__b");
    assert "__b"[..2] == "__" && "__b"[2..] == "b";
    assert "a" + (":" + "b") == "a:b";
  }

  lemma UnescapeOne(c: char, s: string)
    requires c != '_'
    ensures UnescapeColons([c] + s) == [c] + UnescapeColons(s)
  {
    var t := [c] + s;
    assert t[1..] == s;
    if |t| >= 2 { assert t[..2][0] != '_'; }
  }

  // ----- sorting twice: see SecondSortIsExact -----

  /** Of one object that depends on another, the first sort makes two groups and the second one. */
  lemma SecondSortDiffers(a: V, b: V)
    requires a != b
    ensures var e := map[a := {b}, b := {}];
            Layers(e) == [{b}, {a}] && Residue(e) == map[] && Layers(Layering.Drained(e)) == [{a, b}]
  {
    var e := map[a := {b}, b := {}];
    assert e[a] == {b} && e[b] == {};
    var p: Edges := map[a := {}];
    assert e.Keys == {a, b};
    assert Ready(e) == {b};
    assert Peel(e) == p by {
      assert b !in Peel(e) && a in Peel(e) && Peel(e)[a] == {};
    }
    OnlyVertex(a);
    DrainedLayers(e);
    assert e.Keys - Residue(e).Keys == {a, b};
  }

  lemma OnlyVertex(a: V)
    ensures var p: Edges := map[a := {}]; Layers(p) == [{a}] && Residue(p) == map[]
  {
    var p: Edges := map[a := {}];
    assert Ready(p) == {a};
    assert Peel(p) == map[];
    assert Ready(Peel(p)) == {};
  }

  // ----- namespaces with one name: see RulesAreExact -----

  function Plain(addr: nat, meta: ObjectMetadata): V {
    Unstructured(addr, meta, None, [], map[])
  }

  /** Of two Namespace objects with one name, only the last in the input is a dependency. */
  lemma OnlyLastNamespaceIsDependency()
    ensures var n0 := Plain(0, ObjectMetadata("default", "a", "", "Namespace"));
            var n1 := Plain(1, ObjectMetadata("default", "b", "", "Namespace"));
            var o := Plain(2, Named("o"));
            DistinctIds([n0, n1, o]) && DependsOn([n0, n1, o], o, n1) && !DependsOn([n0, n1, o], o, n0)
  {
    var n0 := Plain(0, ObjectMetadata("default", "a", "", "Namespace"));
    var n1 := Plain(1, ObjectMetadata("default", "b", "", "Namespace"));
    var o := Plain(2, Named("o"));
    var objs := [n0, n1, o];
    assert GK(o.meta) != NAMESPACE_GK;
    assert Explicit(o) == [];
    RulesAreExact(objs, o, n0);
    RulesAreExact(objs, o, n1);
    assert objs[1] == n1;
    assert IsNamespaceNamed("default")(objs[1]);
  }

  // ----- inputs without dependencies -----

  predicate IsPlain(o: V) {
    o.annotations == map[] && !IsCRD(o) && !IsNamespace(o) && !IsRegistrationWebhook(o)
  }

  lemma PlainDependsOnNothing(objs: seq<V>, u: V, w: V)
    requires forall o :: o in objs ==> IsPlain(o)
    ensures !DependsOn(objs, u, w)
  {
    LookupFindsHeld(objs, u.meta, u);
    MatchedIsInput(objs, DefinesKind(GK(u.meta)));
    MatchedIsInput(objs, IsNamespaceNamed(u.meta.ns));
    if Held(objs, u) { assert Explicit(u) == []; }
  }

  lemma PlainReportsNothing(objs: seq<V>, e: GraphError)
    requires forall o :: o in objs ==> IsPlain(o)
    ensures !Reported(objs, e)
  {
    forall o | Held(objs, o) ensures !Reports(objs, o, e) {
      LookupFindsHeld(objs, o.meta, o);
      assert ExplicitSpec(o.annotations) == ([], None);
    }
  }

  /** All of them go into one group. */
  lemma PlainIsAccepted(objs: seq<V>)
    requires objs != [] && forall o :: o in objs ==> IsPlain(o)
    ensures Accepted(objs) && Layers(GraphOf(objs)) == [set o | o in objs]
  {
    var e := GraphOf(objs);
    forall u | u in objs ensures e[u] == {} {
      forall w | w in e[u] ensures false { PlainDependsOnNothing(objs, u, w); }
    }
    forall error ensures !Reported(objs, error) { PlainReportsNothing(objs, error); }
    assert objs[0] in Ready(e);
    assert Ready(e) == set o | o in objs;
    assert Peel(e) == map[];
    LayersOfStuck(Peel(e));
  }

  // ----- orphans: see UnsavedRunIsExact and SavedRunIsExact -----

  /** A first run that is cut short after it applied an object: the object is an orphan. */
  lemma CutShortForgets() returns (w: World, w': World, r: RunRecord)
    ensures NoOrphans(w) && UnsavedRun(w, w', r, [Plain(0, Named("a"))], false) && !NoOrphans(w')
  {
    var o := Plain(0, Named("a"));
    PlainIsAccepted([o]);
    w := World({}, {}, None);
    w', r := UnstoredIsForgotten(w, [o], o);
  }

  /**
   * A saved run on two independent objects of which the first met an unsupported media type: the second is still owned
   * and was in the inventory before, but is an orphan afterwards.
   */
  lemma BailOutForgets(a: V, o: V) returns (w: World, w': World, r: RunRecord)
    requires a == Plain(0, Named("a")) && o == Plain(1, Named("b"))
    ensures NoOrphans(w) && IsRun(w, w', r) && r.local == [a, o] && Saved(r) && LocalIdsWellFormed(r) && !NoOrphans(w')
  {
    var local, groups := [a, o], [[a, o]];
    ShortNamesAreWellFormed();
    PairIsOneGroup(a, o, local, groups);
    w, w', r := BailOutOnPair(a, o, local, groups);
  }

  /** The same for any two objects that the builder puts into one group in this order. */
  lemma BailOutOnPair(a: V, o: V, local: seq<V>, groups: seq<seq<V>>) returns (w: World, w': World, r: RunRecord)
    requires local == [a, o] && groups == [[a, o]] && GroupsOf(local, groups) && GroupsInOrder(Less, groups)
    requires a.meta != o.meta && WellFormed(a.meta) && WellFormed(o.meta)
    ensures NoOrphans(w) && IsRun(w, w', r) && r.local == local && Saved(r) && LocalIdsWellFormed(r) && !NoOrphans(w')
  {
    w := StoredAlone(o);
    w', r := BailOutRun(w, a, o, local, groups);
    BehindIsForgotten(w, w', r, a, o);
  }

  lemma BehindIsForgotten(w: World, w': World, r: RunRecord, a: V, o: V)
    requires NoOrphans(w) && RunStep(w, w', r) && r.Started? && Saved(r) && LocalIdsWellFormed(r)
    requires o in r.local && o.meta in w'.owned && a.meta != o.meta
    requires r.queue == [ApplyTask([a, o], false), InventoryTask(false)]
    requires r.outs == [ApplyDone([Unsupported]), SaveDone(true)]
    ensures !NoOrphans(w')
  {
    MemberHasId(r.local, o);
    BehindIsNotHandled(r, a, o);
    SavedRunForgets(w, w', r);
  }

  lemma StoredAlone(o: V) returns (w: World)
    requires WellFormed(o.meta)
    ensures NoOrphans(w) && w.owned == {o.meta} && o.meta in StoredIds(w.inventory)
  {
    w := World({o.meta}, {o.meta}, Some(DataOf({o})));
    SavedAreStored({o});
  }

  lemma ShortNamesAreWellFormed()
    ensures WellFormed(Named("a")) && WellFormed(Named("b"))
  {
  }

  lemma PairIsOneGroup(a: V, o: V, local: seq<V>, groups: seq<seq<V>>)
    requires a == Plain(0, Named("a")) && o == Plain(1, Named("b")) && local == [a, o] && groups == [[a, o]]
    ensures GroupsOf(local, groups) && GroupsInOrder(Less, groups)
  {
    PlainIsAccepted(local);
    assert IsGroup(groups[0], set x | x in local);
    LessTrichotomy(a.meta, o.meta);
  }

  lemma BailOutRun(w: World, a: V, o: V, local: seq<V>, groups: seq<seq<V>>) returns (w': World, r: RunRecord)
    requires local == [a, o] && groups == [[a, o]] && GroupsOf(local, groups) && GroupsInOrder(Less, groups)
    requires w.owned == {o.meta} && o.meta in StoredIds(w.inventory)
    ensures IsRun(w, w', r) && r.local == local && Saved(r) && w'.owned == {o.meta}
    ensures r.options == Unwaited(false) && r.outs == [ApplyDone([Unsupported]), SaveDone(true)]
    ensures r.queue == [ApplyTask([a, o], false), InventoryTask(false)]
  {
    var outs := [ApplyDone([Unsupported]), SaveDone(true)];
    var starting := [o];
    assert starting[0] == o && local[1] == o;
    NothingToPrune(starting, local);
    OneGroupOutcomes(groups, outs, w.owned);
    w', r := PossibleRun(w, local, groups, starting, w.owned, [], outs, w.owned);
  }

  lemma OneGroupOutcomes(groups: seq<seq<V>>, outs: seq<TaskOutcome>, owned: set<ObjectMetadata>)
    requires |groups| == 1 && |groups[0]| == 2 && outs == [ApplyDone([Unsupported]), SaveDone(true)]
    ensures var queue := QueueOf(groups, [], Unwaited(false));
            && queue == [ApplyTask(groups[0], false), InventoryTask(false)]
            && FitsAll(queue, outs) && WaitsEnded(queue, outs) && owned <= RunOwned(owned, queue, outs)
  {
    var queue := QueueOf(groups, [], Unwaited(false));
    UnwaitedQueue(groups);
    assert outs[..1][..0] == [] && outs[..1][0] == outs[0];
    assert owned <= RunOwned(owned, queue, outs[..1]);
  }

  lemma BehindIsNotHandled(r: RunRecord, a: V, o: V)
    requires r.Started? && r.queue == [ApplyTask([a, o], false), InventoryTask(false)] && a.meta != o.meta
    requires r.outs == [ApplyDone([Unsupported]), SaveDone(true)]
    ensures FitsAll(r.queue, r.outs) && !IdHandled(r, o.meta)
  {
    assert forall x, i, j :: HandledAt(r, x, i, j) ==> x == a;
  }

  // ----- deleting what was never applied: see ForeignDeletesAreExact -----

  /** After a run that applied `a__b`, a run without objects deletes an `a:b` that no run ever applied. */
  lemma ForeignIsDeleted(o: V, x: ObjectMetadata) returns (worlds: seq<World>, steps: seq<Option<RunRecord>>)
    requires o == Plain(0, Named("a__b")) && x == Named("a:b")
    ensures RunsOn(worlds, steps, {o}) && DeletesForeign(steps, 1, DeleteCall(x, false))
  {
    NameHasKeyCharacters();
    worlds, steps := UnderscoresAreDeleted(o, x);
  }

  lemma NameHasKeyCharacters()
    ensures HasKeyCharacters(Named("a__b"))
  {
  }

  lemma UnderscoresAreDeleted(o: V, x: ObjectMetadata) returns (worlds: seq<World>, steps: seq<Option<RunRecord>>)
    requires IsPlain(o) && HasKeyCharacters(o.meta) && o.meta.name == "a__b" && x == o.meta.(name := "a:b")
    ensures RunsOn(worlds, steps, {o}) && DeletesForeign(steps, 1, DeleteCall(x, false))
  {
    DoubleUnderscoreIsLost(o.meta);
    assert |"a__b"| != |"a:b"|;
    worlds, steps := PlainIsMisread(o, x);
  }

  lemma PlainIsMisread(o: V, x: ObjectMetadata) returns (worlds: seq<World>, steps: seq<Option<RunRecord>>)
    requires IsPlain(o) && ReadsBackAs(o.meta, x) && x != o.meta
    ensures RunsOn(worlds, steps, {o}) && DeletesForeign(steps, 1, DeleteCall(x, false))
  {
    PlainIsAccepted([o]);
    worlds, steps := ReadBackIsDeleted([o], o, x, {o});
  }

  // ----- closing doneCh in the middle of AddChannel: see RaceIsExact -----

  /** A channel with one message is accepted, doneCh closes and the closer sees no forwarder: the message can panic. */
  lemma LateChannelPanics<T>(x: T) returns (rest: seq<Action<T>>)
    ensures var actions := [Begin] + ([Produce(0, x)] + ([Check(0)] + ([CloseDone] + rest)));
            Run(Initial<T>(), actions).Some? && Run(Initial<T>(), actions).value.panicked
  {
    var s := Initial<T>();
    var s1 := Next(s, Begin).value;
    var s2 := Next(s1, Produce(0, x)).value;
    var s3 := Next(s2, Check(0)).value;
    var s4 := Next(s3, CloseDone).value;
    assert s1.calls == [Call(Called, [], false, 0)] && [] + [x] == [x];
    assert s2.calls == [Call(Called, [x], false, 0)];
    assert s4.calls == [Call(Checked, [x], false, 0)];
    var s5 := Next(s4, CloserSelect).value;
    var s6 := Next(s5, CloserTest).value;
    var s7 := Next(s6, CloserClose).value;
    var late := LateForwarderPanics(s7, 0, x);
    rest := [CloserSelect] + ([CloserTest] + ([CloserClose] + late));
    RunCons(s6, CloserClose, late);
    RunCons(s5, CloserTest, [CloserClose] + late);
    RunCons(s4, CloserSelect, [CloserTest] + ([CloserClose] + late));
    RunCons(s3, CloseDone, rest);
    RunCons(s2, Check(0), [CloseDone] + rest);
    RunCons(s1, Produce(0, x), [Check(0)] + ([CloseDone] + rest));
    RunCons(s, Begin, [Produce(0, x)] + ([Check(0)] + ([CloseDone] + rest)));
  }
}
