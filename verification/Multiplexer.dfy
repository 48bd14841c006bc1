/**
 * pkg/poller/multiplexer.go as interleaved atomic steps: any number of AddChannel calls, the forwarder each of
 * them starts, the goroutine that closes the output, and the senders of the input channels.
 *
 * Every call of AddChannel brings its own channel. The check of `doneCh` and the increment of the counter are
 * separate steps, as in the source; the runs for which this is harmless are characterised exactly.
 */
module Multiplexer {
  import opened Wrappers

  // ----- state -----

  /** How far one AddChannel call and its forwarder have come. */
  datatype Phase<T> =
    | Called                  // not yet at the check of doneCh
    | Refused                 // doneCh was closed at the check
    | Checked                 // doneCh was open at the check, the counter is not yet incremented
    | Counted                 // the counter is incremented, the forwarder not yet started
    | Receiving               // the forwarder is at the top of its loop
    | Holding(message: T)     // it has received a message it has not yet sent on
    | Leaving                 // its input is closed and drained, the counter is not yet decremented
    | Gone

  /** A call with its input channel: everything put into it, whether it is closed, how much was taken out. */
  datatype Call<T> = Call(phase: Phase<T>, sent: seq<T>, closed: bool, taken: nat)

  datatype CloserPhase = AtSelect | AtTest | AtClose | Finished

  datatype State<T> = State(
    calls: seq<Call<T>>,
    counter: int,             // atomic.Int32
    done: bool,               // doneCh is closed
    sawDone: bool,            // contextDone of the closer is nil
    closer: CloserPhase,
    outputClosed: bool,
    output: seq<(nat, T)>,    // the messages sent on, each with the call it came from
    panicked: bool)           // something was sent on the closed output

  function Initial<T>(): State<T> {
    State([], 0, false, false, AtSelect, false, [], false)
  }

  const MAX_INT32: nat := 0x7fff_ffff

  /** The result of Int32.Add for an exact sum that is at most one off the range. */
  function WrapInt32(x: int): int {
    if x > MAX_INT32 then x - 0x1_0000_0000
    else if x < -0x8000_0000 then x + 0x1_0000_0000
    else x
  }

  // ----- steps -----

  datatype Action<T> =
    | Begin                    // AddChannel is called with a new channel
    | Produce(k: nat, x: T)    // a message is put into the channel of call k
    | CloseInput(k: nat)
    | Check(k: nat)
    | Count(k: nat)
    | Spawn(k: nat)
    | Receive(k: nat)
    | EndOfInput(k: nat)
    | Send(k: nat)
    | Leave(k: nat)
    | CloseDone
    | CloserSelect
    | CloserTest
    | CloserClose

  function SetCall<T>(s: State<T>, k: nat, c: Call<T>): State<T>
    requires k < |s.calls|
  {
    s.(calls := s.calls[k := c])
  }

  /** One atomic step, where the action is enabled. */
  function Next<T>(s: State<T>, a: Action<T>): Option<State<T>> {
    match a
    case Begin => Some(s.(calls := s.calls + [Call(Called, [], false, 0)]))
    case CloseDone => Some(s.(done := true))
    case CloserSelect =>
      if s.closer != AtSelect then None
      else Some(s.(closer := AtTest, sawDone := s.sawDone || s.done))
    case CloserTest =>
      if s.closer != AtTest then None
      else Some(s.(closer := if s.sawDone && s.counter <= 0 then AtClose else AtSelect))
    case CloserClose =>
      if s.closer != AtClose then None else Some(s.(closer := Finished, outputClosed := true))
    case _ => if a.k < |s.calls| then CallStep(s, a) else None
  }

  function CallStep<T>(s: State<T>, a: Action<T>): Option<State<T>>
    requires !a.Begin? && !a.CloseDone? && !a.CloserSelect? && !a.CloserTest? && !a.CloserClose?
    requires a.k < |s.calls|
  {
    var c := s.calls[a.k];
    match a
    case Produce(k, x) =>
      if c.closed then None else Some(SetCall(s, k, c.(sent := c.sent + [x])))
    case CloseInput(k) =>
      if c.closed then None else Some(SetCall(s, k, c.(closed := true)))
    case Check(k) =>
      if c.phase != Called then None else Some(SetCall(s, k, c.(phase := if s.done then Refused else Checked)))
    case Count(k) =>
      if c.phase != Checked then None
      else Some(SetCall(s, k, c.(phase := Counted)).(counter := WrapInt32(s.counter + 1)))
    case Spawn(k) =>
      if c.phase != Counted then None else Some(SetCall(s, k, c.(phase := Receiving)))
    case Receive(k) =>
      if c.phase != Receiving || c.taken >= |c.sent| then None
      else Some(SetCall(s, k, c.(phase := Holding(c.sent[c.taken]), taken := c.taken + 1)))
    case EndOfInput(k) =>
      if c.phase != Receiving || !c.closed || c.taken < |c.sent| then None
      else Some(SetCall(s, k, c.(phase := Leaving)))
    case Send(k) =>
      if !c.phase.Holding? then None
      else if s.outputClosed then Some(s.(panicked := true))
      else Some(SetCall(s, k, c.(phase := Receiving)).(output := s.output + [(k, c.phase.message)]))
    case Leave(k) =>
      if c.phase != Leaving then None
      else Some(SetCall(s, k, c.(phase := Gone)).(counter := WrapInt32(s.counter - 1)))
  }

  /** The state after a sequence of actions, if each was enabled in turn. */
  function Run<T>(s: State<T>, actions: seq<Action<T>>): Option<State<T>>
    decreases |actions|
  {
    if actions == [] then Some(s)
    else
      match Next(s, actions[0])
      case None => None
      case Some(s') => Run(s', actions[1..])
  }

  // ----- counting -----

  predicate IsLive<T>(c: Call<T>) {
    c.phase.Counted? || c.phase.Receiving? || c.phase.Holding? || c.phase.Leaving?
  }

  function LiveWeight<T>(c: Call<T>): nat { if IsLive(c) then 1 else 0 }

  function ActiveWeight<T>(c: Call<T>): nat { if IsLive(c) || c.phase.Checked? then 1 else 0 }

  function Total<T>(calls: seq<Call<T>>, weight: Call<T> -> nat): nat {
    if calls == [] then 0 else Total(calls[..|calls| - 1], weight) + weight(calls[|calls| - 1])
  }

  function Live<T>(s: State<T>): nat { Total(s.calls, LiveWeight) }

  function Active<T>(s: State<T>): nat { Total(s.calls, ActiveWeight) }

  lemma {:induction false} TotalUpdate<T>(calls: seq<Call<T>>, weight: Call<T> -> nat, k: nat, c: Call<T>)
    requires k < |calls|
    ensures Total(calls[k := c], weight) == Total(calls, weight) - weight(calls[k]) + weight(c)
    ensures Total(calls, weight) >= weight(calls[k])
  {
    var n := |calls| - 1;
    if k < n {
      TotalUpdate(calls[..n], weight, k, c);
      assert calls[k := c][..n] == calls[..n][k := c];
    } else {
      assert calls[k := c][..n] == calls[..n];
    }
  }

  lemma {:induction false} LiveIsActive<T>(calls: seq<Call<T>>)
    ensures Total(calls, LiveWeight) <= Total(calls, ActiveWeight)
  {
    if calls != [] { LiveIsActive(calls[..|calls| - 1]); }
  }

  lemma {:induction false} NoneLive<T>(calls: seq<Call<T>>)
    requires Total(calls, LiveWeight) == 0
    ensures forall k :: 0 <= k < |calls| ==> !IsLive(calls[k])
  {
    if calls != [] {
      var n := |calls| - 1;
      NoneLive(calls[..n]);
      assert forall k :: 0 <= k < n ==> calls[k] == calls[..n][k];
    }
  }

  // ----- what each call has delivered -----

  /** The messages of one call, in output order. */
  function Project<T>(output: seq<(nat, T)>, k: nat): seq<T> {
    if output == [] then []
    else
      var last := output[|output| - 1];
      Project(output[..|output| - 1], k) + if last.0 == k then [last.1] else []
  }

  lemma ProjectAppend<T>(output: seq<(nat, T)>, k: nat, x: T, j: nat)
    ensures Project(output + [(k, x)], j) == Project(output, j) + if j == k then [x] else []
  {
    assert (output + [(k, x)])[..|output|] == output;
  }

  lemma {:induction false} ProjectOfOther<T>(output: seq<(nat, T)>, j: nat)
    requires forall i :: 0 <= i < |output| ==> output[i].0 != j
    ensures Project(output, j) == []
  {
    if output != [] { ProjectOfOther(output[..|output| - 1], j); }
  }

  /** Nothing is left in the channel and nothing can come. */
  predicate IsExhausted<T>(c: Call<T>) {
    c.closed && c.taken == |c.sent|
  }

  /** The messages taken have all been sent on, in order, except one that may be held. */
  ghost predicate CallOk<T>(c: Call<T>, delivered: seq<T>) {
    && c.taken <= |c.sent|
    && (c.phase.Holding? ==>
          c.taken > 0 && c.phase.message == c.sent[c.taken - 1] && delivered == c.sent[..c.taken - 1])
    && (!c.phase.Holding? ==> delivered == c.sent[..c.taken])
    && (c.phase.Called? || c.phase.Refused? || c.phase.Checked? || c.phase.Counted? ==> c.taken == 0)
    && (c.phase.Leaving? || c.phase.Gone? ==> IsExhausted(c))
  }

  ghost predicate AllCallsOk<T>(s: State<T>) {
    forall k :: 0 <= k < |s.calls| ==> CallOk(s.calls[k], Project(s.output, k))
  }

  // ----- the invariant of harmless runs -----

  /** No call sits between its check and its increment with a channel that may still deliver. */
  predicate NoRace<T>(s: State<T>) {
    forall k :: 0 <= k < |s.calls| && s.calls[k].phase.Checked? ==> IsExhausted(s.calls[k])
  }

  /** The hypothesis on runs: doneCh is not closed in a racing state, and 2^31 calls are never active at once. */
  predicate IsSafe<T>(s: State<T>, a: Action<T>) {
    && (a.CloseDone? ==> s.done || NoRace(s))
    && (a.Check? ==> s.done || Active(s) < MAX_INT32)
  }

  /** Every live forwarder has nothing left to send. */
  predicate Quiet<T>(s: State<T>) {
    forall k :: 0 <= k < |s.calls| && IsLive(s.calls[k]) ==> IsExhausted(s.calls[k]) && !s.calls[k].phase.Holding?
  }

  ghost predicate Inv<T>(s: State<T>) {
    Controlled(s) && Delivered(s)
  }

  ghost predicate Delivered<T>(s: State<T>) {
    AllCallsOk(s) && forall i :: 0 <= i < |s.output| ==> s.output[i].0 < |s.calls|
  }

  ghost predicate Controlled<T>(s: State<T>) {
    && s.counter == Live(s) && Active(s) <= MAX_INT32
    && (s.done ==> NoRace(s))
    && (s.sawDone ==> s.done)
    && (s.closer == AtClose || s.closer == Finished ==> s.sawDone && Quiet(s))
    && (s.outputClosed <==> s.closer == Finished)
    && !s.panicked
  }

  lemma InitialInv<T>()
    ensures Inv(Initial<T>())
  {
  }

  predicate IsClosing<T>(s: State<T>) {
    s.closer == AtClose || s.closer == Finished
  }

  /** A step of one call keeps the invariant if it fits the call and disturbs nothing the others rely on. */
  lemma CallUpdateKeepsInv<T>(s: State<T>, k: nat, c': Call<T>, counter': int, x: Option<T>)
    requires Inv(s) && k < |s.calls|
    requires counter' == s.counter - LiveWeight(s.calls[k]) + LiveWeight(c')
    requires ActiveWeight(c') <= ActiveWeight(s.calls[k]) || Active(s) < MAX_INT32
    requires s.done && c'.phase.Checked? ==> IsExhausted(c')
    requires IsClosing(s) && IsLive(c') ==> IsExhausted(c') && !c'.phase.Holding?
    requires CallOk(c', Project(s.output, k) + if x.Some? then [x.value] else [])
    ensures Inv(SetCall(s, k, c').(counter := counter', output := s.output + if x.Some? then [(k, x.value)] else []))
  {
    var s' := SetCall(s, k, c').(counter := counter', output := s.output + if x.Some? then [(k, x.value)] else []);
    ControlStays(s, s', k, c');
    OthersStayOk(s, s', k, c', x);
  }

  lemma ControlStays<T>(s: State<T>, s': State<T>, k: nat, c': Call<T>)
    requires Controlled(s) && k < |s.calls|
    requires s' == s.(calls := s.calls[k := c'], counter := s'.counter, output := s'.output)
    requires s'.counter == s.counter - LiveWeight(s.calls[k]) + LiveWeight(c')
    requires ActiveWeight(c') <= ActiveWeight(s.calls[k]) || Active(s) < MAX_INT32
    requires s.done && c'.phase.Checked? ==> IsExhausted(c')
    requires IsClosing(s) && IsLive(c') ==> IsExhausted(c') && !c'.phase.Holding?
    ensures Controlled(s')
  {
    TotalUpdate(s.calls, LiveWeight, k, c');
    TotalUpdate(s.calls, ActiveWeight, k, c');
  }

  lemma OthersStayOk<T>(s: State<T>, s': State<T>, k: nat, c': Call<T>, x: Option<T>)
    requires Delivered(s) && k < |s.calls|
    requires s'.calls == s.calls[k := c'] && s'.output == s.output + if x.Some? then [(k, x.value)] else []
    requires CallOk(c', Project(s.output, k) + if x.Some? then [x.value] else [])
    ensures Delivered(s')
  {
    assert x == None ==> s'.output == s.output;
    forall j | 0 <= j < |s.calls| ensures CallOk(s'.calls[j], Project(s'.output, j)) {
      if x.Some? { ProjectAppend(s.output, k, x.value, j); }
      assert Project(s.output, j) + [] == Project(s.output, j);
    }
  }

  /** The senders of the input channels. */
  lemma ChannelStepKeepsInv<T>(s: State<T>, a: Action<T>, s': State<T>)
    requires Inv(s) && (a.Produce? || a.CloseInput?)
    requires a.k < |s.calls| && CallStep(s, a) == Some(s')
    ensures Inv(s')
  {
    if a.Produce? { ProduceKeepsInv(s, a.k, a.x, s'); } else { CloseKeepsInv(s, a.k, s'); }
  }

  lemma ProduceKeepsInv<T>(s: State<T>, k: nat, x: T, s': State<T>)
    requires Inv(s) && k < |s.calls| && CallStep(s, Produce(k, x)) == Some(s')
    ensures Inv(s')
  {
    var c := s.calls[k];
    Unchanged(s, k);
    assert (c.sent + [x])[..c.taken] == c.sent[..c.taken];
    CallUpdateKeepsInv(s, k, c.(sent := c.sent + [x]), s.counter, None);
  }

  lemma CloseKeepsInv<T>(s: State<T>, k: nat, s': State<T>)
    requires Inv(s) && k < |s.calls| && CallStep(s, CloseInput(k)) == Some(s')
    ensures Inv(s')
  {
    Unchanged(s, k);
    CallUpdateKeepsInv(s, k, s.calls[k].(closed := true), s.counter, None);
  }

  lemma Unchanged<T>(s: State<T>, k: nat)
    requires Inv(s) && k < |s.calls|
    ensures s.output + [] == s.output && Project(s.output, k) + [] == Project(s.output, k)
    ensures CallOk(s.calls[k], Project(s.output, k))
  {
  }

  /** AddChannel. */
  lemma AddStepKeepsInv<T>(s: State<T>, a: Action<T>, s': State<T>)
    requires Inv(s) && IsSafe(s, a) && (a.Check? || a.Count? || a.Spawn?)
    requires a.k < |s.calls| && CallStep(s, a) == Some(s')
    ensures Inv(s')
  {
    var c := s.calls[a.k];
    Unchanged(s, a.k);
    if a.Check? {
      CallUpdateKeepsInv(s, a.k, c.(phase := if s.done then Refused else Checked), s.counter, None);
    } else if a.Count? {
      CountFits(s, a.k);
      CallUpdateKeepsInv(s, a.k, c.(phase := Counted), s.counter + 1, None);
    } else {
      CallUpdateKeepsInv(s, a.k, c.(phase := Receiving), s.counter, None);
    }
  }

  /** The forwarder taking from its input. */
  lemma InputStepKeepsInv<T>(s: State<T>, a: Action<T>, s': State<T>)
    requires Inv(s) && (a.Receive? || a.EndOfInput?)
    requires a.k < |s.calls| && CallStep(s, a) == Some(s')
    ensures Inv(s')
  {
    var c := s.calls[a.k];
    Unchanged(s, a.k);
    if a.Receive? {
      CallUpdateKeepsInv(s, a.k, c.(phase := Holding(c.sent[c.taken]), taken := c.taken + 1), s.counter, None);
    } else {
      CallUpdateKeepsInv(s, a.k, c.(phase := Leaving), s.counter, None);
    }
  }

  /** The forwarder sending on, or leaving. */
  lemma OutputStepKeepsInv<T>(s: State<T>, a: Action<T>, s': State<T>)
    requires Inv(s) && (a.Send? || a.Leave?)
    requires a.k < |s.calls| && CallStep(s, a) == Some(s')
    ensures Inv(s')
  {
    var c := s.calls[a.k];
    Unchanged(s, a.k);
    if a.Send? {
      assert c.sent[..c.taken - 1] + [c.phase.message] == c.sent[..c.taken];
      CallUpdateKeepsInv(s, a.k, c.(phase := Receiving), s.counter, Some(c.phase.message));
    } else {
      LeaveFits(s, a.k);
      CallUpdateKeepsInv(s, a.k, c.(phase := Gone), s.counter - 1, None);
    }
  }

  /** The increment of a checked call does not overflow. */
  lemma CountFits<T>(s: State<T>, k: nat)
    requires Inv(s) && k < |s.calls| && s.calls[k].phase.Checked?
    ensures WrapInt32(s.counter + 1) == s.counter + 1
  {
    var c := s.calls[k].(phase := Counted);
    TotalUpdate(s.calls, LiveWeight, k, c);
    TotalUpdate(s.calls, ActiveWeight, k, c);
    LiveIsActive(s.calls[k := c]);
  }

  lemma LeaveFits<T>(s: State<T>, k: nat)
    requires Inv(s) && k < |s.calls| && IsLive(s.calls[k])
    ensures WrapInt32(s.counter - 1) == s.counter - 1
  {
    TotalUpdate(s.calls, LiveWeight, k, s.calls[k]);
    LiveIsActive(s.calls);
  }

  lemma BeginKeepsInv<T>(s: State<T>, s': State<T>)
    requires Inv(s) && Next(s, Begin) == Some(s')
    ensures Inv(s')
  {
    assert s'.calls[..|s.calls|] == s.calls;
    assert Live(s') == Live(s) && Active(s') == Active(s);
    ProjectOfOther(s.output, |s.calls|);
    forall j | 0 <= j < |s'.calls| ensures CallOk(s'.calls[j], Project(s'.output, j)) {
      if j < |s.calls| { assert CallOk(s.calls[j], Project(s.output, j)); }
    }
  }

  /** Every harmless step keeps the invariant. */
  lemma StepKeepsInv<T>(s: State<T>, a: Action<T>, s': State<T>)
    requires Inv(s) && IsSafe(s, a) && Next(s, a) == Some(s')
    ensures Inv(s')
  {
    match a
    case Begin => BeginKeepsInv(s, s');
    case CloseDone =>
    case CloserSelect =>
    case CloserTest =>
      if s'.closer == AtClose { NoneLive(s.calls); }
    case CloserClose =>
    case _ =>
      if a.Produce? || a.CloseInput? { ChannelStepKeepsInv(s, a, s'); }
      else if a.Check? || a.Count? || a.Spawn? { AddStepKeepsInv(s, a, s'); }
      else if a.Receive? || a.EndOfInput? { InputStepKeepsInv(s, a, s'); }
      else { OutputStepKeepsInv(s, a, s'); }
  }

  // ----- main results -----

  /** Every action of the run is harmless in the state it is taken in. */
  predicate IsSafeRun<T>(s: State<T>, actions: seq<Action<T>>)
    decreases |actions|
  {
    actions != [] && Next(s, actions[0]).Some? ==>
      IsSafe(s, actions[0]) && IsSafeRun(Next(s, actions[0]).value, actions[1..])
  }

  lemma {:induction false} SafeRunKeepsInv<T>(s: State<T>, actions: seq<Action<T>>)
    requires Inv(s) && IsSafeRun(s, actions) && Run(s, actions).Some?
    ensures Inv(Run(s, actions).value)
    decreases |actions|
  {
    if actions != [] {
      StepKeepsInv(s, actions[0], Next(s, actions[0]).value);
      SafeRunKeepsInv(Next(s, actions[0]).value, actions[1..]);
    }
  }

  /** The calls whose channel was accepted. */
  predicate IsRegistered<T>(c: Call<T>) {
    IsLive(c) || c.phase.Gone?
  }

  /** The output interleaves these sequences, each complete and in its own order, and holds nothing else. */
  ghost predicate IsMerge<T>(output: seq<(nat, T)>, parts: seq<seq<T>>) {
    && (forall k :: 0 <= k < |parts| ==> Project(output, k) == parts[k])
    && (forall i :: 0 <= i < |output| ==> output[i].0 < |parts|)
  }

  /** What each call contributes: everything its channel carried if it was registered, nothing otherwise. */
  function Contribution<T>(c: Call<T>): seq<T> {
    if IsRegistered(c) then c.sent else []
  }

  /**
   * In every state of every harmless run: nothing was sent on the closed output, the counter is the number of live
   * forwarders, and once the output is closed doneCh is closed too, every registered channel is closed and drained,
   * and the output is the merge of all they carried.
   */
  lemma MultiplexerIsCorrect<T>(actions: seq<Action<T>>)
    requires IsSafeRun(Initial<T>(), actions) && Run(Initial<T>(), actions).Some?
    ensures var s := Run(Initial<T>(), actions).value;
            && !s.panicked
            && s.counter == Live(s)
            && (s.outputClosed ==>
                  && s.done
                  && (forall k :: 0 <= k < |s.calls| && IsRegistered(s.calls[k]) ==> IsExhausted(s.calls[k]))
                  && IsMerge(s.output, seq(|s.calls|, k requires 0 <= k < |s.calls| => Contribution(s.calls[k]))))
  {
    InitialInv<T>();
    SafeRunKeepsInv(Initial<T>(), actions);
    var s := Run(Initial<T>(), actions).value;
    if s.outputClosed {
      var parts := seq(|s.calls|, k requires 0 <= k < |s.calls| => Contribution(s.calls[k]));
      forall k | 0 <= k < |s.calls|
        ensures IsRegistered(s.calls[k]) ==> IsExhausted(s.calls[k])
        ensures Project(s.output, k) == parts[k]
      {
        var c := s.calls[k];
        assert CallOk(c, Project(s.output, k));
        assert c.sent[..|c.sent|] == c.sent;
      }
    }
  }

  /** Before the output closes it is already a merge of what the forwarders have sent on. */
  lemma OutputIsPrefixMerge<T>(actions: seq<Action<T>>, k: nat)
    requires IsSafeRun(Initial<T>(), actions) && Run(Initial<T>(), actions).Some?
    requires k < |Run(Initial<T>(), actions).value.calls|
    ensures var s := Run(Initial<T>(), actions).value;
            var c := s.calls[k];
            Project(s.output, k) <= c.sent && c.taken <= |Project(s.output, k)| + if c.phase.Holding? then 1 else 0
  {
    InitialInv<T>();
    SafeRunKeepsInv(Initial<T>(), actions);
    var s := Run(Initial<T>(), actions).value;
    assert CallOk(s.calls[k], Project(s.output, k));
  }

  // ----- the race is exactly the problem -----

  /** doneCh is closed while call `k` is past its check with a channel that may still deliver. */
  ghost predicate IsRacing<T>(s: State<T>, k: nat) {
    && s.done && !s.outputClosed && (s.closer == AtSelect || s.closer == AtTest)
    && s.counter == Live(s) && Active(s) <= MAX_INT32
    && (forall j :: 0 <= j < |s.calls| ==> s.calls[j].taken <= |s.calls[j].sent|)
    && k < |s.calls| && s.calls[k].phase.Checked? && !IsExhausted(s.calls[k])
  }

  lemma RunCons<T>(s: State<T>, a: Action<T>, rest: seq<Action<T>>)
    requires Next(s, a).Some?
    ensures Run(s, [a] + rest) == Run(Next(s, a).value, rest)
  {
    assert ([a] + rest)[1..] == rest;
  }

  lemma {:induction false} RunConcat<T>(s: State<T>, first: seq<Action<T>>, second: seq<Action<T>>)
    requires Run(s, first).Some?
    ensures Run(s, first + second) == Run(Run(s, first).value, second)
    decreases |first|
  {
    if first == [] {
      assert first + second == second;
    } else {
      RunConcat(Next(s, first[0]).value, first[1..], second);
      assert first + second == [first[0]] + (first[1..] + second);
      RunCons(s, first[0], first[1..] + second);
    }
  }

  /** How many more steps a live forwarder can make if its channel is closed now. */
  function Effort<T>(c: Call<T>): nat {
    var rest := (if c.taken <= |c.sent| then 2 * (|c.sent| - c.taken) else 0) + if c.closed then 0 else 1;
    match c.phase
    case Counted => rest + 4
    case Holding(_) => rest + 4
    case Receiving => rest + 3
    case Leaving => 1
    case _ => 0
  }

  /** The next step that brings a live forwarder closer to its end. */
  function DrainAction<T>(c: Call<T>, k: nat): Action<T> {
    match c.phase
    case Counted => Spawn(k)
    case Holding(_) => Send(k)
    case Receiving =>
      if c.taken < |c.sent| then Receive(k) else if c.closed then EndOfInput(k) else CloseInput(k)
    case _ => Leave(k)
  }

  /** What that step makes of the call. */
  function Drained<T>(c: Call<T>): Call<T>
    requires IsLive(c)
  {
    match c.phase
    case Counted => c.(phase := Receiving)
    case Holding(_) => c.(phase := Receiving)
    case Receiving =>
      if c.taken < |c.sent| then c.(phase := Holding(c.sent[c.taken]), taken := c.taken + 1)
      else if c.closed then c.(phase := Leaving) else c.(closed := true)
    case _ => c.(phase := Gone)
  }

  lemma DrainedNext<T>(s: State<T>, j: nat)
    requires j < |s.calls| && IsLive(s.calls[j]) && !s.outputClosed
    requires 0 < s.counter <= MAX_INT32 && s.calls[j].taken <= |s.calls[j].sent|
    ensures var next := Next(s, DrainAction(s.calls[j], j));
            && next.Some?
            && next.value ==
               SetCall(s, j, Drained(s.calls[j])).(output := next.value.output, counter := next.value.counter)
    ensures Next(s, DrainAction(s.calls[j], j)).value.counter ==
            s.counter - LiveWeight(s.calls[j]) + LiveWeight(Drained(s.calls[j]))
  {
  }

  lemma DrainStep<T>(s: State<T>, k: nat, j: nat)
    requires IsRacing(s, k) && j < |s.calls| && IsLive(s.calls[j])
    ensures Next(s, DrainAction(s.calls[j], j)).Some?
    ensures var s' := Next(s, DrainAction(s.calls[j], j)).value;
            IsRacing(s', k) && Total(s'.calls, Effort) < Total(s.calls, Effort)
  {
    var c' := Drained(s.calls[j]);
    TotalUpdate(s.calls, LiveWeight, j, c');
    TotalUpdate(s.calls, ActiveWeight, j, c');
    TotalUpdate(s.calls, Effort, j, c');
    LiveIsActive(s.calls);
    DrainedNext(s, j);
  }

  /** With no live forwarder, the closer goes on to close the output. */
  lemma CloserCloses<T>(s: State<T>) returns (actions: seq<Action<T>>)
    requires s.done && s.counter <= 0 && (s.closer == AtSelect || s.closer == AtTest)
    ensures Run(s, actions) == Some(s.(closer := Finished, outputClosed := true, sawDone := true))
  {
    var ready := s.(closer := AtTest, sawDone := true);
    var last: seq<Action<T>> := [CloserClose];
    var tail := [CloserTest] + last;
    RunCons(ready, CloserTest, last);
    RunCons(ready.(closer := AtClose), CloserClose, []);
    assert last + [] == last;
    if s.closer == AtSelect {
      actions := [CloserSelect] + tail;
      RunCons(s, CloserSelect, tail);
    } else if s.sawDone {
      actions := tail;
      assert s == ready;
    } else {
      actions := [CloserTest] + ([CloserSelect] + tail);
      RunCons(s, CloserTest, [CloserSelect] + tail);
      RunCons(s.(closer := AtSelect), CloserSelect, tail);
    }
  }

  /** A checked call that still has, or can get, a message sends it on the closed output. */
  lemma LateForwarderPanics<T>(s: State<T>, k: nat, x: T) returns (actions: seq<Action<T>>)
    requires s.outputClosed && k < |s.calls| && s.calls[k].phase.Checked?
    requires s.calls[k].taken <= |s.calls[k].sent| && !IsExhausted(s.calls[k])
    ensures Run(s, actions).Some? && Run(s, actions).value.panicked
    decreases s.calls[k].taken == |s.calls[k].sent|
  {
    var c := s.calls[k];
    if c.taken == |c.sent| {
      var s' := SetCall(s, k, c.(sent := c.sent + [x]));
      var rest := LateForwarderPanics(s', k, x);
      actions := [Produce(k, x)] + rest;
      RunCons(s, Produce(k, x), rest);
    } else {
      var s1 := Next(s, Count(k)).value;
      var s2 := Next(s1, Spawn(k)).value;
      var s3 := Next(s2, Receive(k)).value;
      actions := [Count(k)] + ([Spawn(k)] + ([Receive(k)] + ([Send(k)] + [])));
      RunCons(s3, Send(k), []);
      RunCons(s2, Receive(k), [Send(k)] + []);
      RunCons(s1, Spawn(k), [Receive(k)] + ([Send(k)] + []));
      RunCons(s, Count(k), [Spawn(k)] + ([Receive(k)] + ([Send(k)] + [])));
    }
  }

  /** From a racing state the scheduler can always reach a send on the closed output. */
  lemma {:induction false} RacingCanPanic<T>(s: State<T>, k: nat, x: T) returns (actions: seq<Action<T>>)
    requires IsRacing(s, k)
    ensures Run(s, actions).Some? && Run(s, actions).value.panicked
    decreases Total(s.calls, Effort)
  {
    if j :| 0 <= j < |s.calls| && IsLive(s.calls[j]) {
      DrainStep(s, k, j);
      var a := DrainAction(s.calls[j], j);
      var rest := RacingCanPanic(Next(s, a).value, k, x);
      actions := [a] + rest;
      RunCons(s, a, rest);
    } else {
      NobodyLive(s.calls);
      var closing := CloserCloses(s);
      var late := LateForwarderPanics(Run(s, closing).value, k, x);
      actions := closing + late;
      RunConcat(s, closing, late);
    }
  }

  lemma {:induction false} NobodyLive<T>(calls: seq<Call<T>>)
    requires forall j :: 0 <= j < |calls| ==> !IsLive(calls[j])
    ensures Total(calls, LiveWeight) == 0
  {
    if calls != [] { NobodyLive(calls[..|calls| - 1]); }
  }

  /** Once doneCh is closed every continuation is harmless in the sense of IsSafe. */
  lemma {:induction false} DoneIsSafe<T>(s: State<T>, actions: seq<Action<T>>)
    requires s.done
    ensures IsSafeRun(s, actions)
    decreases |actions|
  {
    if actions != [] && Next(s, actions[0]).Some? {
      DoneIsSafe(Next(s, actions[0]).value, actions[1..]);
    }
  }

  ghost predicate CanPanic<T(!new)>(s: State<T>) {
    exists actions :: Run(s, actions).Some? && Run(s, actions).value.panicked
  }

  /**
   * The hypothesis on runs is exact: closing doneCh after a harmless run makes a send on the closed output possible
   * if and only if some call is between its check and its increment with a channel that may still deliver.
   */
  lemma RaceIsExact<T(!new)>(actions: seq<Action<T>>, x: T)
    requires IsSafeRun(Initial<T>(), actions) && Run(Initial<T>(), actions).Some?
    requires !Run(Initial<T>(), actions).value.done
    ensures var s := Run(Initial<T>(), actions).value; CanPanic(Next(s, CloseDone).value) <==> !NoRace(s)
  {
    InitialInv<T>();
    SafeRunKeepsInv(Initial<T>(), actions);
    var s := Run(Initial<T>(), actions).value;
    var t := Next(s, CloseDone).value;
    if NoRace(s) {
      StepKeepsInv(s, CloseDone, t);
      forall continuation | Run(t, continuation).Some? ensures !Run(t, continuation).value.panicked {
        DoneIsSafe(t, continuation);
        SafeRunKeepsInv(t, continuation);
      }
    } else {
      var k :| 0 <= k < |s.calls| && s.calls[k].phase.Checked? && !IsExhausted(s.calls[k]);
      forall j | 0 <= j < |t.calls| ensures t.calls[j].taken <= |t.calls[j].sent| {
        assert CallOk(s.calls[j], Project(s.output, j));
      }
      var continuation := RacingCanPanic(t, k, x);
    }
  }
}
