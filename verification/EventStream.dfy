/**
 The async iterator of SimplePubSub.subscribe (api/src/pubsub.ts): a listener that hands each payload to the waiting
 next() or queues it, and an iterator whose calls may overlap. Every next() returns a promise, known here by the number
 of next() calls before it.
 */
module EventStream {
  import opened Wrappers

  datatype Promise<T> = Pending | Delivered(payload: T) | Finished

  datatype State<T> = State(queue: seq<T>, pendingResolve: Option<nat>, closed: bool, promises: seq<Promise<T>>)

  datatype Action<T> = Publish(payload: T) | Next | Return | Throw

  // The promise whose resolver is kept is unsettled and nothing is queued; until closing it is also the latest one.
  ghost predicate Valid<T>(s: State<T>) {
    s.pendingResolve.Some? ==>
      && s.pendingResolve.value < |s.promises|
      && s.promises[s.pendingResolve.value].Pending?
      && s.queue == []
      && (!s.closed ==> s.pendingResolve.value == |s.promises| - 1)
  }

  predicate Waiting<T>(s: State<T>) {
    s.pendingResolve.Some? && !s.closed
  }

  ghost function Settle<T>(s: State<T>, result: Promise<T>): State<T>
    requires Valid(s) && s.pendingResolve.Some?
  {
    s.(pendingResolve := None, promises := s.promises[s.pendingResolve.value := result])
  }

  // What one call does to the subscription. Once closed, the listener is off.
  ghost function Step<T>(s: State<T>, a: Action<T>): State<T>
    requires Valid(s)
  {
    match a
    case Publish(payload) =>
      if s.closed then s
      else if s.pendingResolve.Some? then Settle(s, Delivered(payload))
      else s.(queue := s.queue + [payload])
    case Next =>
      if s.closed then s.(promises := s.promises + [Finished])
      else if s.queue != [] then s.(queue := s.queue[1..], promises := s.promises + [Delivered(s.queue[0])])
      else s.(pendingResolve := Some(|s.promises|), promises := s.promises + [Pending])
    case Return =>
      var closed := s.(closed := true);
      if s.pendingResolve.Some? then Settle(closed, Finished) else closed
    case Throw => s.(closed := true)
  }

  lemma StepKeepsValid<T>(s: State<T>, a: Action<T>)
    requires Valid(s)
    ensures Valid(Step(s, a))
  {
  }

  ghost function Run<T>(s: State<T>, actions: seq<Action<T>>): (r: State<T>)
    requires Valid(s)
    ensures Valid(r)
    decreases |actions|
  {
    if actions == [] then s
    else
      StepKeepsValid(s, actions[0]);
      Run(Step(s, actions[0]), actions[1..])
  }

  function Opened<T>(): State<T> {
    State([], None, false, [])
  }

  // The payloads delivered, in the order of the calls that received them.
  function Payloads<T>(promises: seq<Promise<T>>): seq<T> {
    if promises == [] then []
    else
      var last := promises[|promises| - 1];
      Payloads(promises[..|promises| - 1]) + if last.Delivered? then [last.payload] else []
  }

  // What was published before the iterator was closed.
  function Published<T>(actions: seq<Action<T>>): seq<T> {
    if actions == [] || actions[0].Return? || actions[0].Throw? then []
    else (if actions[0].Publish? then [actions[0].payload] else []) + Published(actions[1..])
  }

  lemma PayloadsAppend<T>(promises: seq<Promise<T>>, p: Promise<T>)
    ensures Payloads(promises + [p]) == Payloads(promises) + if p.Delivered? then [p.payload] else []
  {
    assert (promises + [p])[..|promises|] == promises;
  }

  // Settling the latest promise appends its payload.
  lemma SettleLatest<T>(promises: seq<Promise<T>>, result: Promise<T>)
    requires |promises| > 0 && promises[|promises| - 1].Pending?
    ensures Payloads(promises[|promises| - 1 := result])
            == Payloads(promises) + if result.Delivered? then [result.payload] else []
  {
    var before := promises[..|promises| - 1];
    assert promises == before + [Pending] && promises[|promises| - 1 := result] == before + [result];
    PayloadsAppend(before, Pending);
    PayloadsAppend(before, result);
  }

  // Finishing any promise delivers nothing.
  lemma {:induction false} FinishAny<T>(promises: seq<Promise<T>>, i: nat)
    requires i < |promises| && promises[i].Pending?
    ensures Payloads(promises[i := Finished]) == Payloads(promises)
    decreases |promises|
  {
    var k := |promises| - 1;
    if i == k {
      SettleLatest(promises, Finished);
    } else {
      FinishAny(promises[..k], i);
      assert promises[i := Finished][..k] == promises[..k][i := Finished];
    }
  }

  // Delivered and queued payloads together grow by exactly what is published while open.
  lemma StepConserves<T>(s: State<T>, a: Action<T>)
    requires Valid(s)
    ensures Payloads(Step(s, a).promises) + Step(s, a).queue
         == Payloads(s.promises) + s.queue + if a.Publish? && !s.closed then [a.payload] else []
    ensures s.closed ==> Payloads(Step(s, a).promises) == Payloads(s.promises)
  {
    var t := Step(s, a);
    if a.Next? {
      PayloadsAppend(s.promises, t.promises[|s.promises|]);
    } else if a.Publish? && Waiting(s) {
      SettleLatest(s.promises, Delivered(a.payload));
    } else if a.Return? && s.pendingResolve.Some? {
      FinishAny(s.promises, s.pendingResolve.value);
    }
  }

  lemma Regroup<T>(a: seq<T>, b: seq<T>, c: seq<T>)
    ensures a + b + c == a + (b + c)
  {
  }

  // Main result: however calls overlap, the payloads published before closing are those delivered, in order, followed
  // by the queue; no payload is lost, repeated or reordered.
  lemma {:induction false} NothingLost<T>(s: State<T>, actions: seq<Action<T>>)
    requires Valid(s)
    ensures var t := Run(s, actions);
            Payloads(t.promises) + t.queue
            == Payloads(s.promises) + s.queue + if s.closed then [] else Published(actions)
    decreases |actions|
  {
    if actions != [] {
      var next := Step(s, actions[0]);
      StepKeepsValid(s, actions[0]);
      StepConserves(s, actions[0]);
      NothingLost(next, actions[1..]);
      var now := if actions[0].Publish? && !s.closed then [actions[0].payload] else [];
      var later := if next.closed then [] else Published(actions[1..]);
      Regroup(Payloads(s.promises) + s.queue, now, later);
      assert now + later == if s.closed then [] else Published(actions);
    }
  }

  // A waiting consumer never leaves a payload in the queue, and is the only one the next payload can go to.
  lemma WaitingMeansEmpty<T>(actions: seq<Action<T>>, payload: T)
    ensures var s := Run(Opened(), actions);
            Waiting(s) ==>
              s.queue == [] && Step(s, Publish(payload)).promises == s.promises[|s.promises| - 1 := Delivered(payload)]
  {
  }

  // Nothing is delivered after the iterator is closed: what is queued then stays queued, and every later next() is
  // finished.
  lemma {:induction false} NothingAfterClose<T>(s: State<T>, actions: seq<Action<T>>)
    requires Valid(s) && s.closed
    ensures var t := Run(s, actions);
            && t.closed && t.queue == s.queue
            && Payloads(t.promises) == Payloads(s.promises)
            && |s.promises| <= |t.promises|
            && forall i :: |s.promises| <= i < |t.promises| ==> t.promises[i].Finished?
    decreases |actions|
  {
    if actions != [] {
      var next := Step(s, actions[0]);
      StepKeepsValid(s, actions[0]);
      StepConserves(s, actions[0]);
      NothingAfterClose(next, actions[1..]);
      if actions[0].Next? {
        SettledStays(next, |s.promises|, actions[1..]);
      }
    }
  }

  // A promise that no kept resolver belongs to can never settle.
  ghost predicate Stranded<T>(s: State<T>, i: nat) {
    i < |s.promises| && s.promises[i].Pending? && s.pendingResolve != Some(i)
  }

  function CountPending<T>(promises: seq<Promise<T>>): nat {
    if promises == [] then 0
    else CountPending(promises[..|promises| - 1]) + if promises[|promises| - 1].Pending? then 1 else 0
  }

  lemma CountAppend<T>(promises: seq<Promise<T>>, p: Promise<T>)
    ensures CountPending(promises + [p]) == CountPending(promises) + if p.Pending? then 1 else 0
  {
    assert (promises + [p])[..|promises|] == promises;
  }

  // How many promises are stranded: those unsettled but the one whose resolver is kept.
  ghost function StrandedCount<T>(s: State<T>): int
    requires Valid(s)
  {
    CountPending(s.promises) - if s.pendingResolve.Some? then 1 else 0
  }

  lemma {:induction false} CountZero<T>(promises: seq<Promise<T>>)
    ensures CountPending(promises) == 0 <==> forall i :: 0 <= i < |promises| ==> !promises[i].Pending?
    decreases |promises|
  {
    if promises != [] {
      var init := promises[..|promises| - 1];
      CountZero(init);
      assert forall i :: 0 <= i < |init| ==> init[i] == promises[i];
    }
  }

  lemma {:induction false} CountSettled<T>(promises: seq<Promise<T>>, i: nat, result: Promise<T>)
    requires i < |promises| && promises[i].Pending? && !result.Pending?
    ensures CountPending(promises[i := result]) == CountPending(promises) - 1
    decreases |promises|
  {
    var k := |promises| - 1;
    if i == k {
      assert promises[i := result][..k] == promises[..k];
    } else {
      CountSettled(promises[..k], i, result);
      assert promises[i := result][..k] == promises[..k][i := result];
    }
  }

  // The count is zero exactly when no promise is stranded.
  lemma NoneStranded<T>(s: State<T>)
    requires Valid(s)
    ensures StrandedCount(s) == 0 <==> forall i :: !Stranded(s, i)
  {
    var others := s.promises;
    if s.pendingResolve.Some? {
      others := s.promises[s.pendingResolve.value := Finished];
      CountSettled(s.promises, s.pendingResolve.value, Finished);
    }
    CountZero(others);
    assert forall i :: 0 <= i < |others| ==> (others[i].Pending? <==> Stranded(s, i));
  }

  // The calls of next() made while an earlier one is still waiting.
  ghost function Overtakes<T>(s: State<T>, actions: seq<Action<T>>): nat
    requires Valid(s)
    decreases |actions|
  {
    if actions == [] then 0
    else
      StepKeepsValid(s, actions[0]);
      (if actions[0].Next? && Waiting(s) then 1 else 0) + Overtakes(Step(s, actions[0]), actions[1..])
  }

  lemma StepStrands<T>(s: State<T>, a: Action<T>)
    requires Valid(s)
    ensures Valid(Step(s, a))
    ensures StrandedCount(Step(s, a)) == StrandedCount(s) + if a.Next? && Waiting(s) then 1 else 0
  {
    if a.Next? {
      CountAppend(s.promises, Step(s, a).promises[|s.promises|]);
    } else if s.pendingResolve.Some? && Step(s, a).pendingResolve.None? {
      CountSettled(s.promises, s.pendingResolve.value, if a.Publish? then Delivered(a.payload) else Finished);
    }
  }

  // Main result: a run strands exactly one promise for each next() made while another was waiting, so none for a
  // consumer that awaits each next() before the following one.
  lemma {:induction false} StrandedPerOvertake<T>(s: State<T>, actions: seq<Action<T>>)
    requires Valid(s)
    ensures StrandedCount(Run(s, actions)) == StrandedCount(s) + Overtakes(s, actions)
    decreases |actions|
  {
    if actions != [] {
      StepStrands(s, actions[0]);
      StrandedPerOvertake(Step(s, actions[0]), actions[1..]);
    }
  }

  // A stranded promise stays unsettled whatever happens next.
  lemma {:induction false} StrandedForever<T>(s: State<T>, i: nat, actions: seq<Action<T>>)
    requires Valid(s) && Stranded(s, i)
    ensures Stranded(Run(s, actions), i)
    decreases |actions|
  {
    if actions != [] {
      StepKeepsValid(s, actions[0]);
      StrandedForever(Step(s, actions[0]), i, actions[1..]);
    }
  }

  // What becomes of a waiting call: until closing, the next payload settles it, return() finishes it, and another
  // next() strands it; after throw() only return() still settles it.
  function Verdict<T>(closed: bool, actions: seq<Action<T>>): Promise<T>
    decreases |actions|
  {
    if actions == [] then Pending
    else
      match actions[0]
      case Publish(payload) => if closed then Verdict(closed, actions[1..]) else Delivered(payload)
      case Next => if closed then Verdict(closed, actions[1..]) else Pending
      case Return => Finished
      case Throw => Verdict(true, actions[1..])
  }

  // Main result: the calls that follow decide how a waiting call settles, whenever they come.
  lemma {:induction false} WaitingSettles<T>(s: State<T>, actions: seq<Action<T>>)
    requires Valid(s) && s.pendingResolve.Some?
    ensures s.pendingResolve.value < |Run(s, actions).promises|
    ensures Run(s, actions).promises[s.pendingResolve.value] == Verdict(s.closed, actions)
    decreases |actions|
  {
    if actions != [] {
      var i, t, rest := s.pendingResolve.value, Step(s, actions[0]), actions[1..];
      StepKeepsValid(s, actions[0]);
      if t.pendingResolve == Some(i) {
        WaitingSettles(t, rest);
      } else if t.promises[i].Pending? {
        StrandedForever(t, i, rest);
      } else {
        SettledStays(t, i, rest);
      }
    }
  }

  // A next() waiting when throw() is called settles if and only if return() follows, and never with a payload.
  lemma {:induction false} WaitingAtThrow<T>(s: State<T>, actions: seq<Action<T>>)
    requires Valid(s) && s.closed && s.pendingResolve.Some?
    ensures var p := Run(s, actions).promises;
            var i := s.pendingResolve.value;
            i < |p| && p[i] == if Return in actions then Finished else Pending
    decreases |actions|
  {
    if actions != [] {
      var a, rest := actions[0], actions[1..];
      StepKeepsValid(s, a);
      assert Return in actions <==> a.Return? || Return in rest;
      if a.Return? {
        SettledStays(Step(s, a), s.pendingResolve.value, rest);
      } else {
        WaitingAtThrow(Step(s, a), rest);
      }
    }
  }

  // A settled promise keeps its result.
  lemma {:induction false} SettledStays<T>(s: State<T>, i: nat, actions: seq<Action<T>>)
    requires Valid(s) && i < |s.promises| && !s.promises[i].Pending?
    ensures |s.promises| <= |Run(s, actions).promises|
    ensures Run(s, actions).promises[i] == s.promises[i]
    decreases |actions|
  {
    if actions != [] {
      StepKeepsValid(s, actions[0]);
      SettledStays(Step(s, actions[0]), i, actions[1..]);
    }
  }

  // The closure variables of one subscribe() call, and whether the emitter still holds its listener.
  class Subscription<T> {
    var queue: seq<T>
    var pendingResolve: Option<nat>
    var closed: bool
    var attached: bool
    var promises: seq<Promise<T>>

    ghost function Value(): State<T>
      reads this
    {
      State(queue, pendingResolve, closed, promises)
    }

    ghost predicate Inv()
      reads this
    {
      Valid(Value()) && attached == !closed
    }

    constructor ()
      ensures Inv() && Value() == Opened()
    {
      queue, pendingResolve, closed, attached, promises := [], None, false, true, [];
    }

    // emitter.emit: runs the listener while it is attached.
    method Emit(payload: T)
      requires Inv()
      modifies this
      ensures Inv() && Value() == Step(old(Value()), Publish(payload))
    {
      if attached {
        if pendingResolve.Some? {
          promises := promises[pendingResolve.value := Delivered(payload)];
          pendingResolve := None;
        } else {
          queue := queue + [payload];
        }
      }
    }

    method Next() returns (promise: nat)
      requires Inv()
      modifies this
      ensures Inv() && Value() == Step(old(Value()), Action.Next)
      ensures promise == old(|promises|) == |promises| - 1
    {
      promise := |promises|;
      if closed {
        promises := promises + [Finished];
      } else if |queue| > 0 {
        promises := promises + [Delivered(queue[0])];
        queue := queue[1..];
      } else {
        promises := promises + [Pending];
        pendingResolve := Some(promise);
      }
    }

    method Return()
      requires Inv()
      modifies this
      ensures Inv() && Value() == Step(old(Value()), Action.Return)
    {
      closed, attached := true, false;
      if pendingResolve.Some? {
        promises := promises[pendingResolve.value := Finished];
        pendingResolve := None;
      }
    }

    method Throw()
      requires Inv()
      modifies this
      ensures Inv() && Value() == Step(old(Value()), Action.Throw)
    {
      closed, attached := true, false;
    }
  }
}
