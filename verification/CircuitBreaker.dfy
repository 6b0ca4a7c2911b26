/**
 The circuit breaker of packages/api/src/services/circuit-breaker.ts. Wrapped calls are asynchronous: other calls
 start and settle between the start of a call (Begin) and its outcome (OnSuccess or OnFailure).
 */
module CircuitBreaker {
  import opened Wrappers

  datatype CircuitState = CLOSED | OPEN | HALF_OPEN

  datatype Options = Options(failureThreshold: int, cooldownMs: int, successThreshold: int)

  // The fields of the breaker.
  datatype Breaker = Breaker(state: CircuitState, failureCount: nat, successCount: nat, lastFailureTime: Option<int>)

  const INITIAL := Breaker(CLOSED, 0, 0, None)

  // transitionIfNeeded
  function Refreshed(o: Options, b: Breaker, now: int): Breaker {
    if b.state.OPEN? && b.lastFailureTime.Some? && now - b.lastFailureTime.value >= o.cooldownMs
    then b.(state := HALF_OPEN, successCount := 0) else b
  }

  // onSuccess
  function Succeeded(o: Options, b: Breaker): Breaker {
    if b.state.HALF_OPEN? then
      if b.successCount + 1 >= o.successThreshold then INITIAL
      else b.(successCount := b.successCount + 1)
    else b.(failureCount := 0)
  }

  // onFailure
  function Failed(o: Options, b: Breaker, now: int): Breaker {
    var c := b.(failureCount := b.failureCount + 1, lastFailureTime := Some(now));
    if b.state.HALF_OPEN? then c.(state := OPEN, successCount := 0)
    else if c.failureCount >= o.failureThreshold then c.(state := OPEN)
    else c
  }

  class CircuitBreaker {
    var state: CircuitState
    var failureCount: nat
    var successCount: nat
    var lastFailureTime: Option<int>
    const options: Options

    constructor (options: Options)
      ensures Contents() == INITIAL && this.options == options
    {
      state, failureCount, successCount, lastFailureTime := CLOSED, 0, 0, None;
      this.options := options;
    }

    function Contents(): Breaker
      reads this
    {
      Breaker(state, failureCount, successCount, lastFailureTime)
    }

    method TransitionIfNeeded(now: int)
      modifies this
      ensures Contents() == Refreshed(options, old(Contents()), now)
    {
      if state.OPEN? && lastFailureTime.Some? && now - lastFailureTime.value >= options.cooldownMs {
        state := HALF_OPEN;
        successCount := 0;
      }
    }

    // execute, up to the call of fn: false is CircuitOpenError.
    method Begin(now: int) returns (admitted: bool)
      modifies this
      ensures Contents() == Refreshed(options, old(Contents()), now)
      ensures admitted <==> !Contents().state.OPEN?
    {
      TransitionIfNeeded(now);
      admitted := state != OPEN;
    }

    method OnSuccess()
      modifies this
      ensures Contents() == Succeeded(options, old(Contents()))
    {
      if state.HALF_OPEN? {
        successCount := successCount + 1;
        if successCount >= options.successThreshold {
          state, failureCount, successCount, lastFailureTime := CLOSED, 0, 0, None;
        }
      } else {
        failureCount := 0;
      }
    }

    method OnFailure(now: int)
      modifies this
      ensures Contents() == Failed(options, old(Contents()), now)
    {
      failureCount := failureCount + 1;
      lastFailureTime := Some(now);
      if state.HALF_OPEN? {
        state := OPEN;
        successCount := 0;
        return;
      }
      if failureCount >= options.failureThreshold {
        state := OPEN;
      }
    }

    method Reset()
      modifies this
      ensures Contents() == INITIAL
    {
      state, failureCount, successCount, lastFailureTime := CLOSED, 0, 0, None;
    }

    method GetState(now: int) returns (s: CircuitState)
      modifies this
      ensures Contents() == Refreshed(options, old(Contents()), now) && s == Contents().state
    {
      TransitionIfNeeded(now);
      s := state;
    }
  }

  // ----- All interleavings of overlapping calls -----

  // Begun: execute was called and admitted or rejected. A call in flight settles as Success or Failure.
  datatype Event = Begun(time: int) | Success(time: int) | Failure(time: int) | WasReset(time: int) | Queried(time: int)

  // `inFlight`: calls that were admitted and have not settled.
  datatype World = World(breaker: Breaker, inFlight: nat)

  function Step(o: Options, w: World, e: Event): Option<World> {
    match e
    case Begun(now) =>
      var b := Refreshed(o, w.breaker, now);
      Some(World(b, if b.state.OPEN? then w.inFlight else w.inFlight + 1))
    case Success(_) => if w.inFlight == 0 then None else Some(World(Succeeded(o, w.breaker), w.inFlight - 1))
    case Failure(now) => if w.inFlight == 0 then None else Some(World(Failed(o, w.breaker, now), w.inFlight - 1))
    case WasReset(_) => Some(w.(breaker := INITIAL))
    case Queried(now) => Some(w.(breaker := Refreshed(o, w.breaker, now)))
  }

  // The world after a history; None if a call settles that was not in flight.
  function After(o: Options, history: seq<Event>): Option<World> {
    if history == [] then Some(World(INITIAL, 0))
    else match After(o, history[..|history| - 1])
      case None => None
      case Some(w) => Step(o, w, history[|history| - 1])
  }

  ghost predicate Chronological(history: seq<Event>) {
    forall i, j :: 0 <= i < j < |history| ==> history[i].time <= history[j].time
  }

  // Failures settled since the last success or reset.
  function FailureStreak(history: seq<Event>): nat {
    if history == [] then 0
    else
      var before := FailureStreak(history[..|history| - 1]);
      match history[|history| - 1]
      case Failure(_) => before + 1
      case Success(_) => 0
      case WasReset(_) => 0
      case _ => before
  }

  // The time of the last failure settled since the last reset.
  function LastFailure(history: seq<Event>): Option<int> {
    if history == [] then None
    else
      match history[|history| - 1]
      case Failure(now) => Some(now)
      case WasReset(_) => None
      case _ => LastFailure(history[..|history| - 1])
  }

  predicate CooledDown(o: Options, history: seq<Event>, now: int) {
    LastFailure(history).Some? && now - LastFailure(history).value >= o.cooldownMs
  }

  predicate HalfOpenAfter(o: Options, history: seq<Event>) {
    After(o, history).Some? && After(o, history).value.breaker.state.HALF_OPEN?
  }

  // Successes settled since the circuit last became half-open.
  function ProbeSuccesses(o: Options, history: seq<Event>): nat {
    if history == [] || !HalfOpenAfter(o, history) then 0
    else
      var before := history[..|history| - 1];
      if !HalfOpenAfter(o, before) then 0
      else ProbeSuccesses(o, before) + if history[|history| - 1].Success? then 1 else 0
  }

  function Successes(history: seq<Event>): nat {
    if history == [] then 0
    else Successes(history[..|history| - 1]) + if history[|history| - 1].Success? then 1 else 0
  }

  // The same by position: if the event before position k made the circuit half-open, and it has been so since, then
  // all successes from k on are counted.
  lemma {:induction false} ProbeSuccessesSince(o: Options, history: seq<Event>, k: nat)
    requires 0 < k <= |history| && !HalfOpenAfter(o, history[..k - 1])
    requires forall j :: k <= j <= |history| ==> HalfOpenAfter(o, history[..j])
    ensures ProbeSuccesses(o, history) == Successes(history[k..])
    decreases |history|
  {
    var before := history[..|history| - 1];
    assert history[..|history|] == history;
    if k == |history| {
      assert history[k..] == [];
    } else {
      assert forall j :: 0 <= j <= |before| ==> before[..j] == history[..j];
      ProbeSuccessesSince(o, before, k);
      assert history[k..][..|history[k..]| - 1] == before[k..];
    }
  }

  ghost predicate Inv(o: Options, history: seq<Event>, b: Breaker) {
    && (b.state.CLOSED? ==> b.failureCount < Max(1, o.failureThreshold) && b.failureCount == FailureStreak(history))
    && (b.state.HALF_OPEN? ==>
          b.successCount < Max(1, o.successThreshold) && b.successCount == ProbeSuccesses(o, history))
    && (b.state.OPEN? ==> b.lastFailureTime.Some?)
    && (!b.state.CLOSED? ==> b.lastFailureTime == LastFailure(history))
    && (b.state.HALF_OPEN? ==>
          history != [] && b.lastFailureTime.Some?
            && history[|history| - 1].time - b.lastFailureTime.value >= o.cooldownMs)
  }

  // Main result: over all interleavings of overlapping calls, resets and queries, CLOSED keeps the failure count below
  // the threshold and equal to the failures since the last success or reset; HALF_OPEN keeps the success count
  // below its threshold and equal to the successes since the circuit became half-open; OPEN and HALF_OPEN
  // remember the last failure, and in HALF_OPEN the cooldown since it is over.
  lemma {:induction false} HistoryKeepsInv(o: Options, history: seq<Event>)
    requires Chronological(history) && After(o, history).Some?
    ensures Inv(o, history, After(o, history).value.breaker)
    decreases |history|
  {
    if history != [] {
      var before := history[..|history| - 1];
      var e := history[|history| - 1];
      HistoryKeepsInv(o, before);
      assert before != [] ==> before[|before| - 1] == history[|history| - 2];
    }
  }

  // A call is admitted from an open circuit, or from a half-open one, only when the cooldown since the last failure
  // has passed.
  lemma AdmissionAfterCooldown(o: Options, history: seq<Event>, now: int)
    requires Chronological(history + [Begun(now)]) && After(o, history).Some?
    requires !After(o, history).value.breaker.state.CLOSED?
    ensures var w := Step(o, After(o, history).value, Begun(now)).value;
            w.inFlight > After(o, history).value.inFlight ==>
              LastFailure(history).Some? && now - LastFailure(history).value >= o.cooldownMs
    ensures var w := Step(o, After(o, history).value, Begun(now)).value;
            w.inFlight == After(o, history).value.inFlight <==>
              After(o, history).value.breaker.state.OPEN? && LastFailure(history).Some?
                && now - LastFailure(history).value < o.cooldownMs
  {
    var full := history + [Begun(now)];
    assert forall i :: 0 <= i < |history| ==> full[i] == history[i];
    HistoryKeepsInv(o, history);
    if history != [] {
      assert full[|history| - 1].time <= full[|history|].time;
    }
  }

  // The circuit opens by failures only: on the one that completes a streak of the threshold, or on any while half-open.
  lemma OpensOnFailure(o: Options, history: seq<Event>, e: Event)
    requires Chronological(history + [e]) && After(o, history).Some? && Step(o, After(o, history).value, e).Some?
    requires !After(o, history).value.breaker.state.OPEN?
    ensures Step(o, After(o, history).value, e).value.breaker.state.OPEN? <==>
              e.Failure? && (After(o, history).value.breaker.state.HALF_OPEN?
                || FailureStreak(history) + 1 >= o.failureThreshold)
  {
    var full := history + [e];
    assert forall i :: 0 <= i < |history| ==> full[i] == history[i];
    HistoryKeepsInv(o, history);
  }

  // Main result: which state follows is a function of the history. A closed circuit opens on the failure that completes
  // a streak; an open one becomes half-open on the first call or query after the cooldown; a half-open one opens on any
  // failure and closes on the success that completes the threshold. A reset closes it from anywhere; nothing else moves
  // it, and whenever it has just closed nothing is counted or remembered.
  lemma NextState(o: Options, history: seq<Event>, e: Event)
    requires Chronological(history) && After(o, history).Some? && Step(o, After(o, history).value, e).Some?
    ensures var was, b := After(o, history).value.breaker.state, Step(o, After(o, history).value, e).value.breaker;
            && b.state == (
                 if e.WasReset? then CLOSED
                 else match was
                   case CLOSED =>
                     if e.Failure? && FailureStreak(history) + 1 >= o.failureThreshold then OPEN else CLOSED
                   case OPEN =>
                     if (e.Begun? || e.Queried?) && CooledDown(o, history, e.time) then HALF_OPEN else OPEN
                   case HALF_OPEN =>
                     if e.Failure? then OPEN
                     else if e.Success? && ProbeSuccesses(o, history) + 1 == Max(1, o.successThreshold) then CLOSED
                     else HALF_OPEN)
            && (b.state.CLOSED? && (!was.CLOSED? || e.WasReset?) ==> b == INITIAL)
  {
    HistoryKeepsInv(o, history);
  }

  // HALF_OPEN does not stop at one probe: any number of calls is admitted while the first is still in flight.
  function Probes(now: int, n: nat): seq<Event> {
    seq(n, _ => Begun(now))
  }

  lemma {:induction false} ManyProbes(o: Options, history: seq<Event>, now: int, n: nat)
    requires After(o, history).Some? && After(o, history).value.breaker.state.HALF_OPEN?
    ensures After(o, history + Probes(now, n)) ==
            Some(World(After(o, history).value.breaker, After(o, history).value.inFlight + n))
    decreases n
  {
    var full := history + Probes(now, n);
    if n == 0 {
      assert full == history;
    } else {
      assert full[..|full| - 1] == history + Probes(now, n - 1);
      ManyProbes(o, history, now, n - 1);
    }
  }
}
