/**
 The bounded worker pool of indexer/src/backfill.ts (runWithConcurrency).

 Workers are asynchronous functions on one thread, so they interleave only at `await`.
 The loop test and `nextIndex++` have no await between them and form one step (Claim);
 awaiting the task and storing its result ends in another (Settle).
 */
module WorkerPool {
  import opened Wrappers

  // A worker is at its loop head, awaiting task `index` (which is in some stage of its own), or gone.
  datatype Worker<S> = Looping | Running(index: nat, stage: S) | Exited

  // `results` has a hole (None) where nothing was written yet.
  datatype Pool<S, T> = Pool(next: nat, results: seq<Option<T>>, workers: seq<Worker<S>>)

  function PoolSize(concurrency: int, taskCount: nat): nat {
    Max(0, Min(concurrency, taskCount))
  }

  function NewPool<S, T>(taskCount: nat, concurrency: int): Pool<S, T> {
    Pool(0, seq(taskCount, _ => None), seq(PoolSize(concurrency, taskCount), _ => Looping))
  }

  predicate AllExited<S, T>(p: Pool<S, T>) {
    forall w :: 0 <= w < |p.workers| ==> p.workers[w].Exited?
  }

  predicate IsLooping<S, T>(p: Pool<S, T>, w: nat) {
    w < |p.workers| && p.workers[w].Looping?
  }

  predicate IsRunning<S, T>(p: Pool<S, T>, w: nat) {
    w < |p.workers| && p.workers[w].Running? && p.workers[w].index < |p.results|
  }

  // A worker at its loop head claims while tasks are left and the pool is not aborted, and leaves otherwise.
  predicate CanClaim<S, T>(p: Pool<S, T>, w: nat, aborted: bool) {
    IsLooping(p, w) && p.next < |p.results| && !aborted
  }

  predicate CanExit<S, T>(p: Pool<S, T>, w: nat, aborted: bool) {
    IsLooping(p, w) && (p.next >= |p.results| || aborted)
  }

  function Claim<S, T>(p: Pool<S, T>, w: nat, stage: S): Pool<S, T>
    requires IsLooping(p, w)
  {
    p.(next := p.next + 1, workers := p.workers[w := Running(p.next, stage)])
  }

  function Advance<S, T>(p: Pool<S, T>, w: nat, stage: S): Pool<S, T>
    requires IsRunning(p, w)
  {
    p.(workers := p.workers[w := Running(p.workers[w].index, stage)])
  }

  function Settle<S, T>(p: Pool<S, T>, w: nat, outcome: T): Pool<S, T>
    requires IsRunning(p, w)
  {
    p.(results := p.results[p.workers[w].index := Some(outcome)], workers := p.workers[w := Looping])
  }

  function Exit<S, T>(p: Pool<S, T>, w: nat): Pool<S, T>
    requires IsLooping(p, w)
  {
    p.(workers := p.workers[w := Exited])
  }

  ghost predicate InFlight<S, T>(p: Pool<S, T>, index: nat) {
    exists w :: 0 <= w < |p.workers| && p.workers[w].Running? && p.workers[w].index == index
  }

  // What every step keeps: claimed tasks are the prefix [0, next); each of them is either awaited by
  // exactly one worker or has a result; a worker leaves only when there is nothing to claim, or on abort.
  ghost predicate PoolInv<S, T>(p: Pool<S, T>, aborted: bool) {
    && p.next <= |p.results|
    && (forall w :: 0 <= w < |p.workers| && p.workers[w].Running? ==> p.workers[w].index < p.next)
    && (forall v, w :: 0 <= v < w < |p.workers| && p.workers[v].Running? && p.workers[w].Running?
          ==> p.workers[v].index != p.workers[w].index)
    && (forall i: nat :: i < |p.results| ==> (p.results[i].Some? <==> i < p.next && !InFlight(p, i)))
    && (forall w :: 0 <= w < |p.workers| && p.workers[w].Exited? ==> p.next == |p.results| || aborted)
  }

  lemma NewPoolInv<S, T>(taskCount: nat, concurrency: int)
    ensures PoolInv(NewPool<S, T>(taskCount, concurrency), false)
    ensures |NewPool<S, T>(taskCount, concurrency).workers| <= Max(0, concurrency)
    ensures concurrency >= 1 && taskCount > 0 ==> |NewPool<S, T>(taskCount, concurrency).workers| > 0
    ensures AllLooping(NewPool<S, T>(taskCount, concurrency))
  {
    var p := NewPool<S, T>(taskCount, concurrency);
    forall i: nat | i < |p.results| ensures !p.results[i].Some? {
    }
  }

  lemma ClaimKeepsInv<S, T>(p: Pool<S, T>, w: nat, stage: S, aborted: bool)
    requires PoolInv(p, aborted) && CanClaim(p, w, aborted)
    ensures PoolInv(Claim(p, w, stage), aborted)
  {
    var q := Claim(p, w, stage);
    assert q.workers[w] == Running(p.next, stage);
    forall i: nat | i < |q.results| ensures q.results[i].Some? <==> i < q.next && !InFlight(q, i) {
      if InFlight(p, i) {
        var v :| 0 <= v < |p.workers| && p.workers[v].Running? && p.workers[v].index == i;
        assert q.workers[v] == p.workers[v];
      }
      if i < p.next && InFlight(q, i) {
        var v :| 0 <= v < |q.workers| && q.workers[v].Running? && q.workers[v].index == i;
        assert v != w && p.workers[v] == q.workers[v];
      }
    }
  }

  lemma AdvanceKeepsInv<S, T>(p: Pool<S, T>, w: nat, stage: S, aborted: bool)
    requires PoolInv(p, aborted) && IsRunning(p, w)
    ensures PoolInv(Advance(p, w, stage), aborted)
  {
    var q := Advance(p, w, stage);
    forall i: nat ensures InFlight(p, i) <==> InFlight(q, i) {
      if InFlight(p, i) {
        var v :| 0 <= v < |p.workers| && p.workers[v].Running? && p.workers[v].index == i;
        assert q.workers[v].Running? && q.workers[v].index == i;
      }
    }
  }

  lemma SettleKeepsInv<S, T>(p: Pool<S, T>, w: nat, outcome: T, aborted: bool)
    requires PoolInv(p, aborted) && IsRunning(p, w)
    ensures PoolInv(Settle(p, w, outcome), aborted)
  {
    var q := Settle(p, w, outcome);
    var index := p.workers[w].index;
    assert InFlight(p, index);
    forall i: nat | i != index ensures InFlight(p, i) <==> InFlight(q, i) {
      if InFlight(p, i) {
        var v :| 0 <= v < |p.workers| && p.workers[v].Running? && p.workers[v].index == i;
        assert v != w && q.workers[v] == p.workers[v];
      }
    }
    assert !InFlight(q, index);
  }

  lemma ExitKeepsInv<S, T>(p: Pool<S, T>, w: nat, aborted: bool)
    requires PoolInv(p, aborted) && CanExit(p, w, aborted)
    ensures PoolInv(Exit(p, w), aborted)
  {
    var q := Exit(p, w);
    forall i: nat ensures InFlight(p, i) <==> InFlight(q, i) {
      if InFlight(p, i) {
        var v :| 0 <= v < |p.workers| && p.workers[v].Running? && p.workers[v].index == i;
        assert v != w && q.workers[v] == p.workers[v];
      }
    }
  }

  // When every worker has left, exactly the claimed prefix is filled; holes need an abort or an empty pool.
  lemma ExitedPool<S, T>(p: Pool<S, T>, aborted: bool)
    requires PoolInv(p, aborted) && AllExited(p)
    ensures forall i: nat :: i < |p.results| ==> (p.results[i].Some? <==> i < p.next)
    ensures !aborted && |p.workers| > 0 ==> p.next == |p.results|
  {
    forall i: nat ensures !InFlight(p, i) {
    }
    if |p.workers| > 0 {
      assert p.workers[0].Exited?;
    }
  }

  // ----- Whole runs: any interleaving of worker steps, with an abort at any point -----

  datatype Event<S> = Claimed(w: nat, stage: S) | Advanced(w: nat, stage: S) | Settled(w: nat) | Left(w: nat) | Aborted

  datatype System<S, T> = System(pool: Pool<S, T>, aborted: bool)

  // tasks(i) is what the promise of task i settles with.
  function Fire<S, T>(tasks: nat -> T, s: System<S, T>, e: Event<S>): Option<System<S, T>> {
    match e
    case Claimed(w, stage) => if CanClaim(s.pool, w, s.aborted) then Some(s.(pool := Claim(s.pool, w, stage))) else None
    case Advanced(w, stage) => if IsRunning(s.pool, w) then Some(s.(pool := Advance(s.pool, w, stage))) else None
    case Settled(w) =>
      if IsRunning(s.pool, w) then Some(s.(pool := Settle(s.pool, w, tasks(s.pool.workers[w].index)))) else None
    case Left(w) => if CanExit(s.pool, w, s.aborted) then Some(s.(pool := Exit(s.pool, w))) else None
    case Aborted => Some(s.(aborted := true))
  }

  function Execute<S, T>(tasks: nat -> T, s: System<S, T>, events: seq<Event<S>>): Option<System<S, T>>
    decreases |events|
  {
    if events == [] then Some(s)
    else match Fire(tasks, s, events[0])
      case None => None
      case Some(s') => Execute(tasks, s', events[1..])
  }

  lemma {:induction false} ExecuteSnoc<S, T>(tasks: nat -> T, s: System<S, T>, events: seq<Event<S>>, e: Event<S>)
    requires Execute(tasks, s, events).Some? && Fire(tasks, Execute(tasks, s, events).value, e).Some?
    ensures Execute(tasks, s, events + [e]) == Fire(tasks, Execute(tasks, s, events).value, e)
    decreases |events|
  {
    if events == [] {
      assert events + [e] == [e] && [e][1..] == [];
      assert Execute(tasks, Fire(tasks, s, e).value, []) == Fire(tasks, s, e);
    } else {
      assert (events + [e])[0] == events[0] && (events + [e])[1..] == events[1..] + [e];
      ExecuteSnoc(tasks, Fire(tasks, s, events[0]).value, events[1..], e);
    }
  }

  ghost predicate SystemInv<S, T>(tasks: nat -> T, s: System<S, T>) {
    && PoolInv(s.pool, s.aborted)
    && (forall i: nat :: i < |s.pool.results| && s.pool.results[i].Some? ==> s.pool.results[i].value == tasks(i))
  }

  // The results once every worker has left.
  lemma ExitedResults<S, T>(tasks: nat -> T, p: Pool<S, T>, aborted: bool)
    requires SystemInv(tasks, System(p, aborted)) && AllExited(p)
    ensures p.next <= |p.results|
    ensures forall i: nat :: i < |p.results| ==> p.results[i] == if i < p.next then Some(tasks(i)) else None
    ensures !aborted && |p.workers| > 0 ==> p.next == |p.results|
  {
    ExitedPool(p, aborted);
  }

  lemma FireKeepsInv<S, T>(tasks: nat -> T, s: System<S, T>, e: Event<S>)
    requires SystemInv(tasks, s) && Fire(tasks, s, e).Some?
    ensures SystemInv(tasks, Fire(tasks, s, e).value)
    ensures |Fire(tasks, s, e).value.pool.results| == |s.pool.results|
    ensures |Fire(tasks, s, e).value.pool.workers| == |s.pool.workers|
  {
    match e
    case Claimed(w, stage) => ClaimKeepsInv(s.pool, w, stage, s.aborted);
    case Advanced(w, stage) => AdvanceKeepsInv(s.pool, w, stage, s.aborted);
    case Settled(w) => SettleKeepsInv(s.pool, w, tasks(s.pool.workers[w].index), s.aborted);
    case Left(w) => ExitKeepsInv(s.pool, w, s.aborted);
    case Aborted =>
  }

  lemma {:induction false} ExecuteKeepsInv<S, T>(tasks: nat -> T, s: System<S, T>, events: seq<Event<S>>)
    requires SystemInv(tasks, s) && Execute(tasks, s, events).Some?
    ensures SystemInv(tasks, Execute(tasks, s, events).value)
    ensures |Execute(tasks, s, events).value.pool.results| == |s.pool.results|
    ensures |Execute(tasks, s, events).value.pool.workers| == |s.pool.workers|
    ensures Aborted !in events ==> Execute(tasks, s, events).value.aborted == s.aborted
    decreases |events|
  {
    if events != [] {
      FireKeepsInv(tasks, s, events[0]);
      ExecuteKeepsInv(tasks, Fire(tasks, s, events[0]).value, events[1..]);
    }
  }

  // Main result: however the workers interleave, the pool ends with exactly the claimed prefix filled, each
  // result coming from its own task; without an abort (and with a positive concurrency) that is every task.
  lemma PoolOutcome<S, T>(tasks: nat -> T, taskCount: nat, concurrency: int, events: seq<Event<S>>)
    requires var r := Execute(tasks, System(NewPool<S, T>(taskCount, concurrency), false), events);
             r.Some? && AllExited(r.value.pool)
    ensures var pool := Execute(tasks, System(NewPool<S, T>(taskCount, concurrency), false), events).value.pool;
            && |pool.results| == taskCount
            && pool.next <= taskCount
            && (forall i: nat :: i < taskCount ==> pool.results[i] == if i < pool.next then Some(tasks(i)) else None)
            && pool.next == ClaimsBeforeSignal(events)
            && (concurrency >= 1 && Aborted !in events ==> pool.next == taskCount)
            && (concurrency <= 0 ==> pool.next == 0)
  {
    var s := System(NewPool<S, T>(taskCount, concurrency), false);
    NewPoolInv<S, T>(taskCount, concurrency);
    ExecuteKeepsInv(tasks, s, events);
    SignalStopsClaims(tasks, s, events);
    var s' := Execute(tasks, s, events).value;
    ExitedPool(s'.pool, s'.aborted);
    if concurrency <= 0 {
      NoWorkersNoProgress(tasks, s, events);
    }
  }

  lemma {:induction false} NoWorkersNoProgress<S, T>(tasks: nat -> T, s: System<S, T>, events: seq<Event<S>>)
    requires s.pool.workers == [] && Execute(tasks, s, events).Some?
    ensures Execute(tasks, s, events).value.pool == s.pool
    decreases |events|
  {
    if events != [] {
      NoWorkersNoProgress(tasks, Fire(tasks, s, events[0]).value, events[1..]);
    }
  }

  // The tasks the first k workers are awaiting.
  ghost function Awaited<S>(workers: seq<Worker<S>>, k: nat): set<nat>
    requires k <= |workers|
  {
    set w | 0 <= w < k && workers[w].Running? :: workers[w].index
  }

  lemma {:induction false} AwaitedAtMost<S>(workers: seq<Worker<S>>, k: nat)
    requires k <= |workers|
    ensures |Awaited(workers, k)| <= k
    decreases k
  {
    if k > 0 {
      AwaitedAtMost(workers, k - 1);
      var before, worker := Awaited(workers, k - 1), workers[k - 1];
      assert Awaited(workers, k) == before + if worker.Running? then {worker.index} else {};
    }
  }

  // Main result: at no point of any run are more than `concurrency` tasks in flight.
  lemma AtMostConcurrencyInFlight<S, T>(tasks: nat -> T, taskCount: nat, concurrency: int, events: seq<Event<S>>)
    requires Execute(tasks, System(NewPool<S, T>(taskCount, concurrency), false), events).Some?
    ensures var pool := Execute(tasks, System(NewPool<S, T>(taskCount, concurrency), false), events).value.pool;
            |set i: nat | i < taskCount && InFlight(pool, i)| <= Max(0, concurrency)
  {
    var s := System(NewPool<S, T>(taskCount, concurrency), false);
    NewPoolInv<S, T>(taskCount, concurrency);
    ExecuteKeepsInv(tasks, s, events);
    var pool := Execute(tasks, s, events).value.pool;
    AwaitedAtMost(pool.workers, |pool.workers|);
    var inFlight := set i: nat | i < taskCount && InFlight(pool, i);
    assert inFlight <= Awaited(pool.workers, |pool.workers|);
    SubsetSize(inFlight, Awaited(pool.workers, |pool.workers|));
  }

  predicate AllLooping<S, T>(p: Pool<S, T>) {
    forall w :: 0 <= w < |p.workers| ==> p.workers[w].Looping?
  }

  // Every worker claims once, in turn.
  function EachClaims<S>(stage: S, n: nat): seq<Event<S>> {
    seq(n, w requires 0 <= w < n => Claimed(w, stage))
  }

  lemma {:induction false} EachClaimsRuns<S, T>(tasks: nat -> T, s: System<S, T>, stage: S, n: nat)
    requires !s.aborted && s.pool.next == 0 && AllLooping(s.pool)
    requires n <= |s.pool.workers| && n <= |s.pool.results|
    ensures Execute(tasks, s, EachClaims(stage, n)).Some?
    ensures var pool := Execute(tasks, s, EachClaims(stage, n)).value.pool;
            && |pool.workers| == |s.pool.workers| && |pool.results| == |s.pool.results| && pool.next == n
            && (forall w: nat :: w < n ==> pool.workers[w] == Running(w, stage))
            && (forall w :: n <= w < |pool.workers| ==> pool.workers[w].Looping?)
    ensures !Execute(tasks, s, EachClaims(stage, n)).value.aborted
    decreases n
  {
    if n > 0 {
      EachClaimsRuns(tasks, s, stage, n - 1);
      assert EachClaims(stage, n) == EachClaims(stage, n - 1) + [Claimed(n - 1, stage)];
      ExecuteSnoc(tasks, s, EachClaims(stage, n - 1), Claimed(n - 1, stage));
    }
  }

  lemma InFlightCount<S, T>(pool: Pool<S, T>, n: nat, taskCount: nat, stage: S)
    requires |pool.workers| == n <= taskCount && forall w: nat :: w < n ==> pool.workers[w] == Running(w, stage)
    ensures |set i: nat | i < taskCount && InFlight(pool, i)| == n
  {
    var inFlight := set i: nat | i < taskCount && InFlight(pool, i);
    forall i: nat ensures i in inFlight <==> i < n {
      if i < n {
        assert pool.workers[i] == Running(i, stage);
      }
    }
    UpToSize(inFlight, n);
  }

  lemma {:induction false} UpToSize(s: set<nat>, n: nat)
    requires forall i: nat :: i in s <==> i < n
    ensures |s| == n
  {
    if n == 0 {
      assert s == {};
    } else {
      UpToSize(s - {n - 1}, n - 1);
    }
  }

  // Main result: the bound is met: in every pool some run has as many tasks in flight as the concurrency and the
  // number of tasks admit.
  lemma ConcurrencyIsReached<S, T>(tasks: nat -> T, taskCount: nat, concurrency: int, stage: S)
    returns (events: seq<Event<S>>)
    requires concurrency >= 0
    ensures var r := Execute(tasks, System(NewPool<S, T>(taskCount, concurrency), false), events);
            r.Some? && |set i: nat | i < taskCount && InFlight(r.value.pool, i)| == Min(concurrency, taskCount)
  {
    var s := System(NewPool<S, T>(taskCount, concurrency), false);
    var n := Min(concurrency, taskCount);
    events := EachClaims(stage, n);
    EachClaimsRuns(tasks, s, stage, n);
    InFlightCount(Execute(tasks, s, events).value.pool, n, taskCount, stage);
  }

  // The task indices claimed along a run, in order.
  function ClaimLog<S, T>(tasks: nat -> T, s: System<S, T>, events: seq<Event<S>>): seq<nat>
    requires Execute(tasks, s, events).Some?
    decreases |events|
  {
    if events == [] then []
    else
      (if events[0].Claimed? then [s.pool.next] else [])
      + ClaimLog(tasks, Fire(tasks, s, events[0]).value, events[1..])
  }

  // Every index is claimed at most once, in increasing order and without gaps.
  lemma {:induction false} ClaimsAreConsecutive<S, T>(tasks: nat -> T, s: System<S, T>, events: seq<Event<S>>)
    requires Execute(tasks, s, events).Some?
    ensures var log := ClaimLog(tasks, s, events);
            && Execute(tasks, s, events).value.pool.next == s.pool.next + |log|
            && (forall k :: 0 <= k < |log| ==> log[k] == s.pool.next + k)
    decreases |events|
  {
    if events != [] {
      ClaimsAreConsecutive(tasks, Fire(tasks, s, events[0]).value, events[1..]);
    }
  }

  // ----- The signal -----

  // How many tasks the events claim before the signal.
  function ClaimsBeforeSignal<S>(events: seq<Event<S>>): nat {
    if events == [] || events[0].Aborted? then 0
    else (if events[0].Claimed? then 1 else 0) + ClaimsBeforeSignal(events[1..])
  }

  // Main result: nothing is claimed after the signal, so the counter stays where it was when the signal fired.
  lemma {:induction false} SignalStopsClaims<S, T>(tasks: nat -> T, s: System<S, T>, events: seq<Event<S>>)
    requires Execute(tasks, s, events).Some?
    ensures s.aborted ==> forall k :: 0 <= k < |events| ==> !events[k].Claimed?
    ensures forall i, k :: 0 <= i < k < |events| && events[i].Aborted? ==> !events[k].Claimed?
    ensures Execute(tasks, s, events).value.pool.next
            == s.pool.next + if s.aborted then 0 else ClaimsBeforeSignal(events)
    ensures Execute(tasks, s, events).value.aborted <==> s.aborted || Aborted in events
    decreases |events|
  {
    if events != [] {
      var s', rest := Fire(tasks, s, events[0]).value, events[1..];
      SignalStopsClaims(tasks, s', rest);
      forall k | 1 <= k < |events| ensures events[k] == rest[k - 1] {
      }
      assert Aborted in events <==> events[0].Aborted? || Aborted in rest;
    }
  }

  // After the signal every worker at its loop head can leave at once, and every other one once its task has settled:
  // at most two more steps for each worker, however many tasks are left.
  lemma {:induction false} SignalEndsPool<S, T>(tasks: nat -> T, s: System<S, T>, events: seq<Event<S>>)
    requires s.aborted && Execute(tasks, s, events).Some?
    ensures forall w: nat :: IsLooping(s.pool, w) ==> Fire(tasks, s, Left(w)).Some?
    ensures PoolEvents(events) <= 2 * |s.pool.workers|
  {
    TotalAtMost(s.pool.workers);
    WorkAfterSignal(tasks, s, events);
  }

  lemma {:induction false} TotalAtMost<S>(workers: seq<Worker<S>>)
    ensures Total(workers, Weight) <= 2 * |workers|
    decreases |workers|
  {
    if workers != [] {
      TotalAtMost(workers[1..]);
    }
  }

  lemma {:induction false} WorkAfterSignal<S, T>(tasks: nat -> T, s: System<S, T>, events: seq<Event<S>>)
    requires s.aborted && Execute(tasks, s, events).Some?
    ensures PoolEvents(events) <= Total(s.pool.workers, Weight)
    decreases |events|
  {
    if events != [] {
      StepsUseUpWork(tasks, s, events[0]);
      WorkAfterSignal(tasks, Fire(tasks, s, events[0]).value, events[1..]);
    }
  }

  // ----- Termination -----

  function Weight<S>(worker: Worker<S>): nat {
    match worker
    case Looping => 1
    case Running(_, _) => 2
    case Exited => 0
  }

  function Total<S>(workers: seq<Worker<S>>, weight: Worker<S> -> nat): nat {
    if workers == [] then 0 else weight(workers[0]) + Total(workers[1..], weight)
  }

  lemma {:induction false} TotalUpdate<S>(workers: seq<Worker<S>>, weight: Worker<S> -> nat, w: nat, worker: Worker<S>)
    requires w < |workers|
    ensures Total(workers[w := worker], weight) == Total(workers, weight) - weight(workers[w]) + weight(worker)
  {
    var updated := workers[w := worker];
    if w == 0 {
      assert updated[1..] == workers[1..];
    } else {
      assert updated[1..] == workers[1..][w - 1 := worker];
      TotalUpdate(workers[1..], weight, w - 1, worker);
    }
  }

  function Remaining<S, T>(p: Pool<S, T>): int {
    2 * (|p.results| - p.next) + Total(p.workers, Weight)
  }

  // Claiming, settling and leaving each use up one unit; progress inside a task and an abort use none.
  lemma StepsUseUpWork<S, T>(tasks: nat -> T, s: System<S, T>, e: Event<S>)
    requires Fire(tasks, s, e).Some?
    ensures Remaining(Fire(tasks, s, e).value.pool)
            == Remaining(s.pool) - (if e.Claimed? || e.Settled? || e.Left? then 1 else 0)
  {
    match e
    case Claimed(w, stage) => TotalUpdate(s.pool.workers, Weight, w, Running(s.pool.next, stage));
    case Advanced(w, stage) => TotalUpdate(s.pool.workers, Weight, w, Running(s.pool.workers[w].index, stage));
    case Settled(w) => TotalUpdate(s.pool.workers, Weight, w, Looping);
    case Left(w) => TotalUpdate(s.pool.workers, Weight, w, Exited);
    case Aborted =>
  }

  function PoolEvents<S>(events: seq<Event<S>>): nat {
    if events == [] then 0
    else (if events[0].Claimed? || events[0].Settled? || events[0].Left? then 1 else 0) + PoolEvents(events[1..])
  }

  // The pool terminates: no run has more than 2 * tasks + workers claims, results and departures ...
  lemma {:induction false} PoolTerminates<S, T>(tasks: nat -> T, s: System<S, T>, events: seq<Event<S>>)
    requires SystemInv(tasks, s) && Execute(tasks, s, events).Some?
    ensures PoolEvents(events) <= Remaining(s.pool)
    decreases |events|
  {
    if events != [] {
      StepsUseUpWork(tasks, s, events[0]);
      FireKeepsInv(tasks, s, events[0]);
      PoolTerminates(tasks, Fire(tasks, s, events[0]).value, events[1..]);
    }
  }

  // ... and until every worker has left some claim, result or departure is always possible.
  lemma PoolProgress<S, T>(tasks: nat -> T, s: System<S, T>, stage: S) returns (e: Event<S>)
    requires SystemInv(tasks, s) && !AllExited(s.pool)
    ensures e.Claimed? || e.Settled? || e.Left?
    ensures Fire(tasks, s, e).Some?
  {
    var w: nat :| w < |s.pool.workers| && !s.pool.workers[w].Exited?;
    if s.pool.workers[w].Running? {
      e := Settled(w);
    } else if s.pool.next < |s.pool.results| && !s.aborted {
      e := Claimed(w, stage);
    } else {
      e := Left(w);
    }
  }

  // ----- The pool as the program runs it -----

  // The variables the workers share: the counter and the results array, and where each worker stands.
  class SharedPool<S, T> {
    var next: nat
    const results: array<Option<T>>
    const workers: array<Worker<S>>

    ghost function Contents(): Pool<S, T>
      reads this, results, workers
    {
      Pool(next, results[..], workers[..])
    }

    constructor (taskCount: nat, concurrency: int)
      ensures fresh(results) && fresh(workers)
      ensures Contents() == NewPool(taskCount, concurrency)
    {
      next := 0;
      results := new Option<T>[taskCount](_ => None);
      workers := new Worker<S>[PoolSize(concurrency, taskCount)](_ => Looping);
      new;
      assert results[..] == NewPool<S, T>(taskCount, concurrency).results;
      assert workers[..] == NewPool<S, T>(taskCount, concurrency).workers;
    }

    // The worker takes the value of the counter, which moves on.
    method ClaimNext(w: nat, stage: S)
      requires w < workers.Length && workers[w].Looping?
      modifies this, workers
      ensures Contents() == Claim(old(Contents()), w, stage)
    {
      workers[w] := Running(next, stage);
      next := next + 1;
    }

    method MoveTo(w: nat, stage: S)
      requires w < workers.Length && workers[w].Running? && workers[w].index < results.Length
      modifies workers
      ensures Contents() == Advance(old(Contents()), w, stage)
    {
      workers[w] := Running(workers[w].index, stage);
    }

    // The worker stores the outcome at its own index.
    method StoreResult(w: nat, outcome: T)
      requires w < workers.Length && workers[w].Running? && workers[w].index < results.Length
      modifies results, workers
      ensures Contents() == Settle(old(Contents()), w, outcome)
    {
      results[workers[w].index] := Some(outcome);
      workers[w] := Looping;
    }

    method Stop(w: nat)
      requires w < workers.Length && workers[w].Looping?
      modifies workers
      ensures Contents() == Exit(old(Contents()), w)
    {
      workers[w] := Exited;
    }

    method SomeoneWorking() returns (live: bool)
      ensures live <==> !AllExited(Contents())
    {
      live := false;
      for w := 0 to workers.Length
        invariant !live ==> forall v :: 0 <= v < w ==> workers[v].Exited?
        invariant live ==> exists v :: 0 <= v < workers.Length && !workers[v].Exited?
      {
        if !workers[w].Exited? {
          live := true;
        }
      }
    }
  }

  // One worker runs up to its next await.
  method Turn<T>(pool: SharedPool<(), T>, tasks: nat -> T, w: nat, aborted: bool) returns (ghost e: Event<()>)
    requires w < pool.workers.Length && !pool.workers[w].Exited?
    requires SystemInv(tasks, System(pool.Contents(), aborted))
    modifies pool, pool.results, pool.workers
    ensures e.Claimed? || e.Settled? || e.Left?
    ensures Fire(tasks, System(old(pool.Contents()), aborted), e) == Some(System(pool.Contents(), aborted))
    ensures SystemInv(tasks, System(pool.Contents(), aborted))
    ensures Remaining(pool.Contents()) == Remaining(old(pool.Contents())) - 1
  {
    ghost var before := System(pool.Contents(), aborted);
    assert pool.workers[w] == before.pool.workers[w];
    if pool.workers[w].Running? {
      e := Settled(w);
      pool.StoreResult(w, tasks(pool.workers[w].index));
    } else if pool.next < pool.results.Length && !aborted {
      e := Claimed(w, ());
      pool.ClaimNext(w, ());
    } else {
      e := Left(w);
      pool.Stop(w);
    }
    FireKeepsInv(tasks, before, e);
    StepsUseUpWork(tasks, before, e);
  }

  // The events so far lead from a new pool to where the pool stands.
  ghost predicate Reaches<T>(tasks: nat -> T, taskCount: nat, concurrency: int, events: seq<Event<()>>,
                             pool: SharedPool<(), T>, aborted: bool)
    reads pool, pool.results, pool.workers
  {
    && Execute(tasks, System(NewPool<(), T>(taskCount, concurrency), false), events)
       == Some(System(pool.Contents(), aborted))
    && SystemInv(tasks, System(pool.Contents(), aborted))
  }

  // The scheduler resumes some live worker; the signal may fire after its turn.
  method SomeTurn<T>(pool: SharedPool<(), T>, tasks: nat -> T, aborted: bool,
                     ghost taskCount: nat, ghost concurrency: int, ghost events: seq<Event<()>>)
    returns (aborted': bool, ghost events': seq<Event<()>>)
    requires Reaches(tasks, taskCount, concurrency, events, pool, aborted) && !AllExited(pool.Contents())
    modifies pool, pool.results, pool.workers
    ensures Reaches(tasks, taskCount, concurrency, events', pool, aborted')
    ensures Remaining(pool.Contents()) < Remaining(old(pool.Contents()))
  {
    ghost var s := System(NewPool<(), T>(taskCount, concurrency), false);
    var w: nat :| w < pool.workers.Length && !pool.workers[w].Exited?;
    ghost var e := Turn(pool, tasks, w, aborted);
    ExecuteSnoc(tasks, s, events, e);
    aborted', events' := aborted, events + [e];
    if * {
      FireKeepsInv(tasks, System(pool.Contents(), aborted), Aborted);
      ExecuteSnoc(tasks, s, events', Aborted);
      aborted', events' := true, events' + [Aborted];
    }
  }

  // `Promise.all(workers)`: the scheduler resumes any live worker at each turn, and the signal may fire at any turn.
  // The results are those of the tasks claimed before the signal.
  method RunWithConcurrency<T>(tasks: nat -> T, taskCount: nat, concurrency: int)
    returns (results: array<Option<T>>, aborted: bool, ghost events: seq<Event<()>>)
    ensures fresh(results) && results.Length == taskCount
    ensures var r := Execute(tasks, System(NewPool<(), T>(taskCount, concurrency), false), events);
            r.Some? && AllExited(r.value.pool) && r.value.pool.results == results[..] && r.value.aborted == aborted
    ensures aborted <==> Aborted in events
    ensures var claimed := ClaimsBeforeSignal(events);
            && claimed <= taskCount
            && (forall i :: 0 <= i < taskCount ==> results[i] == if i < claimed then Some(tasks(i)) else None)
            && (concurrency >= 1 && !aborted ==> claimed == taskCount)
            && (concurrency <= 0 ==> claimed == 0)
  {
    var pool := new SharedPool<(), T>(taskCount, concurrency);
    aborted, events := false, [];
    NewPoolInv<(), T>(taskCount, concurrency);
    var live := pool.SomeoneWorking();
    while live
      invariant fresh(pool) && fresh(pool.results) && fresh(pool.workers)
      invariant pool.results.Length == taskCount
      invariant Reaches(tasks, taskCount, concurrency, events, pool, aborted)
      invariant live <==> !AllExited(pool.Contents())
      decreases Remaining(pool.Contents())
    {
      aborted, events := SomeTurn(pool, tasks, aborted, taskCount, concurrency, events);
      live := pool.SomeoneWorking();
    }
    PoolOutcome(tasks, taskCount, concurrency, events);
    SignalStopsClaims(tasks, System(NewPool<(), T>(taskCount, concurrency), false), events);
    results := pool.results;
    ghost var final := pool.Contents();
    assert final.results == results[..];
  }
}
