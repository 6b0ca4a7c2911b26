/**
 What one process of a backfill has done when it returns, read off its actions: how many ledgers it skipped, processed
 and failed, that it took each ledger at most once, and what it still does after the signal.
 */
module BackfillCounts {
  import opened Wrappers
  import opened WorkerPool
  import opened Checkpoint
  import opened BackfillSystem
  import opened BackfillSafety
  import opened BackfillCompletion
  import opened BackfillFailures

  // How many of the actions are of a kind.
  function HowMany(actions: seq<Action>, kind: Action -> bool): nat {
    if actions == [] then 0 else One(actions[0], kind) + HowMany(actions[1..], kind)
  }

  function One(a: Action, kind: Action -> bool): nat {
    if kind(a) then 1 else 0
  }

  function Settles(o: Outcome): Action -> bool {
    (a: Action) => a.SettleTask? && a.outcome == o
  }

  const IsClaim: Action -> bool := (a: Action) => a.ClaimTask?
  const IsHit: Action -> bool := (a: Action) => a.Hit?
  const IsMiss: Action -> bool := (a: Action) => a.Miss?
  const IsCommit: Action -> bool := (a: Action) => a.Commit?
  const IsSettle: Action -> bool := (a: Action) => a.SettleTask?
  const IsSave: Action -> bool := (a: Action) => a.Save?

  // ----- What a process has counted, and what its batch still holds -----

  function Counter(p: Proc, o: Outcome): nat {
    match o
    case Processed => p.processed
    case Skipped => p.skipped
    case Rejected => p.failed
  }

  // The outcomes of a kind, counted or still in the results of the batch.
  function Outcomes(p: Proc, o: Outcome): nat {
    Counter(p, o) + if p.phase.InBatch? then CountOf(p.phase.pool.results, o) else 0
  }

  function Stands(stage: Stage): Worker<Stage> -> nat {
    (worker: Worker<Stage>) => if worker.Running? && worker.stage == stage then 1 else 0
  }

  // How many tasks of the batch are in the stage.
  function AtStage(p: Proc, stage: Stage): nat {
    if p.phase.InBatch? then Total(p.phase.pool.workers, Stands(stage)) else 0
  }

  // What the actions between p and p' settle, and through which stages the tasks went.
  predicate Balanced(p: Proc, actions: seq<Action>, p': Proc) {
    && Outcomes(p', Processed) == Outcomes(p, Processed) + HowMany(actions, Settles(Processed))
    && Outcomes(p', Skipped) == Outcomes(p, Skipped) + HowMany(actions, Settles(Skipped))
    && Outcomes(p', Rejected) == Outcomes(p, Rejected) + HowMany(actions, Settles(Rejected))
    && AtStage(p', Checking) + HowMany(actions, IsHit) + HowMany(actions, IsMiss)
       == AtStage(p, Checking) + HowMany(actions, IsClaim)
    && AtStage(p', Found) + HowMany(actions, Settles(Skipped)) == AtStage(p, Found) + HowMany(actions, IsHit)
    && AtStage(p', Writing) + AtStage(p', Committed)
       + HowMany(actions, Settles(Processed)) + HowMany(actions, Settles(Rejected))
       == AtStage(p, Writing) + AtStage(p, Committed) + HowMany(actions, IsMiss)
    && AtStage(p', Committed) + HowMany(actions, Settles(Processed))
       <= AtStage(p, Committed) + HowMany(actions, IsCommit)
       <= AtStage(p', Committed) + HowMany(actions, Settles(Processed)) + HowMany(actions, Settles(Rejected))
  }

  lemma {:induction false} CountUpdate(results: seq<Option<Outcome>>, i: nat, outcome: Outcome, o: Outcome)
    requires i < |results| && results[i].None?
    ensures CountOf(results[i := Some(outcome)], o) == CountOf(results, o) + if o == outcome then 1 else 0
    decreases |results|
  {
    var last, updated := |results| - 1, results[i := Some(outcome)];
    if i < last {
      assert updated[..last] == results[..last][i := Some(outcome)];
      CountUpdate(results[..last], i, outcome, o);
    } else {
      assert updated[..last] == results[..last];
    }
  }

  lemma {:induction false} CountNone(results: seq<Option<Outcome>>, o: Outcome)
    requires forall i :: 0 <= i < |results| ==> results[i].None?
    ensures CountOf(results, o) == 0
    decreases |results|
  {
    if results != [] {
      CountNone(results[..|results| - 1], o);
    }
  }

  lemma {:induction false} NoneStands(workers: seq<Worker<Stage>>, stage: Stage)
    requires forall w :: 0 <= w < |workers| ==> !workers[w].Running?
    ensures Total(workers, Stands(stage)) == 0
    decreases |workers|
  {
    if workers != [] {
      NoneStands(workers[1..], stage);
    }
  }

  // A worker's step settles at most its own task.
  lemma OutcomeMoves(store: set<int>, first: int, aborted: bool, pool: LedgerPool, a: Action, o: Outcome)
    requires PoolInv(pool, aborted) && PoolStep(store, first, aborted, pool, a).Some?
    ensures CountOf(PoolStep(store, first, aborted, pool, a).value.results, o)
         == CountOf(pool.results, o) + One(a, Settles(o))
  {
    if a.SettleTask? {
      var i := pool.workers[a.w].index;
      assert InFlight(pool, i) && pool.results[i].None?;
      CountUpdate(pool.results, i, a.outcome, o);
    }
  }

  lemma WorkerOutcomes(cfg: Config, v: View, a: Action, o: Outcome)
    requires v.proc.phase.InBatch? && PoolInv(v.proc.phase.pool, v.proc.aborted) && WorkerStep(cfg, v, a).Some?
    ensures Outcomes(WorkerStep(cfg, v, a).value.proc, o) == Outcomes(v.proc, o) + HowMany([a], Settles(o))
  {
    Unfolded(a);
    OutcomeMoves(v.store, v.proc.resumeFrom + v.proc.phase.batchStart, v.proc.aborted, v.proc.phase.pool, a, o);
  }

  lemma StageMoves(cfg: Config, v: View, a: Action, stage: Stage)
    requires v.proc.phase.InBatch? && WorkerStep(cfg, v, a).Some?
    ensures AtStage(WorkerStep(cfg, v, a).value.proc, stage) == AtStage(v.proc, stage) + Shift(cfg, v, a, stage)
  {
    var pool, pool' := v.proc.phase.pool, WorkerStep(cfg, v, a).value.proc.phase.pool;
    TotalUpdate(pool.workers, Stands(stage), a.w, pool'.workers[a.w]);
  }

  // How a worker's step changes the number of tasks in a stage.
  function Shift(cfg: Config, v: View, a: Action, stage: Stage): int
    requires v.proc.phase.InBatch? && WorkerStep(cfg, v, a).Some?
  {
    Stands(stage)(WorkerStep(cfg, v, a).value.proc.phase.pool.workers[a.w])
    - Stands(stage)(v.proc.phase.pool.workers[a.w])
  }

  // A worker's step moves its task on by one stage.
  lemma Shifts(cfg: Config, v: View, a: Action)
    requires v.proc.phase.InBatch? && WorkerStep(cfg, v, a).Some?
    ensures Shift(cfg, v, a, Checking) == One(a, IsClaim) - One(a, IsHit) - One(a, IsMiss)
    ensures Shift(cfg, v, a, Found) == One(a, IsHit) - One(a, Settles(Skipped))
    ensures Shift(cfg, v, a, Writing) + Shift(cfg, v, a, Committed)
         == One(a, IsMiss) - One(a, Settles(Processed)) - One(a, Settles(Rejected))
    ensures One(a, IsCommit) - One(a, Settles(Processed)) - One(a, Settles(Rejected))
         <= Shift(cfg, v, a, Committed) <= One(a, IsCommit) - One(a, Settles(Processed))
  {
  }

  lemma Unfolded(a: Action)
    ensures HowMany([a], IsClaim) == One(a, IsClaim) && HowMany([a], IsHit) == One(a, IsHit)
    ensures HowMany([a], IsMiss) == One(a, IsMiss) && HowMany([a], IsCommit) == One(a, IsCommit)
    ensures forall o :: HowMany([a], Settles(o)) == One(a, Settles(o))
  {
    assert [a][1..] == [];
  }

  lemma WorkerBalanced(cfg: Config, v: View, a: Action)
    requires v.proc.phase.InBatch? && PoolInv(v.proc.phase.pool, v.proc.aborted) && WorkerStep(cfg, v, a).Some?
    ensures Balanced(v.proc, [a], WorkerStep(cfg, v, a).value.proc)
  {
    WorkerOutcomes(cfg, v, a, Processed);
    WorkerOutcomes(cfg, v, a, Skipped);
    WorkerOutcomes(cfg, v, a, Rejected);
    StageMoves(cfg, v, a, Checking);
    StageMoves(cfg, v, a, Found);
    StageMoves(cfg, v, a, Writing);
    StageMoves(cfg, v, a, Committed);
    Shifts(cfg, v, a);
    Unfolded(a);
  }

  // Entering a batch: nothing is claimed yet. Tallying it: everything moves to the counters.
  lemma OwnStepKeeps(cfg: Config, v: View, a: Action)
    requires Started(v.proc) && !IsWorkers(a) && Act(cfg, v, a).Some?
    ensures forall o :: Outcomes(Act(cfg, v, a).value.proc, o) == Outcomes(v.proc, o)
    ensures forall stage :: AtStage(Act(cfg, v, a).value.proc, stage) == AtStage(v.proc, stage)
  {
    var p, p' := v.proc, Act(cfg, v, a).value.proc;
    forall o ensures Outcomes(p', o) == Outcomes(p, o) {
      if a.Enter? && p'.phase.InBatch? {
        CountNone(p'.phase.pool.results, o);
      }
    }
    forall stage ensures AtStage(p', stage) == AtStage(p, stage) {
      if a.Enter? && p'.phase.InBatch? {
        NoneStands(p'.phase.pool.workers, stage);
      } else if a.Tally? {
        NoneStands(p.phase.pool.workers, stage);
      }
    }
  }

  lemma ActBalanced(cfg: Config, v: View, a: Action)
    requires Started(v.proc) && PoolSound(v.proc) && Act(cfg, v, a).Some?
    ensures Balanced(v.proc, [a], Act(cfg, v, a).value.proc)
  {
    if IsWorkers(a) {
      assert Act(cfg, v, a) == WorkerStep(cfg, v, a);
      WorkerBalanced(cfg, v, a);
    } else {
      OwnStepKeeps(cfg, v, a);
      Unfolded(a);
    }
  }

  lemma BalancedThen(p: Proc, a: Action, p': Proc, actions: seq<Action>, p'': Proc)
    requires actions != [] && actions[0] == a
    requires Balanced(p, [a], p') && Balanced(p', actions[1..], p'')
    ensures Balanced(p, actions, p'')
  {
    Unfolded(a);
  }

  lemma BalancedNone(p: Proc)
    ensures Balanced(p, [], p)
  {
  }

  lemma {:induction false} RunBalanced(cfg: Config, v: View, actions: seq<Action>)
    requires RunProc(cfg, v, actions).Some? && Started(v.proc) && PoolSound(v.proc)
    ensures Balanced(v.proc, actions, RunProc(cfg, v, actions).value.proc)
    decreases |actions|
  {
    if actions == [] {
      BalancedNone(v.proc);
    } else {
      var v' := Act(cfg, v, actions[0]).value;
      ActSound(cfg, v, actions[0]);
      ActBalanced(cfg, v, actions[0]);
      RunBalanced(cfg, v', actions[1..]);
      BalancedThen(v.proc, actions[0], v'.proc, actions, RunProc(cfg, v', actions[1..]).value.proc);
    }
  }

  // What a process resumes of a counter.
  function Resumed(row: Option<Row>, o: Outcome): nat {
    if !Resumes(row) then 0
    else match o
      case Processed => row.value.processed
      case Skipped => row.value.skipped
      case Rejected => row.value.failed
  }

  // The process after it has loaded the row.
  function Loaded(cfg: Config, v: View): Proc {
    LoadStep(v.(proc := NewProc(cfg))).proc
  }

  lemma NotCounted(p: Proc, a: Action)
    requires a.Load? || a.Signal?
    ensures Balanced(p, [a], p)
  {
    Unfolded(a);
  }

  lemma {:induction false} FromTheStart(cfg: Config, v: View, actions: seq<Action>)
    requires Fresh(cfg, v.proc) && RunProc(cfg, v, actions).Some? && Started(RunProc(cfg, v, actions).value.proc)
    ensures Balanced(Loaded(cfg, v), actions, RunProc(cfg, v, actions).value.proc)
    decreases |actions|
  {
    var v', p := Act(cfg, v, actions[0]).value, Loaded(cfg, v);
    if actions[0].Load? {
      RunBalanced(cfg, v', actions[1..]);
    } else {
      FromTheStart(cfg, v', actions[1..]);
    }
    NotCounted(p, actions[0]);
    BalancedThen(p, actions[0], p, actions, RunProc(cfg, v, actions).value.proc);
  }

  // Main result 8. When a process returns, each of its counters is what it resumed plus the number of tasks it settled
  // that way: it skipped the ledgers its lookups found, every other claimed ledger it processed or failed, and it
  // committed all it processed and at most its failures besides.
  lemma CountsOfReturned(cfg: Config, v: View, actions: seq<Action>)
    requires Fresh(cfg, v.proc) && RunProc(cfg, v, actions).Some? && RunProc(cfg, v, actions).value.proc.phase.Returned?
    ensures var p := RunProc(cfg, v, actions).value.proc;
            && p.processed == Resumed(v.row, Processed) + HowMany(actions, Settles(Processed))
            && p.skipped == Resumed(v.row, Skipped) + HowMany(actions, Settles(Skipped))
            && p.failed == Resumed(v.row, Rejected) + HowMany(actions, Settles(Rejected))
    ensures HowMany(actions, Settles(Skipped)) == HowMany(actions, IsHit)
    ensures HowMany(actions, Settles(Processed)) + HowMany(actions, Settles(Rejected)) == HowMany(actions, IsMiss)
    ensures HowMany(actions, IsHit) + HowMany(actions, IsMiss) == HowMany(actions, IsClaim)
    ensures HowMany(actions, Settles(Processed)) <= HowMany(actions, IsCommit) <= HowMany(actions, IsMiss)
  {
    FromTheStart(cfg, v, actions);
  }

  // ----- After the signal -----

  function Busy(worker: Worker<Stage>): nat {
    if worker.Running? then 1 else 0
  }

  // The tasks a process is waiting for.
  function InFlightTasks(p: Proc): nat {
    if p.phase.InBatch? then Total(p.phase.pool.workers, Busy) else 0
  }

  // Once aborted, a process saves at most the batch it is in.
  function SavesAhead(p: Proc): nat {
    if p.phase.InBatch? || p.phase.Saving? then 1 else 0
  }

  predicate WorkersFit(cfg: Config, p: Proc) {
    p.phase.InBatch? ==> |p.phase.pool.workers| <= Max(0, cfg.concurrency)
  }

  lemma {:induction false} BusyAtMost(workers: seq<Worker<Stage>>)
    ensures Total(workers, Busy) <= |workers|
    ensures (forall w :: 0 <= w < |workers| ==> !workers[w].Running?) ==> Total(workers, Busy) == 0
    decreases |workers|
  {
    if workers != [] {
      BusyAtMost(workers[1..]);
    }
  }

  // Under an abort every step leaves less to settle and to save by what it does.
  lemma ActAborted(cfg: Config, v: View, a: Action)
    requires v.proc.aborted && Act(cfg, v, a).Some?
    ensures var p := Act(cfg, v, a).value.proc;
            && p.aborted && !a.ClaimTask?
            && InFlightTasks(p) + One(a, IsSettle) == InFlightTasks(v.proc)
            && SavesAhead(p) + One(a, IsSave) <= SavesAhead(v.proc)
  {
    if IsWorkers(a) {
      var pool, pool' := v.proc.phase.pool, Act(cfg, v, a).value.proc.phase.pool;
      TotalUpdate(pool.workers, Busy, a.w, pool'.workers[a.w]);
    } else if a.Tally? {
      BusyAtMost(v.proc.phase.pool.workers);
    }
  }

  lemma {:induction false} AfterSignal(cfg: Config, v: View, actions: seq<Action>)
    requires v.proc.aborted && RunProc(cfg, v, actions).Some?
    ensures forall k :: 0 <= k < |actions| ==> !actions[k].ClaimTask?
    ensures HowMany(actions, IsSettle) <= InFlightTasks(v.proc)
    ensures HowMany(actions, IsSave) <= SavesAhead(v.proc)
    decreases |actions|
  {
    if actions != [] {
      ActAborted(cfg, v, actions[0]);
      AfterSignal(cfg, Act(cfg, v, actions[0]).value, actions[1..]);
      forall k | 1 <= k < |actions| ensures actions[k] == actions[1..][k - 1] {
      }
    }
  }

  lemma ActFitsWorkers(cfg: Config, v: View, a: Action)
    requires WorkersFit(cfg, v.proc) && Act(cfg, v, a).Some?
    ensures WorkersFit(cfg, Act(cfg, v, a).value.proc)
  {
  }

  // What a run does after the signal: no task is claimed; only those in flight settle, at most one batch is saved.
  ghost predicate StopsAtSignal(cfg: Config, actions: seq<Action>) {
    forall i :: 0 <= i < |actions| && actions[i].Signal? ==>
      && (forall k :: i < k < |actions| ==> !actions[k].ClaimTask?)
      && HowMany(actions[i + 1..], IsSettle) <= Max(0, cfg.concurrency)
      && HowMany(actions[i + 1..], IsSave) <= 1
  }

  // Main result 9. From wherever a process stands, the signal stops it: nothing is claimed after it, at most as many
  // tasks as there are workers still settle, and at most one batch is still saved.
  lemma {:induction false} SignalStopsBackfill(cfg: Config, v: View, actions: seq<Action>)
    requires WorkersFit(cfg, v.proc) && RunProc(cfg, v, actions).Some?
    ensures StopsAtSignal(cfg, actions)
    decreases |actions|
  {
    if actions != [] {
      var v', rest := Act(cfg, v, actions[0]).value, actions[1..];
      ActFitsWorkers(cfg, v, actions[0]);
      SignalStopsBackfill(cfg, v', rest);
      if actions[0].Signal? {
        AfterSignal(cfg, v', rest);
        if v'.proc.phase.InBatch? {
          BusyAtMost(v'.proc.phase.pool.workers);
        }
      }
      forall i | 0 <= i < |actions| && actions[i].Signal?
        ensures forall k :: i < k < |actions| ==> !actions[k].ClaimTask?
        ensures HowMany(actions[i + 1..], IsSettle) <= Max(0, cfg.concurrency)
        ensures HowMany(actions[i + 1..], IsSave) <= 1
      {
        forall k | 1 <= k < |actions| ensures actions[k] == rest[k - 1] {
        }
        if i > 0 {
          assert rest[i - 1].Signal? && rest[i - 1 + 1..] == actions[i + 1..];
        }
      }
    }
  }

  // ----- Each ledger at most once -----

  // The sequence whose task a step settles.
  function SettledBy(v: View, a: Action): set<int> {
    if a.SettleTask? && v.proc.phase.InBatch? && IsRunning(v.proc.phase.pool, a.w) then
      {v.proc.resumeFrom + v.proc.phase.batchStart + v.proc.phase.pool.workers[a.w].index}
    else {}
  }

  // The sequences whose tasks a run settles.
  function SettledAlong(cfg: Config, v: View, actions: seq<Action>): set<int>
    requires RunProc(cfg, v, actions).Some?
    decreases |actions|
  {
    if actions == [] then {}
    else SettledBy(v, actions[0]) + SettledAlong(cfg, Act(cfg, v, actions[0]).value, actions[1..])
  }

  // What a process in front of p' can still settle: at or after its frontier, and not settled in its batch.
  predicate StillToDo(cfg: Config, p: Proc, x: int) {
    && !Finished(p) && Uncounted(cfg, p) <= x <= cfg.end
    && (p.phase.InBatch? ==> var i := x - p.resumeFrom - p.phase.batchStart;
          i < |p.phase.pool.results| ==> p.phase.pool.results[i].None?)
  }

  // A worker's step settles what was still to do, and then it no longer is.
  lemma WorkerLeavesToDo(cfg: Config, v: View, a: Action, x: int)
    requires BatchFits(cfg, v.proc) && v.proc.phase.InBatch? && PoolInv(v.proc.phase.pool, v.proc.aborted)
    requires WorkerStep(cfg, v, a).Some?
    ensures StillToDo(cfg, WorkerStep(cfg, v, a).value.proc, x) ==> StillToDo(cfg, v.proc, x) && x !in SettledBy(v, a)
    ensures x in SettledBy(v, a) ==> StillToDo(cfg, v.proc, x)
  {
    var pool := v.proc.phase.pool;
    if a.SettleTask? {
      assert InFlight(pool, pool.workers[a.w].index);
    }
  }

  lemma OwnLeavesToDo(cfg: Config, v: View, a: Action, x: int)
    requires BatchFits(cfg, v.proc) && Started(v.proc) && !IsWorkers(a) && Act(cfg, v, a).Some?
    ensures StillToDo(cfg, Act(cfg, v, a).value.proc, x) ==> StillToDo(cfg, v.proc, x)
    ensures SettledBy(v, a) == {}
  {
  }

  lemma ActLeavesToDo(cfg: Config, v: View, a: Action, x: int)
    requires BatchFits(cfg, v.proc) && Started(v.proc) && PoolSound(v.proc) && Act(cfg, v, a).Some?
    ensures StillToDo(cfg, Act(cfg, v, a).value.proc, x) ==> StillToDo(cfg, v.proc, x) && x !in SettledBy(v, a)
    ensures x in SettledBy(v, a) ==> StillToDo(cfg, v.proc, x)
  {
    if IsWorkers(a) {
      assert Act(cfg, v, a) == WorkerStep(cfg, v, a);
      WorkerLeavesToDo(cfg, v, a, x);
    } else {
      OwnLeavesToDo(cfg, v, a, x);
    }
  }

  lemma {:induction false} SettledOnce(cfg: Config, v: View, actions: seq<Action>)
    requires RunProc(cfg, v, actions).Some? && BatchFits(cfg, v.proc) && Started(v.proc) && PoolSound(v.proc)
    ensures forall x :: x in SettledAlong(cfg, v, actions) ==> StillToDo(cfg, v.proc, x)
    ensures |SettledAlong(cfg, v, actions)| == HowMany(actions, IsSettle)
    decreases |actions|
  {
    if actions != [] {
      var a, v', rest := actions[0], Act(cfg, v, actions[0]).value, actions[1..];
      ActFits(cfg, v, a);
      ActSound(cfg, v, a);
      SettledOnce(cfg, v', rest);
      forall x
        ensures x in SettledAlong(cfg, v', rest) ==> StillToDo(cfg, v.proc, x) && x !in SettledBy(v, a)
        ensures x in SettledBy(v, a) ==> StillToDo(cfg, v.proc, x)
      {
        ActLeavesToDo(cfg, v, a, x);
      }
      assert SettledBy(v, a) !! SettledAlong(cfg, v', rest);
      assert |SettledBy(v, a)| == One(a, IsSettle);
    }
  }

  // The holes in the results of a batch.
  function Unfilled(results: seq<Option<Outcome>>): int {
    |results| - CountOf(results, Processed) - CountOf(results, Skipped) - CountOf(results, Rejected)
  }

  lemma UnfilledMoves(store: set<int>, first: int, aborted: bool, pool: LedgerPool, a: Action)
    requires PoolInv(pool, aborted) && PoolStep(store, first, aborted, pool, a).Some?
    ensures Unfilled(PoolStep(store, first, aborted, pool, a).value.results) + One(a, IsSettle)
         == Unfilled(pool.results)
  {
    OutcomeMoves(store, first, aborted, pool, a, Processed);
    OutcomeMoves(store, first, aborted, pool, a, Skipped);
    OutcomeMoves(store, first, aborted, pool, a, Rejected);
  }

  lemma UnfilledNew(results: seq<Option<Outcome>>)
    requires forall i :: 0 <= i < |results| ==> results[i].None?
    ensures Unfilled(results) == |results|
  {
    CountNone(results, Processed);
    CountNone(results, Skipped);
    CountNone(results, Rejected);
  }

  // What is left to settle without a signal.
  function Ahead(cfg: Config, p: Proc): int {
    var n := SequenceCount(cfg, p);
    match p.phase
    case Creating => n
    case LoopHead(b) => Max(0, n - b)
    case InBatch(b, pool) =>
      Unfilled(pool.results) + Max(0, n - b - cfg.batchSize)
    case Saving(b) => Max(0, n - b - cfg.batchSize)
    case _ => 0
  }

  predicate HasWorkers(p: Proc) {
    p.phase.InBatch? ==> p.phase.pool.workers != []
  }

  lemma WorkerAhead(cfg: Config, v: View, a: Action)
    requires v.proc.phase.InBatch? && PoolInv(v.proc.phase.pool, v.proc.aborted) && WorkerStep(cfg, v, a).Some?
    ensures var p := WorkerStep(cfg, v, a).value.proc;
            (HasWorkers(v.proc) ==> HasWorkers(p)) && Ahead(cfg, p) + One(a, IsSettle) == Ahead(cfg, v.proc)
  {
    UnfilledMoves(v.store, v.proc.resumeFrom + v.proc.phase.batchStart, v.proc.aborted, v.proc.phase.pool, a);
  }

  lemma EnterAhead(cfg: Config, p: Proc)
    requires p.phase.LoopHead? && !p.aborted && cfg.batchSize >= 1 && cfg.concurrency >= 1
    ensures HasWorkers(EnterStep(cfg, p)) && Ahead(cfg, EnterStep(cfg, p)) == Ahead(cfg, p)
  {
    var p' := EnterStep(cfg, p);
    if p'.phase.InBatch? {
      UnfilledNew(p'.phase.pool.results);
    }
  }

  lemma TallyAhead(cfg: Config, p: Proc)
    requires p.phase.InBatch? && PoolInv(p.phase.pool, false) && AllExited(p.phase.pool) && HasWorkers(p)
    ensures Ahead(cfg, Tallied(cfg, p, p.phase.batchStart, p.phase.pool.results)) == Ahead(cfg, p)
  {
    ExitedPool(p.phase.pool, false);
    FullTally(p.phase.pool.results);
  }

  lemma ActAhead(cfg: Config, v: View, a: Action)
    requires cfg.Valid() && cfg.concurrency >= 1 && BatchFits(cfg, v.proc) && Started(v.proc) && PoolSound(v.proc)
    requires HasWorkers(v.proc) && !v.proc.aborted && !a.Signal? && Act(cfg, v, a).Some?
    ensures var p := Act(cfg, v, a).value.proc;
            HasWorkers(p) && !p.aborted && Ahead(cfg, p) + One(a, IsSettle) == Ahead(cfg, v.proc)
  {
    if IsWorkers(a) {
      assert Act(cfg, v, a) == WorkerStep(cfg, v, a);
      WorkerAhead(cfg, v, a);
    } else if a.Enter? {
      EnterAhead(cfg, v.proc);
    } else if a.Tally? {
      TallyAhead(cfg, v.proc);
    }
  }

  lemma {:induction false} RunAhead(cfg: Config, v: View, actions: seq<Action>)
    requires cfg.Valid() && cfg.concurrency >= 1 && BatchFits(cfg, v.proc) && Started(v.proc) && PoolSound(v.proc)
    requires HasWorkers(v.proc) && !v.proc.aborted && Signal !in actions && RunProc(cfg, v, actions).Some?
    ensures Ahead(cfg, RunProc(cfg, v, actions).value.proc) + HowMany(actions, IsSettle) == Ahead(cfg, v.proc)
    decreases |actions|
  {
    if actions != [] {
      ActFits(cfg, v, actions[0]);
      ActSound(cfg, v, actions[0]);
      ActAhead(cfg, v, actions[0]);
      RunAhead(cfg, Act(cfg, v, actions[0]).value, actions[1..]);
    }
  }

  // The same once the row is loaded, in terms of the range.
  lemma OnceAfterLoading(cfg: Config, v: View, actions: seq<Action>)
    requires v.proc.phase == LoopHead(0) || v.proc.phase == Creating
    requires RunProc(cfg, v, actions).Some?
    ensures SettledAlong(cfg, v, actions) <= Range(v.proc.resumeFrom, cfg.end)
    ensures |SettledAlong(cfg, v, actions)| == HowMany(actions, IsSettle)
  {
    SettledOnce(cfg, v, actions);
    var settled := SettledAlong(cfg, v, actions);
    forall x | x in settled ensures x in Range(v.proc.resumeFrom, cfg.end) {
      assert StillToDo(cfg, v.proc, x);
    }
  }

  // Before it has loaded the row a process can only load it, or be told to stop.
  lemma FirstStep(cfg: Config, v: View, a: Action)
    requires Fresh(cfg, v.proc) && Act(cfg, v, a).Some?
    ensures var v' := Act(cfg, v, a).value;
            && SettledBy(v, a) == {} && !a.SettleTask? && Loaded(cfg, v').resumeFrom == Loaded(cfg, v).resumeFrom
            && if a.Load?
               then (v'.proc.phase == LoopHead(0) || v'.proc.phase == Creating)
                    && v'.proc.resumeFrom == Loaded(cfg, v).resumeFrom
               else Fresh(cfg, v'.proc)
  {
  }

  lemma {:induction false} OnceFromTheStart(cfg: Config, v: View, actions: seq<Action>)
    requires Fresh(cfg, v.proc) && RunProc(cfg, v, actions).Some?
    ensures SettledAlong(cfg, v, actions) <= Range(Loaded(cfg, v).resumeFrom, cfg.end)
    ensures |SettledAlong(cfg, v, actions)| == HowMany(actions, IsSettle)
    decreases |actions|
  {
    if actions != [] {
      var v', rest := Act(cfg, v, actions[0]).value, actions[1..];
      FirstStep(cfg, v, actions[0]);
      if actions[0].Load? {
        OnceAfterLoading(cfg, v', rest);
      } else {
        OnceFromTheStart(cfg, v', rest);
      }
      assert SettledAlong(cfg, v, actions) == SettledAlong(cfg, v', rest);
      assert HowMany(actions, IsSettle) == HowMany(rest, IsSettle);
    }
  }

  // Without a signal as many tasks are settled as there are ledgers left.
  lemma AllSettle(cfg: Config, v: View, actions: seq<Action>)
    requires cfg.Valid() && cfg.concurrency >= 1 && v.proc == NewProc(cfg) && Signal !in actions
    requires RunProc(cfg, v, actions).Some? && RunProc(cfg, v, actions).value.proc.phase.Returned?
    ensures HowMany(actions, IsSettle) == SequenceCount(cfg, Loaded(cfg, v))
  {
    assert actions[0].Load? && Act(cfg, v, actions[0]) == Some(LoadStep(v));
    RunAhead(cfg, LoadStep(v), actions[1..]);
  }

  lemma SequencesSize(cfg: Config, p: Proc)
    ensures |Range(p.resumeFrom, cfg.end)| == SequenceCount(cfg, p)
  {
    if p.resumeFrom <= cfg.end {
      RangeSize(p.resumeFrom, cfg.end);
    } else {
      assert Range(p.resumeFrom, cfg.end) == {};
    }
  }

  // Main result 10. A process settles no ledger twice and none outside its range; if it returns without a signal and
  // has a worker, it has settled every ledger from its resume point to the end.
  lemma EachLedgerOnce(cfg: Config, v: View, actions: seq<Action>)
    requires cfg.Valid() && v.proc == NewProc(cfg) && RunProc(cfg, v, actions).Some?
    ensures SettledAlong(cfg, v, actions) <= Range(Loaded(cfg, v).resumeFrom, cfg.end)
    ensures |SettledAlong(cfg, v, actions)| == HowMany(actions, IsSettle)
    ensures RunProc(cfg, v, actions).value.proc.phase.Returned? && Signal !in actions && cfg.concurrency >= 1 ==>
              SettledAlong(cfg, v, actions) == Range(Loaded(cfg, v).resumeFrom, cfg.end)
  {
    OnceFromTheStart(cfg, v, actions);
    if RunProc(cfg, v, actions).value.proc.phase.Returned? && Signal !in actions && cfg.concurrency >= 1 {
      AllSettle(cfg, v, actions);
      SequencesSize(cfg, Loaded(cfg, v));
      WholeSet(SettledAlong(cfg, v, actions), Range(Loaded(cfg, v).resumeFrom, cfg.end));
    }
  }

  // ----- A second run -----

  predicate LookupsSucceed(actions: seq<Action>) {
    forall i :: 0 <= i < |actions| && actions[i].Miss? ==> !actions[i].lookupFailed
  }

  predicate HoldsRange(cfg: Config, v: View) {
    forall x :: v.proc.resumeFrom <= x <= cfg.end ==> x in v.store
  }

  // Where everything is stored, a lookup that succeeds finds the ledger.
  lemma ActFinds(cfg: Config, v: View, a: Action)
    requires BatchFits(cfg, v.proc) && Started(v.proc) && PoolSound(v.proc) && HoldsRange(cfg, v)
    requires Act(cfg, v, a).Some? && (a.Miss? ==> !a.lookupFailed)
    ensures !a.Miss? && HoldsRange(cfg, Act(cfg, v, a).value)
    ensures !a.Commit? ==> Act(cfg, v, a).value.store == v.store
  {
  }

  lemma {:induction false} AllFound(cfg: Config, v: View, actions: seq<Action>)
    requires BatchFits(cfg, v.proc) && Started(v.proc) && PoolSound(v.proc) && HoldsRange(cfg, v)
    requires RunProc(cfg, v, actions).Some? && LookupsSucceed(actions)
    ensures HowMany(actions, IsMiss) == 0
    ensures HowMany(actions, IsCommit) == 0 ==> RunProc(cfg, v, actions).value.store == v.store
    decreases |actions|
  {
    if actions != [] {
      ActFits(cfg, v, actions[0]);
      ActSound(cfg, v, actions[0]);
      ActFinds(cfg, v, actions[0]);
      assert forall i :: 0 <= i < |actions[1..]| ==> actions[1..][i] == actions[i + 1];
      AllFound(cfg, Act(cfg, v, actions[0]).value, actions[1..]);
    }
  }

  // Main result 11. Where everything from the resume point on is stored and no lookup fails, a run writes nothing: it
  // skips every ledger, processes and fails none, and leaves the table as it was.
  lemma SecondRunSkipsAll(cfg: Config, v: View, actions: seq<Action>)
    requires cfg.Valid() && cfg.concurrency >= 1 && v.proc == NewProc(cfg) && HoldsRange(cfg, LoadStep(v))
    requires Signal !in actions && LookupsSucceed(actions)
    requires RunProc(cfg, v, actions).Some? && RunProc(cfg, v, actions).value.proc.phase.Returned?
    ensures var v' := RunProc(cfg, v, actions).value;
            && v'.store == v.store
            && v'.proc.skipped == Resumed(v.row, Skipped) + SequenceCount(cfg, Loaded(cfg, v))
            && v'.proc.processed == Resumed(v.row, Processed) && v'.proc.failed == Resumed(v.row, Rejected)
  {
    CountsOfReturned(cfg, v, actions);
    AllSettle(cfg, v, actions);
    SettlesAddUp(actions);
    assert forall i :: 0 <= i < |actions[1..]| ==> actions[1..][i] == actions[i + 1];
    assert actions[0].Load? && Act(cfg, v, actions[0]) == Some(LoadStep(v));
    AllFound(cfg, LoadStep(v), actions[1..]);
  }

  lemma {:induction false} SettlesAddUp(actions: seq<Action>)
    ensures HowMany(actions, IsSettle)
         == HowMany(actions, Settles(Processed)) + HowMany(actions, Settles(Skipped))
            + HowMany(actions, Settles(Rejected))
    decreases |actions|
  {
    if actions != [] {
      SettlesAddUp(actions[1..]);
      if actions[0].SettleTask? {
        match actions[0].outcome
        case Processed =>
        case Skipped =>
        case Rejected =>
      }
    }
  }

  // ----- A crash loses one batch -----

  // The tasks of the batch a process is in that have not settled; of the next batch, in front of it.
  function Unsaved(cfg: Config, p: Proc): int {
    match p.phase
    case InBatch(_, pool) => Unfilled(pool.results)
    case Loading => cfg.batchSize
    case Creating => cfg.batchSize
    case LoopHead(_) => cfg.batchSize
    case _ => 0
  }

  lemma {:induction false} AtMostAll(results: seq<Option<Outcome>>)
    ensures CountOf(results, Processed) + CountOf(results, Skipped) + CountOf(results, Rejected) <= |results|
    decreases |results|
  {
    if results != [] {
      AtMostAll(results[..|results| - 1]);
    }
  }

  lemma WorkerUnsaved(cfg: Config, v: View, a: Action)
    requires v.proc.phase.InBatch? && PoolInv(v.proc.phase.pool, v.proc.aborted) && WorkerStep(cfg, v, a).Some?
    ensures Unsaved(cfg, WorkerStep(cfg, v, a).value.proc) + One(a, IsSettle) == Unsaved(cfg, v.proc)
  {
    UnfilledMoves(v.store, v.proc.resumeFrom + v.proc.phase.batchStart, v.proc.aborted, v.proc.phase.pool, a);
  }

  lemma ActUnsaved(cfg: Config, v: View, a: Action)
    requires PoolSound(v.proc) && !a.Save? && Act(cfg, v, a).Some?
    ensures Unsaved(cfg, Act(cfg, v, a).value.proc) + One(a, IsSettle) <= Unsaved(cfg, v.proc)
  {
    if IsWorkers(a) {
      assert Act(cfg, v, a) == WorkerStep(cfg, v, a);
      WorkerUnsaved(cfg, v, a);
    } else if a.Tally? {
      AtMostAll(v.proc.phase.pool.results);
    } else if a.Enter? {
      EnterUnsaved(cfg, v.proc);
    }
  }

  lemma EnterUnsaved(cfg: Config, p: Proc)
    requires p.phase.LoopHead?
    ensures Unsaved(cfg, EnterStep(cfg, p)) <= cfg.batchSize
  {
    var p' := EnterStep(cfg, p);
    if p'.phase.InBatch? {
      UnfilledNew(p'.phase.pool.results);
    }
  }

  // From any loop head to the next save at most a batch of tasks settles: that is what a crash makes a restart redo.
  lemma {:induction false} OneBatchBetweenSaves(cfg: Config, v: View, actions: seq<Action>)
    requires RunProc(cfg, v, actions).Some? && PoolSound(v.proc) && Save !in actions
    ensures v.proc.phase.LoopHead? ==> HowMany(actions, IsSettle) <= cfg.batchSize
    ensures HowMany(actions, IsSettle) <= Unsaved(cfg, v.proc)
    decreases |actions|
  {
    NonNegative(cfg, v.proc);
    if actions != [] {
      ActUnsaved(cfg, v, actions[0]);
      ActSound(cfg, v, actions[0]);
      OneBatchBetweenSaves(cfg, Act(cfg, v, actions[0]).value, actions[1..]);
    }
  }

  lemma NonNegative(cfg: Config, p: Proc)
    ensures Unsaved(cfg, p) >= 0
  {
    if p.phase.InBatch? {
      AtMostAll(p.phase.pool.results);
    }
  }

  // ----- The row of an undisturbed process -----

  predicate SameCounts(r: Row, p: Proc) {
    r.processed == p.processed && r.skipped == p.skipped && r.failed == p.failed
  }

  // A row that was created or recreated has no error from an earlier process.
  predicate NoError(row: Option<Row>, v: View) {
    v.row.Some? && (!Resumes(row) ==> v.row.value.error.None?)
  }

  // The row of the job as the process has left it; `row` is what the process found.
  predicate RowStands(cfg: Config, row: Option<Row>, v: View) {
    var p := v.proc;
    match p.phase
    case Loading => v.row == row && Fresh(cfg, p)
    case Creating => v.row == row && !Resumes(row) && p.processed == p.skipped == p.failed == 0
    case LoopHead(b) => RowInProgress(cfg, row, v, b)
    case InBatch(b, _) =>
      NoError(row, v) && v.row.value.status.InProgress? && b < SequenceCount(cfg, p)
    case Saving(b) =>
      NoError(row, v) && v.row.value.status.InProgress? && b < SequenceCount(cfg, p)
    case Cancelling(b) => RowInProgress(cfg, row, v, b) && b < SequenceCount(cfg, p)
    case Marking => NoError(row, v)
    case Returned =>
      && v.row.Some? && SameCounts(v.row.value, p)
      && v.row.value.status == (if p.lastFailed.None? then Status.Completed else Failed)
      && v.row.value.last == Some(if p.lastFailed.None? || p.resumeFrom <= cfg.end then cfg.end else p.resumeFrom - 1)
      && (p.lastFailed.Some? ==> v.row.value.error == Some(FailureMessage(p.failed, p.lastFailed.value)))
      && (p.lastFailed.None? ==> NoError(row, v))
  }

  // Between two batches the row shows the counts and the last ledger done, if a batch or an earlier process saved it.
  predicate RowInProgress(cfg: Config, row: Option<Row>, v: View, b: nat) {
    && NoError(row, v) && v.row.value.status.InProgress?
    && (b > 0 || Resumes(row) ==>
          && SameCounts(v.row.value, v.proc)
          && (b < SequenceCount(cfg, v.proc) || b == 0 ==> v.row.value.last == Some(v.proc.resumeFrom + b - 1)))
    && (b == 0 && !Resumes(row) ==> v.proc.processed == v.proc.skipped == v.proc.failed == 0)
  }

  lemma BatchRowStands(cfg: Config, row: Option<Row>, v: View, a: Action)
    requires cfg.Valid() && RowStands(cfg, row, v) && Act(cfg, v, a).Some?
    requires IsWorkers(a) || a.Tally? || a.Enter? || a.Signal?
    ensures RowStands(cfg, row, Act(cfg, v, a).value)
  {
  }

  lemma WriteRowStands(cfg: Config, row: Option<Row>, v: View, a: Action)
    requires cfg.Valid() && RowStands(cfg, row, v) && Act(cfg, v, a).Some?
    requires !(IsWorkers(a) || a.Tally? || a.Enter? || a.Signal?)
    ensures RowStands(cfg, row, Act(cfg, v, a).value)
  {
  }

  lemma ActRowStands(cfg: Config, row: Option<Row>, v: View, a: Action)
    requires cfg.Valid() && RowStands(cfg, row, v) && Act(cfg, v, a).Some?
    ensures RowStands(cfg, row, Act(cfg, v, a).value)
  {
    if IsWorkers(a) || a.Tally? || a.Enter? || a.Signal? {
      BatchRowStands(cfg, row, v, a);
    } else {
      WriteRowStands(cfg, row, v, a);
    }
  }

  lemma {:induction false} RunRowStands(cfg: Config, row: Option<Row>, v: View, actions: seq<Action>)
    requires cfg.Valid() && RowStands(cfg, row, v) && RunProc(cfg, v, actions).Some?
    ensures RowStands(cfg, row, RunProc(cfg, v, actions).value)
    decreases |actions|
  {
    if actions != [] {
      ActRowStands(cfg, row, v, actions[0]);
      RunRowStands(cfg, row, Act(cfg, v, actions[0]).value, actions[1..]);
    }
  }

  // What an undisturbed process leaves when it returns: its own counts, the end of its range, a status that tells
  // whether it had failures.
  lemma RowOfReturned(cfg: Config, v: View, actions: seq<Action>)
    requires cfg.Valid() && Fresh(cfg, v.proc)
    requires RunProc(cfg, v, actions).Some? && RunProc(cfg, v, actions).value.proc.phase.Returned?
    ensures RowStands(cfg, v.row, RunProc(cfg, v, actions).value)
  {
    RunRowStands(cfg, v.row, v, actions);
  }

  // Cancelling changes the status only, once a batch or an earlier process has saved the position; before that it
  // writes zero counts and a position in front of the range, whatever an earlier row said.
  lemma CancelKeepsProgress(cfg: Config, v: View, actions: seq<Action>)
    requires cfg.Valid() && Fresh(cfg, v.proc)
    requires RunProc(cfg, v, actions).Some? && RunProc(cfg, v, actions).value.proc.phase.Cancelling?
    ensures var w := RunProc(cfg, v, actions).value;
            && Act(cfg, w, Cancel).Some? && w.row.Some?
            && var r := Act(cfg, w, Cancel).value.row;
               if w.proc.phase.batchStart > 0 || Resumes(v.row)
               then r == Some(w.row.value.(status := Cancelled))
               else r == Some(w.row.value.(status := Cancelled, last := Some(w.proc.resumeFrom - 1),
                                           processed := 0, skipped := 0, failed := 0))
  {
    RunRowStands(cfg, v.row, v, actions);
  }
}
