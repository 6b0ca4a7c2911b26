/**
 The resumable backfill of indexer/src/backfill.ts as a step machine: any number of processes working on one
 job, each with its own worker pool, over one ledger table and one checkpoint row. A process may disappear at
 any step; a cancellation signal may arrive at any step; other writers may add ledgers at any step.
 */
module BackfillSystem {
  import opened Wrappers
  import opened Decimal
  import opened WorkerPool
  import opened Checkpoint

  // `abortable`: SIGINT or SIGTERM may reach a process of this job.
  datatype Config = Config(network: string, start: int, end: int, batchSize: nat, concurrency: int, abortable: bool) {
    // What runBackfill demands: it throws on start > end; the configuration rejects a batch size below 1.
    predicate Valid() { start <= end && batchSize >= 1 }
  }

  // processOneLedger: looking the ledger up; found it; fetching and writing; committed.
  datatype Stage = Checking | Found | Writing | Committed

  datatype Outcome = Processed | Skipped | Rejected

  type LedgerPool = Pool<Stage, Outcome>

  datatype Phase =
    | Loading
    | Creating
    | LoopHead(batchStart: nat)
    | InBatch(batchStart: nat, pool: LedgerPool)
    | Saving(batchStart: nat)
    | Cancelling(batchStart: nat)
    | Marking
    | Returned

  // The local variables of runBackfill.
  datatype Proc = Proc(phase: Phase, resumeFrom: int, processed: nat, skipped: nat, failed: nat,
                       lastFailed: Option<int>, aborted: bool)

  datatype Action =
    | Load | Create | Enter
    | ClaimTask(w: nat) | Hit(w: nat) | Miss(w: nat, lookupFailed: bool)
    | Commit(w: nat) | SettleTask(w: nat, outcome: Outcome)
    | Leave(w: nat)
    | Tally | Save | Cancel | Mark | Signal

  // What one process sees: the two tables and its own variables.
  datatype View = View(store: set<int>, row: Option<Row>, proc: Proc)

  function SequenceCount(cfg: Config, p: Proc): nat {
    Max(0, cfg.end - p.resumeFrom + 1)
  }

  function BatchLength(cfg: Config, p: Proc, batchStart: nat): nat
    requires batchStart < SequenceCount(cfg, p)
  {
    Min(cfg.batchSize, SequenceCount(cfg, p) - batchStart)
  }

  function ProgressOf(p: Proc, last: int): Progress {
    Progress(Some(last), p.processed, p.skipped, p.failed)
  }

  // How processOneLedger can settle from each of its stages. A failed lookup counts as a miss, so Checking
  // never rejects; a commit whose acknowledgement is lost rejects although the ledger is stored.
  predicate CanSettle(stage: Stage, outcome: Outcome) {
    match stage
    case Checking => false
    case Found => outcome.Skipped?
    case Writing => outcome.Rejected?
    case Committed => outcome.Processed? || outcome.Rejected?
  }

  function CountOf(results: seq<Option<Outcome>>, o: Outcome): nat {
    if results == [] then 0
    else CountOf(results[..|results| - 1], o) + (if results[|results| - 1] == Some(o) then 1 else 0)
  }

  // The last rejected sequence of a batch starting at `first`, or `previous` if the batch has none.
  function LastRejected(results: seq<Option<Outcome>>, first: int, previous: Option<int>): Option<int> {
    if results == [] then previous
    else if results[|results| - 1] == Some(Rejected) then Some(first + |results| - 1)
    else LastRejected(results[..|results| - 1], first, previous)
  }

  function Tallied(cfg: Config, p: Proc, batchStart: nat, results: seq<Option<Outcome>>): Proc {
    p.(phase := Saving(batchStart),
       processed := p.processed + CountOf(results, Processed),
       skipped := p.skipped + CountOf(results, Skipped),
       failed := p.failed + CountOf(results, Rejected),
       lastFailed := LastRejected(results, p.resumeFrom + batchStart, p.lastFailed))
  }

  function FailureMessage(failed: nat, lastFailed: int): string {
    "Backfill completed with " + PrintInt(failed) + " failed ledger(s). Last failed: " + PrintInt(lastFailed)
  }

  function NewProc(cfg: Config): Proc {
    Proc(Loading, cfg.start, 0, 0, 0, None, false)
  }

  function LoadStep(v: View): View {
    match v.row
    case Some(r) =>
      if r.status.InProgress? && r.last.Some? then
        v.(proc := v.proc.(phase := LoopHead(0), resumeFrom := r.last.value + 1,
                           processed := r.processed, skipped := r.skipped, failed := r.failed))
      else v.(proc := v.proc.(phase := Creating))
    case None => v.(proc := v.proc.(phase := Creating))
  }

  function EnterStep(cfg: Config, p: Proc): Proc
    requires p.phase.LoopHead?
  {
    var b := p.phase.batchStart;
    if b >= SequenceCount(cfg, p) then p.(phase := Marking)
    else if p.aborted then p.(phase := Cancelling(b))
    else p.(phase := InBatch(b, NewPool(BatchLength(cfg, p, b), cfg.concurrency)))
  }

  function MarkStep(cfg: Config, v: View): View {
    var p := v.proc;
    var n := SequenceCount(cfg, p);
    var row :=
      if p.lastFailed.Some? then
        UpdateRow(v.row, r => FailRow(r, FailureMessage(p.failed, p.lastFailed.value),
          ProgressOf(p, if n > 0 then p.resumeFrom + n - 1 else p.resumeFrom - 1)))
      else
        UpdateRow(v.row, r => CompleteRow(r, ProgressOf(p, cfg.end)));
    v.(row := row, proc := p.(phase := Returned))
  }

  predicate InStage(p: LedgerPool, w: nat, stage: Stage) {
    IsRunning(p, w) && p.workers[w].stage == stage
  }

  // One step of worker w inside a batch whose first sequence is `first`.
  function PoolStep(store: set<int>, first: int, aborted: bool, pool: LedgerPool, a: Action): Option<LedgerPool> {
    match a
    case ClaimTask(w) => if CanClaim(pool, w, aborted) then Some(Claim(pool, w, Checking)) else None
    case Hit(w) =>
      if InStage(pool, w, Checking) && first + pool.workers[w].index in store
      then Some(Advance(pool, w, Found)) else None
    case Miss(w, lookupFailed) =>
      if InStage(pool, w, Checking) && (lookupFailed || first + pool.workers[w].index !in store)
      then Some(Advance(pool, w, Writing)) else None
    case Commit(w) => if InStage(pool, w, Writing) then Some(Advance(pool, w, Committed)) else None
    case SettleTask(w, outcome) =>
      if IsRunning(pool, w) && CanSettle(pool.workers[w].stage, outcome) then Some(Settle(pool, w, outcome)) else None
    case Leave(w) => if CanExit(pool, w, aborted) then Some(Exit(pool, w)) else None
    case _ => None
  }

  // Only a commit changes the ledger table.
  function StoreAfter(store: set<int>, first: int, pool: LedgerPool, a: Action): set<int> {
    if a.Commit? && IsRunning(pool, a.w) then store + {first + pool.workers[a.w].index} else store
  }

  function WorkerStep(cfg: Config, v: View, a: Action): Option<View>
    requires v.proc.phase.InBatch?
  {
    var b, pool := v.proc.phase.batchStart, v.proc.phase.pool;
    var first := v.proc.resumeFrom + b;
    match PoolStep(v.store, first, v.proc.aborted, pool, a)
    case None => None
    case Some(pool') =>
      Some(v.(store := StoreAfter(v.store, first, pool, a), proc := v.proc.(phase := InBatch(b, pool'))))
  }

  // A step of one of the workers of a batch.
  predicate IsWorkers(a: Action) {
    a.ClaimTask? || a.Hit? || a.Miss? || a.Commit? || a.SettleTask? || a.Leave?
  }

  // One atomic step of one process.
  function Act(cfg: Config, v: View, a: Action): Option<View> {
    var p := v.proc;
    match a
    case Signal => if cfg.abortable then Some(v.(proc := p.(aborted := true))) else None
    case Load => if p.phase.Loading? then Some(LoadStep(v)) else None
    case Create =>
      if p.phase.Creating?
      then Some(v.(row := Some(CreateRow(v.row, cfg.network, cfg.start, cfg.end)), proc := p.(phase := LoopHead(0))))
        else None
    case Enter => if p.phase.LoopHead? then Some(v.(proc := EnterStep(cfg, p))) else None
    case Tally =>
      if p.phase.InBatch? && AllExited(p.phase.pool)
      then Some(v.(proc := Tallied(cfg, p, p.phase.batchStart, p.phase.pool.results))) else None
    case Save =>
      if p.phase.Saving? && p.phase.batchStart < SequenceCount(cfg, p) then
        var b := p.phase.batchStart;
        var last := p.resumeFrom + b + BatchLength(cfg, p, b) - 1;
        Some(v.(row := UpdateRow(v.row, r => SaveRow(r, ProgressOf(p, last))),
                proc := p.(phase := LoopHead(b + cfg.batchSize))))
      else None
    case Cancel =>
      if p.phase.Cancelling? then
        var b := p.phase.batchStart;
        var last := if b > 0 then p.resumeFrom + b - 1 else p.resumeFrom - 1;
        Some(v.(row := UpdateRow(v.row, r => CancelRow(r, ProgressOf(p, last))), proc := p.(phase := Marking)))
      else None
    case Mark => if p.phase.Marking? then Some(MarkStep(cfg, v)) else None
    case _ => if p.phase.InBatch? then WorkerStep(cfg, v, a) else None
  }

  // ----- The whole system -----

  datatype State = State(store: set<int>, row: Option<Row>, procs: map<nat, Proc>)

  // Gone: the process crashes, throws, or exits after it returned. Ingest: another writer stores a ledger.
  datatype Step = Spawn(pid: nat) | Gone(pid: nat) | Ingest(sequence: int) | Do(pid: nat, action: Action)

  function Apply(cfg: Config, s: State, step: Step): Option<State> {
    match step
    case Spawn(pid) => if pid in s.procs then None else Some(s.(procs := s.procs[pid := NewProc(cfg)]))
    case Gone(pid) => if pid in s.procs then Some(s.(procs := s.procs - {pid})) else None
    case Ingest(sequence) => Some(s.(store := s.store + {sequence}))
    case Do(pid, action) =>
      if pid !in s.procs then None
      else match Act(cfg, View(s.store, s.row, s.procs[pid]), action)
        case None => None
        case Some(v) => Some(State(v.store, v.row, s.procs[pid := v.proc]))
  }

  function Run(cfg: Config, s: State, steps: seq<Step>): Option<State>
    decreases |steps|
  {
    if steps == [] then Some(s)
    else match Apply(cfg, s, steps[0])
      case None => None
      case Some(s') => Run(cfg, s', steps[1..])
  }

  function Initial(store: set<int>): State {
    State(store, None, map[])
  }

  lemma {:induction false} RunAppend(cfg: Config, s: State, xs: seq<Step>, ys: seq<Step>)
    requires Run(cfg, s, xs).Some?
    ensures Run(cfg, s, xs + ys) == Run(cfg, Run(cfg, s, xs).value, ys)
    decreases |xs|
  {
    if xs == [] {
      assert xs + ys == ys;
    } else {
      assert (xs + ys)[0] == xs[0] && (xs + ys)[1..] == xs[1..] + ys;
      RunAppend(cfg, Apply(cfg, s, xs[0]).value, xs[1..], ys);
    }
  }

  // ----- Runs of one process -----

  function RunProc(cfg: Config, v: View, actions: seq<Action>): Option<View>
    decreases |actions|
  {
    if actions == [] then Some(v)
    else match Act(cfg, v, actions[0])
      case None => None
      case Some(v') => RunProc(cfg, v', actions[1..])
  }

  lemma {:induction false} RunProcSnoc(cfg: Config, v: View, actions: seq<Action>, a: Action)
    requires RunProc(cfg, v, actions).Some? && Act(cfg, RunProc(cfg, v, actions).value, a).Some?
    ensures RunProc(cfg, v, actions + [a]) == Act(cfg, RunProc(cfg, v, actions).value, a)
    decreases |actions|
  {
    if actions == [] {
      assert actions + [a] == [a] && [a][1..] == [];
      assert RunProc(cfg, Act(cfg, v, a).value, []) == Act(cfg, v, a);
    } else {
      assert (actions + [a])[0] == actions[0] && (actions + [a])[1..] == actions[1..] + [a];
      RunProcSnoc(cfg, Act(cfg, v, actions[0]).value, actions[1..], a);
    }
  }

  lemma {:induction false} RunProcAppend(cfg: Config, v: View, xs: seq<Action>, ys: seq<Action>)
    requires RunProc(cfg, v, xs).Some?
    ensures RunProc(cfg, v, xs + ys) == RunProc(cfg, RunProc(cfg, v, xs).value, ys)
    decreases |xs|
  {
    if xs == [] {
      assert xs + ys == ys;
    } else {
      assert (xs + ys)[0] == xs[0] && (xs + ys)[1..] == xs[1..] + ys;
      RunProcAppend(cfg, Act(cfg, v, xs[0]).value, xs[1..], ys);
    }
  }

  // A run of one process is a run of the system in which only that process moves.
  lemma {:induction false} RunProcIsRun(cfg: Config, s: State, pid: nat, actions: seq<Action>)
    requires pid in s.procs && RunProc(cfg, View(s.store, s.row, s.procs[pid]), actions).Some?
    ensures var v := RunProc(cfg, View(s.store, s.row, s.procs[pid]), actions).value;
            Run(cfg, s, seq(|actions|, i requires 0 <= i < |actions| => Do(pid, actions[i])))
            == Some(State(v.store, v.row, s.procs[pid := v.proc]))
    decreases |actions|
  {
    var steps := seq(|actions|, i requires 0 <= i < |actions| => Do(pid, actions[i]));
    if actions == [] {
      assert s.procs[pid := s.procs[pid]] == s.procs;
    } else {
      var v' := Act(cfg, View(s.store, s.row, s.procs[pid]), actions[0]).value;
      var s' := State(v'.store, v'.row, s.procs[pid := v'.proc]);
      assert steps[0] == Do(pid, actions[0]);
      assert steps[1..] == seq(|actions[1..]|, i requires 0 <= i < |actions[1..]| => Do(pid, actions[1..][i]));
      RunProcIsRun(cfg, s', pid, actions[1..]);
      assert s.procs[pid := v'.proc][pid := RunProc(cfg, v', actions[1..]).value.proc]
          == s.procs[pid := RunProc(cfg, v', actions[1..]).value.proc];
    }
  }
}
