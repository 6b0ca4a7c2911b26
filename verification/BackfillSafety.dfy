/**
 What every step of the backfill system keeps, and what a checkpoint row therefore tells about the ledger table.
 */
module BackfillSafety {
  import opened Wrappers
  import opened WorkerPool
  import opened Checkpoint
  import opened BackfillSystem

  // ----- Counting stored ledgers of [lo, hi) -----

  function StoredCount(store: set<int>, lo: int, hi: int): (c: nat)
    ensures c <= Max(0, hi - lo)
    decreases Max(0, hi - lo)
  {
    if hi <= lo then 0 else StoredCount(store, lo, hi - 1) + (if hi - 1 in store then 1 else 0)
  }

  // The ledgers of [lo, hi) that the table lacks.
  function MissingCount(store: set<int>, lo: int, hi: int): nat {
    Max(0, hi - lo) - StoredCount(store, lo, hi)
  }

  predicate AllStored(store: set<int>, lo: int, hi: int) {
    forall k :: lo <= k < hi ==> k in store
  }

  lemma {:induction false} StoredCountMonotone(store: set<int>, bigger: set<int>, lo: int, hi: int)
    requires store <= bigger
    ensures StoredCount(store, lo, hi) <= StoredCount(bigger, lo, hi)
    decreases hi - lo
  {
    if lo < hi {
      StoredCountMonotone(store, bigger, lo, hi - 1);
    }
  }

  lemma {:induction false} StoredCountSplit(store: set<int>, lo: int, mid: int, hi: int)
    requires lo <= mid <= hi
    ensures StoredCount(store, lo, hi) == StoredCount(store, lo, mid) + StoredCount(store, mid, hi)
    decreases hi - mid
  {
    if mid < hi {
      StoredCountSplit(store, lo, mid, hi - 1);
    }
  }

  lemma {:induction false} AllStoredIffNoneMissing(store: set<int>, lo: int, hi: int)
    ensures MissingCount(store, lo, hi) == 0 <==> AllStored(store, lo, hi)
    decreases hi - lo
  {
    if lo < hi {
      AllStoredIffNoneMissing(store, lo, hi - 1);
      assert AllStored(store, lo, hi) <==> AllStored(store, lo, hi - 1) && hi - 1 in store;
    }
  }

  // MissingCount is the size of the set of missing ledgers.
  lemma {:induction false} MissingCountIsCardinality(store: set<int>, lo: int, hi: int)
    ensures |set k | lo <= k < hi && k !in store| == MissingCount(store, lo, hi)
    decreases hi - lo
  {
    var missing := set k | lo <= k < hi && k !in store;
    if lo < hi {
      MissingCountIsCardinality(store, lo, hi - 1);
      var fewer := set k | lo <= k < hi - 1 && k !in store;
      assert missing == if hi - 1 in store then fewer else fewer + {hi - 1};
    } else {
      assert missing == {};
    }
  }

  // ----- The invariant -----

  // Counts that describe the ledgers of [start, upto): no more successes than stored ledgers, no more
  // outcomes than ledgers.
  ghost predicate Accounted(store: set<int>, start: int, upto: int, processed: nat, skipped: nat, failed: nat) {
    && start <= upto
    && processed + skipped <= StoredCount(store, start, upto)
    && processed + skipped + failed <= upto - start
  }

  ghost predicate RowOk(cfg: Config, store: set<int>, r: Row) {
    && r.start == cfg.start && r.end == cfg.end && r.total == cfg.end - cfg.start + 1
    && (r.last.Some? ==>
          r.last.value <= cfg.end && Accounted(store, cfg.start, r.last.value + 1, r.processed, r.skipped, r.failed))
    && (r.last.None? ==> r.processed == r.skipped == r.failed == 0)
  }

  // Outcomes so far belong to stored ledgers, and so do the stages that will report success.
  ghost predicate BatchOk(store: set<int>, first: int, pool: LedgerPool) {
    && (forall i: nat ::
          i < |pool.results| && (pool.results[i] == Some(Processed) || pool.results[i] == Some(Skipped)) ==>
            first + i in store)
    && (forall w ::
          0 <= w < |pool.workers| && pool.workers[w].Running?
          && (pool.workers[w].stage.Found? || pool.workers[w].stage.Committed?) ==>
            first + pool.workers[w].index in store)
  }

  // The first sequence the counts of a process do not speak about yet.
  function Frontier(cfg: Config, p: Proc): int {
    var n := SequenceCount(cfg, p);
    match p.phase
    case Loading => p.resumeFrom
    case Creating => p.resumeFrom
    case LoopHead(b) => p.resumeFrom + Min(b, n)
    case InBatch(b, _) => p.resumeFrom + Min(b, n)
    case Cancelling(b) => p.resumeFrom + Min(b, n)
    case Saving(b) => p.resumeFrom + Min(b + cfg.batchSize, n)
    case Marking => p.resumeFrom + n
    case Returned => p.resumeFrom + n
  }

  ghost predicate ProcOk(cfg: Config, store: set<int>, p: Proc) {
    && cfg.start <= p.resumeFrom <= cfg.end + 1
    && Accounted(store, cfg.start, Frontier(cfg, p), p.processed, p.skipped, p.failed)
    && (p.phase.Loading? || p.phase.Creating? ==> p.resumeFrom == cfg.start && p.lastFailed.None?)
    && (p.phase.Saving? || p.phase.Cancelling? ==> p.phase.batchStart < SequenceCount(cfg, p))
    && (p.phase.InBatch? ==>
          var b, pool := p.phase.batchStart, p.phase.pool;
          && b < SequenceCount(cfg, p)
          && |pool.results| == BatchLength(cfg, p, b)
          && |pool.workers| == PoolSize(cfg.concurrency, |pool.results|)
          && PoolInv(pool, p.aborted)
          && BatchOk(store, p.resumeFrom + b, pool))
  }

  ghost predicate StateOk(cfg: Config, s: State) {
    && (s.row.Some? ==> RowOk(cfg, s.store, s.row.value))
    && (forall pid :: pid in s.procs ==> ProcOk(cfg, s.store, s.procs[pid]))
  }

  lemma AccountedGrows(store: set<int>, bigger: set<int>, start: int, upto: int, upto': int, processed: nat,
                       skipped: nat, failed: nat)
    requires Accounted(store, start, upto, processed, skipped, failed) && store <= bigger && upto <= upto'
    ensures Accounted(bigger, start, upto', processed, skipped, failed)
  {
    StoredCountMonotone(store, bigger, start, upto);
    StoredCountSplit(bigger, start, upto, upto');
  }

  lemma RowOkGrows(cfg: Config, store: set<int>, bigger: set<int>, r: Row)
    requires RowOk(cfg, store, r) && store <= bigger
    ensures RowOk(cfg, bigger, r)
  {
    if r.last.Some? {
      AccountedGrows(store, bigger, cfg.start, r.last.value + 1, r.last.value + 1, r.processed, r.skipped, r.failed);
    }
  }

  lemma ProcOkGrows(cfg: Config, store: set<int>, bigger: set<int>, p: Proc)
    requires ProcOk(cfg, store, p) && store <= bigger
    ensures ProcOk(cfg, bigger, p)
  {
    var f := Frontier(cfg, p);
    AccountedGrows(store, bigger, cfg.start, f, f, p.processed, p.skipped, p.failed);
  }

  // ----- One batch -----

  // The outcomes of a batch, counted, stay within what the table holds of the batch's ledgers.
  lemma {:induction false} TallyAccounted(store: set<int>, first: int, results: seq<Option<Outcome>>)
    requires forall i: nat :: i < |results| && (results[i] == Some(Processed) || results[i] == Some(Skipped)) ==>
             first + i in store
    ensures CountOf(results, Processed) + CountOf(results, Skipped) <= StoredCount(store, first, first + |results|)
    ensures CountOf(results, Processed) + CountOf(results, Skipped) + CountOf(results, Rejected) <= |results|
    decreases |results|
  {
    if results != [] {
      var prefix := results[..|results| - 1];
      assert forall i :: 0 <= i < |prefix| ==> prefix[i] == results[i];
      TallyAccounted(store, first, prefix);
      assert first + |results| - 1 == first + |prefix|;
    }
  }

  // A process in a batch stays in order when its pool does.
  lemma InBatchOk(cfg: Config, store: set<int>, bigger: set<int>, p: Proc, pool: LedgerPool)
    requires p.phase.InBatch? && ProcOk(cfg, store, p) && store <= bigger
    requires |pool.results| == |p.phase.pool.results| && |pool.workers| == |p.phase.pool.workers|
    requires PoolInv(pool, p.aborted) && BatchOk(bigger, p.resumeFrom + p.phase.batchStart, pool)
    ensures ProcOk(cfg, bigger, p.(phase := InBatch(p.phase.batchStart, pool)))
  {
    ProcOkGrows(cfg, store, bigger, p);
  }

  lemma PoolStepKeepsInv(store: set<int>, first: int, aborted: bool, pool: LedgerPool, a: Action)
    requires PoolInv(pool, aborted) && PoolStep(store, first, aborted, pool, a).Some?
    ensures PoolInv(PoolStep(store, first, aborted, pool, a).value, aborted)
  {
    match a
    case ClaimTask(w) => ClaimKeepsInv(pool, w, Checking, aborted);
    case Hit(w) => AdvanceKeepsInv(pool, w, Found, aborted);
    case Miss(w, _) => AdvanceKeepsInv(pool, w, Writing, aborted);
    case Commit(w) => AdvanceKeepsInv(pool, w, Committed, aborted);
    case SettleTask(w, outcome) => SettleKeepsInv(pool, w, outcome, aborted);
    case Leave(w) => ExitKeepsInv(pool, w, aborted);
  }

  lemma PoolStepKeepsBatch(store: set<int>, first: int, aborted: bool, pool: LedgerPool, a: Action)
    requires BatchOk(store, first, pool) && PoolStep(store, first, aborted, pool, a).Some?
    ensures var pool' := PoolStep(store, first, aborted, pool, a).value;
            && |pool'.results| == |pool.results| && |pool'.workers| == |pool.workers|
            && BatchOk(StoreAfter(store, first, pool, a), first, pool')
  {
  }

  lemma WorkerStepOk(cfg: Config, v: View, a: Action)
    requires v.proc.phase.InBatch? && ProcOk(cfg, v.store, v.proc) && WorkerStep(cfg, v, a).Some?
    ensures var v' := WorkerStep(cfg, v, a).value;
            v.store <= v'.store && v'.row == v.row && ProcOk(cfg, v'.store, v'.proc)
  {
    var p := v.proc;
    var pool, first := p.phase.pool, p.resumeFrom + p.phase.batchStart;
    PoolStepKeepsInv(v.store, first, p.aborted, pool, a);
    PoolStepKeepsBatch(v.store, first, p.aborted, pool, a);
    InBatchOk(cfg, v.store, StoreAfter(v.store, first, pool, a), p, PoolStep(v.store, first, p.aborted, pool, a).value);
  }

  lemma TallyOk(cfg: Config, store: set<int>, p: Proc)
    requires p.phase.InBatch? && ProcOk(cfg, store, p)
    ensures ProcOk(cfg, store, Tallied(cfg, p, p.phase.batchStart, p.phase.pool.results))
  {
    var b, results := p.phase.batchStart, p.phase.pool.results;
    var first := p.resumeFrom + b;
    assert Frontier(cfg, p) == first;
    assert Frontier(cfg, Tallied(cfg, p, b, results)) == first + |results|;
    TallyAccounted(store, first, results);
    StoredCountSplit(store, cfg.start, first, first + |results|);
  }

  lemma EnterOk(cfg: Config, store: set<int>, p: Proc)
    requires p.phase.LoopHead? && ProcOk(cfg, store, p)
    ensures ProcOk(cfg, store, EnterStep(cfg, p))
  {
    var b := p.phase.batchStart;
    if b < SequenceCount(cfg, p) && !p.aborted {
      NewPoolInv<Stage, Outcome>(BatchLength(cfg, p, b), cfg.concurrency);
      assert BatchOk(store, p.resumeFrom + b, NewPool(BatchLength(cfg, p, b), cfg.concurrency));
    }
  }

  ghost predicate ViewOk(cfg: Config, v: View) {
    && ProcOk(cfg, v.store, v.proc)
    && (v.row.Some? ==> RowOk(cfg, v.store, v.row.value))
  }

  lemma LoadOk(cfg: Config, v: View)
    requires cfg.Valid() && ViewOk(cfg, v) && Act(cfg, v, Load).Some?
    ensures Act(cfg, v, Load).value.store == v.store && ViewOk(cfg, Act(cfg, v, Load).value)
  {
  }

  lemma CreateOk(cfg: Config, v: View)
    requires cfg.Valid() && ViewOk(cfg, v) && Act(cfg, v, Create).Some?
    ensures Act(cfg, v, Create).value.store == v.store && ViewOk(cfg, Act(cfg, v, Create).value)
  {
  }

  lemma SaveOk(cfg: Config, v: View)
    requires cfg.Valid() && ViewOk(cfg, v) && Act(cfg, v, Save).Some?
    ensures Act(cfg, v, Save).value.store == v.store && ViewOk(cfg, Act(cfg, v, Save).value)
  {
  }

  lemma MarkOk(cfg: Config, v: View)
    requires cfg.Valid() && ViewOk(cfg, v) && Act(cfg, v, Mark).Some?
    ensures Act(cfg, v, Mark).value.store == v.store && ViewOk(cfg, Act(cfg, v, Mark).value)
  {
    assert Act(cfg, v, Mark) == Some(MarkStep(cfg, v));
    MarkStepOk(cfg, v);
  }

  lemma MarkStepOk(cfg: Config, v: View)
    requires cfg.Valid() && ViewOk(cfg, v) && v.proc.phase.Marking?
    ensures ViewOk(cfg, MarkStep(cfg, v))
  {
    var p := v.proc;
    assert Frontier(cfg, p) == p.resumeFrom + SequenceCount(cfg, p);
  }

  lemma CancelOk(cfg: Config, v: View)
    requires ViewOk(cfg, v) && Act(cfg, v, Cancel).Some?
    ensures Act(cfg, v, Cancel).value.store == v.store && ViewOk(cfg, Act(cfg, v, Cancel).value)
  {
    var p := v.proc;
    AccountedGrows(v.store, v.store, cfg.start, Frontier(cfg, p), p.resumeFrom + SequenceCount(cfg, p), p.processed,
      p.skipped, p.failed);
  }

  lemma ActOk(cfg: Config, v: View, a: Action)
    requires cfg.Valid() && ViewOk(cfg, v) && Act(cfg, v, a).Some?
    ensures v.store <= Act(cfg, v, a).value.store && ViewOk(cfg, Act(cfg, v, a).value)
  {
    if a.Load? {
      LoadOk(cfg, v);
    } else if a.Create? {
      CreateOk(cfg, v);
    } else if a.Save? {
      SaveOk(cfg, v);
    } else if a.Mark? {
      MarkOk(cfg, v);
    } else if a.Cancel? {
      CancelOk(cfg, v);
    } else if a.Enter? {
      EnterOk(cfg, v.store, v.proc);
    } else if a.Tally? {
      TallyOk(cfg, v.store, v.proc);
    } else if a.Signal? {
      assert ProcOk(cfg, v.store, v.proc.(aborted := true));
    } else {
      assert Act(cfg, v, a) == WorkerStep(cfg, v, a);
      WorkersOk(cfg, v, a);
    }
  }

  lemma WorkersOk(cfg: Config, v: View, a: Action)
    requires v.proc.phase.InBatch? && ViewOk(cfg, v) && WorkerStep(cfg, v, a).Some?
    ensures v.store <= WorkerStep(cfg, v, a).value.store && ViewOk(cfg, WorkerStep(cfg, v, a).value)
  {
    WorkerStepOk(cfg, v, a);
    if v.row.Some? {
      RowOkGrows(cfg, v.store, WorkerStep(cfg, v, a).value.store, v.row.value);
    }
  }

  lemma ApplyOk(cfg: Config, s: State, step: Step)
    requires cfg.Valid() && StateOk(cfg, s) && Apply(cfg, s, step).Some?
    ensures StateOk(cfg, Apply(cfg, s, step).value)
    ensures s.store <= Apply(cfg, s, step).value.store
  {
    var s' := Apply(cfg, s, step).value;
    match step
    case Spawn(pid) =>
    case Gone(pid) =>
    case Ingest(sequence) =>
      if s.row.Some? {
        RowOkGrows(cfg, s.store, s'.store, s.row.value);
      }
      forall q | q in s'.procs ensures ProcOk(cfg, s'.store, s'.procs[q]) {
        ProcOkGrows(cfg, s.store, s'.store, s.procs[q]);
      }
    case Do(pid, action) =>
      ActOk(cfg, View(s.store, s.row, s.procs[pid]), action);
      forall q | q in s'.procs && q != pid ensures ProcOk(cfg, s'.store, s'.procs[q]) {
        ProcOkGrows(cfg, s.store, s'.store, s.procs[q]);
      }
  }

  lemma {:induction false} RunOk(cfg: Config, s: State, steps: seq<Step>)
    requires cfg.Valid() && StateOk(cfg, s) && Run(cfg, s, steps).Some?
    ensures StateOk(cfg, Run(cfg, s, steps).value)
    ensures s.store <= Run(cfg, s, steps).value.store
    decreases |steps|
  {
    if steps != [] {
      ApplyOk(cfg, s, steps[0]);
      RunOk(cfg, Apply(cfg, s, steps[0]).value, steps[1..]);
    }
  }

  lemma {:induction false} RunProcOk(cfg: Config, v: View, actions: seq<Action>)
    requires cfg.Valid() && ViewOk(cfg, v) && RunProc(cfg, v, actions).Some?
    ensures ViewOk(cfg, RunProc(cfg, v, actions).value)
    decreases |actions|
  {
    if actions != [] {
      ActOk(cfg, v, actions[0]);
      RunProcOk(cfg, Act(cfg, v, actions[0]).value, actions[1..]);
    }
  }

  // Main result 1. Over all runs - crashes, cancellations, overlapping processes of one job, ledgers written by
  // others, any concurrency - a checkpoint never claims more successes than the table holds up to its
  // position, so at most last - start + 1 - processed - skipped of those ledgers are missing; and a row whose
  // processed and skipped counts add up to total_ledgers proves that the whole range is stored.
  lemma CheckpointIsSound(cfg: Config, store: set<int>, steps: seq<Step>)
    requires cfg.Valid() && Run(cfg, Initial(store), steps).Some?
    requires Run(cfg, Initial(store), steps).value.row.Some?
    ensures var s := Run(cfg, Initial(store), steps).value; var r := s.row.value;
            && (r.last.Some? ==>
                  && cfg.start - 1 <= r.last.value <= cfg.end
                  && r.processed + r.skipped + r.failed <= r.last.value - cfg.start + 1
                  && MissingCount(s.store, cfg.start, r.last.value + 1)
                     <= r.last.value - cfg.start + 1 - r.processed - r.skipped)
            && (r.processed + r.skipped == r.total ==> AllStored(s.store, cfg.start, cfg.end + 1))
  {
    RunOk(cfg, Initial(store), steps);
    var s := Run(cfg, Initial(store), steps).value;
    AllStoredIffNoneMissing(s.store, cfg.start, cfg.end + 1);
  }
}
