/**
 runBackfill of indexer/src/backfill.ts as the program it is: a batch loop over local counters, a worker pool
 per batch, and calls to the checkpoint table. Every execution is a run of the step machine of BackfillSystem.
 What the network, the database and the signal do is left to chance (`if *`).
 */
module BackfillRun {
  import opened Wrappers
  import opened Decimal
  import opened WorkerPool
  import opened Checkpoint
  import opened BackfillSystem
  import opened BackfillSafety
  import opened BackfillFailures
  import opened BackfillCounts

  // ----- The program -----

  class Database {
    var ledgers: set<int>
    const checkpoints: CheckpointTable

    constructor ()
      ensures fresh(checkpoints) && ledgers == {} && checkpoints.rows == map[]
    {
      ledgers := {};
      checkpoints := new CheckpointTable();
    }
  }

  // The ledgers still to do, from the resume point to the end of the range.
  method SequencesFrom(resumeFrom: int, end: int) returns (sequences: seq<int>)
    ensures |sequences| == Max(0, end - resumeFrom + 1)
    ensures forall i :: 0 <= i < |sequences| ==> sequences[i] == resumeFrom + i
  {
    sequences := [];
    var sequence := resumeFrom;
    while sequence <= end
      invariant resumeFrom <= sequence && |sequences| == sequence - resumeFrom
      invariant sequence <= Max(resumeFrom, end + 1)
      invariant forall i :: 0 <= i < |sequences| ==> sequences[i] == resumeFrom + i
    {
      sequences := sequences + [sequence];
      sequence := sequence + 1;
    }
  }

  // Counting the outcomes of a batch; holes in the results are skipped.
  method TallyResults(results: array<Option<Outcome>>, batch: seq<int>, processed0: nat, skipped0: nat, failed0: nat,
                      lastFailed0: Option<int>)
    returns (processed: nat, skipped: nat, failed: nat, lastFailed: Option<int>)
    requires |batch| == results.Length
    requires forall i :: 0 <= i < |batch| ==> batch[i] == batch[0] + i
    ensures processed == processed0 + CountOf(results[..], Processed)
    ensures skipped == skipped0 + CountOf(results[..], Skipped)
    ensures failed == failed0 + CountOf(results[..], Rejected)
    ensures batch != [] ==> lastFailed == LastRejected(results[..], batch[0], lastFailed0)
  {
    processed, skipped, failed, lastFailed := processed0, skipped0, failed0, lastFailed0;
    for i := 0 to results.Length
      invariant processed == processed0 + CountOf(results[..i], Processed)
      invariant skipped == skipped0 + CountOf(results[..i], Skipped)
      invariant failed == failed0 + CountOf(results[..i], Rejected)
      invariant batch != [] ==> lastFailed == LastRejected(results[..i], batch[0], lastFailed0)
    {
      assert results[..i + 1][..i] == results[..i];
      var result := results[i];
      if result.Some? {
        match result.value
        case Skipped => skipped := skipped + 1;
        case Processed => processed := processed + 1;
        case Rejected =>
          failed := failed + 1;
          lastFailed := Some(batch[i]);
      }
    }
    assert results[..results.Length] == results[..];
  }

  // How much of processOneLedger a worker still has ahead of it.
  function StageWork(worker: Worker<Stage>): nat {
    match worker
    case Running(_, Checking) => 2
    case Running(_, Writing) => 1
    case _ => 0
  }

  // Every worker step brings the end of the batch closer.
  lemma PoolStepUsesWork(store: set<int>, first: int, aborted: bool, pool: LedgerPool, a: Action)
    requires PoolStep(store, first, aborted, pool, a).Some?
    ensures var pool' := PoolStep(store, first, aborted, pool, a).value;
            Remaining(pool') < Remaining(pool)
            || (Remaining(pool') == Remaining(pool) && Total(pool'.workers, StageWork) < Total(pool.workers, StageWork))
  {
    var pool' := PoolStep(store, first, aborted, pool, a).value;
    var w := a.w;
    TotalUpdate(pool.workers, Weight, w, pool'.workers[w]);
    TotalUpdate(pool.workers, StageWork, w, pool'.workers[w]);
  }

  // What both the pool object and the step machine show.
  ghost predicate SameBatch(v: View, db: Database, pool: SharedPool<Stage, Outcome>, aborted: bool)
    reads db, pool, pool.results, pool.workers
  {
    v.store == db.ledgers && v.proc.aborted == aborted && v.proc.phase.InBatch? && v.proc.phase.pool == pool.Contents()
  }

  // One worker runs up to its next await; which way a lookup, a fetch or a write goes is left to chance.
  method WorkerTurn(db: Database, cfg: Config, pool: SharedPool<Stage, Outcome>, batch: seq<int>, w: nat,
                    aborted: bool, ghost v: View)
    returns (ghost a: Action, ghost v': View)
    requires SameBatch(v, db, pool, aborted)
    requires w < pool.workers.Length && !pool.workers[w].Exited?
    requires |batch| == pool.results.Length && (pool.workers[w].Running? ==> pool.workers[w].index < |batch|)
    requires forall i :: 0 <= i < |batch| ==> batch[i] == v.proc.resumeFrom + v.proc.phase.batchStart + i
    modifies db`ledgers, pool, pool.results, pool.workers
    ensures Act(cfg, v, a) == Some(v') && v'.row == v.row && SameBatch(v', db, pool, aborted)
    ensures v'.proc == v.proc.(phase := InBatch(v.proc.phase.batchStart, pool.Contents()))
    ensures PoolStep(v.store, v.proc.resumeFrom + v.proc.phase.batchStart, aborted, old(pool.Contents()), a) ==
            Some(pool.Contents())
  {
    if pool.workers[w].Running? {
      var lookupFails := *;
      a := TaskTurn(db, pool, batch[pool.workers[w].index], w, lookupFails);
    } else if pool.next < |batch| && !aborted {
      a := ClaimTask(w);
      pool.ClaimNext(w, Checking);
    } else {
      a := Leave(w);
      pool.Stop(w);
    }
    v' := View(db.ledgers, v.row, v.proc.(phase := InBatch(v.proc.phase.batchStart, pool.Contents())));
  }

  // processOneLedger between two awaits. A lookup that fails counts as not finding the ledger.
  method TaskTurn(db: Database, pool: SharedPool<Stage, Outcome>, sequence: int, w: nat, lookupFails: bool)
    returns (ghost a: Action)
    requires w < pool.workers.Length && pool.workers[w].Running? && pool.workers[w].index < pool.results.Length
    modifies db`ledgers, pool.results, pool.workers
    ensures db.ledgers == if a == Commit(w) then old(db.ledgers) + {sequence} else old(db.ledgers)
    ensures var before, stage := old(pool.Contents()), old(pool.workers[w]).stage;
            match stage
            case Checking =>
              if sequence in old(db.ledgers) && !lookupFails
              then a == Hit(w) && pool.Contents() == Advance(before, w, Found)
              else a == Miss(w, lookupFails) && pool.Contents() == Advance(before, w, Writing)
            case Found => a == SettleTask(w, Skipped) && pool.Contents() == Settle(before, w, Skipped)
            case Writing => (a == Commit(w) && pool.Contents() == Advance(before, w, Committed))
                         || (a == SettleTask(w, Rejected) && pool.Contents() == Settle(before, w, Rejected))
            case Committed =>
              exists o :: o != Skipped && a == SettleTask(w, o) && pool.Contents() == Settle(before, w, o)
  {
    match pool.workers[w].stage
    case Checking =>
      if sequence in db.ledgers && !lookupFails {
        a := Hit(w);
        pool.MoveTo(w, Found);
      } else {
        a := Miss(w, lookupFails);
        pool.MoveTo(w, Writing);
      }
    case Found =>
      a := SettleTask(w, Skipped);
      pool.StoreResult(w, Skipped);
    case Writing =>
      if * {
        a := SettleTask(w, Rejected);
        pool.StoreResult(w, Rejected);
      } else {
        a := Commit(w);
        db.ledgers := db.ledgers + {sequence};
        pool.MoveTo(w, Committed);
      }
    case Committed =>
      var outcome := Processed;
      if * {
        outcome := Rejected;
      }
      a := SettleTask(w, outcome);
      pool.StoreResult(w, outcome);
  }

  // `actions` leads from v to v', which is where the program is: inside the same batch.
  ghost predicate InSameBatch(cfg: Config, v: View, actions: seq<Action>, v': View, db: Database,
                              pool: SharedPool<Stage, Outcome>, aborted: bool)
    reads db, pool, pool.results, pool.workers
  {
    && RunProc(cfg, v, actions) == Some(v')
    && v.proc.phase.InBatch?
    && SameBatch(v', db, pool, aborted)
    && v'.row == v.row
    && v'.proc == v.proc.(phase := InBatch(v.proc.phase.batchStart, pool.Contents()), aborted := aborted)
    && PoolInv(pool.Contents(), aborted)
  }

  // The scheduler resumes some worker; the signal may have fired before.
  method BatchTurn(db: Database, cfg: Config, pool: SharedPool<Stage, Outcome>, batch: seq<int>, aborted: bool,
                   ghost v: View, ghost actions: seq<Action>, ghost v': View)
    returns (aborted': bool, ghost actions': seq<Action>, ghost v'': View)
    requires InSameBatch(cfg, v, actions, v', db, pool, aborted) && !AllExited(pool.Contents())
    requires |batch| == pool.results.Length
    requires forall i :: 0 <= i < |batch| ==> batch[i] == v.proc.resumeFrom + v.proc.phase.batchStart + i
    modifies db`ledgers, pool, pool.results, pool.workers
    ensures InSameBatch(cfg, v, actions', v'', db, pool, aborted')
    ensures Remaining(pool.Contents()) < Remaining(old(pool.Contents()))
            || (Remaining(pool.Contents()) == Remaining(old(pool.Contents()))
                && Total(pool.workers[..], StageWork) < Total(old(pool.workers[..]), StageWork))
  {
    aborted', actions', v'' := aborted, actions, v';
    if cfg.abortable {
      if * {
        RunProcSnoc(cfg, v, actions, Signal);
        aborted', actions', v'' := true, actions + [Signal], v'.(proc := v'.proc.(aborted := true));
      }
    }
    ghost var before := pool.Contents();
    ghost var first := v.proc.resumeFrom + v.proc.phase.batchStart;
    var w: nat :| w < pool.workers.Length && !pool.workers[w].Exited?;
    ghost var store := v''.store;
    ghost var a: Action;
    ghost var start := v'';
    a, v'' := WorkerTurn(db, cfg, pool, batch, w, aborted', start);
    RunProcSnoc(cfg, v, actions', a);
    PoolStepKeepsInv(store, first, aborted', before, a);
    PoolStepUsesWork(store, first, aborted', before, a);
    actions' := actions' + [a];
  }

  // The worker pool on one batch.
  method RunBatch(db: Database, cfg: Config, batch: seq<int>, aborted: bool, ghost v: View)
    returns (results: array<Option<Outcome>>, aborted': bool, ghost actions: seq<Action>, ghost v': View)
    requires v.store == db.ledgers && v.proc.aborted == aborted && v.proc.phase.InBatch?
    requires v.proc.phase.pool == NewPool(|batch|, cfg.concurrency)
    requires forall i :: 0 <= i < |batch| ==> batch[i] == v.proc.resumeFrom + v.proc.phase.batchStart + i
    modifies db`ledgers
    ensures fresh(results) && results.Length == |batch|
    ensures RunProc(cfg, v, actions) == Some(v')
    ensures v'.store == db.ledgers && v'.row == v.row && v'.proc.phase.InBatch?
    ensures v'.proc == v.proc.(phase := InBatch(v.proc.phase.batchStart, v'.proc.phase.pool), aborted := aborted')
    ensures v'.proc.phase.pool.results == results[..] && AllExited(v'.proc.phase.pool)
  {
    var pool := new SharedPool<Stage, Outcome>(|batch|, cfg.concurrency);
    aborted', actions, v' := aborted, [], v;
    NewPoolInv<Stage, Outcome>(|batch|, cfg.concurrency);
    var live := pool.SomeoneWorking();
    while live
      invariant fresh(pool) && fresh(pool.results) && fresh(pool.workers)
      invariant pool.results.Length == |batch|
      invariant InSameBatch(cfg, v, actions, v', db, pool, aborted')
      invariant live <==> !AllExited(pool.Contents())
      decreases Remaining(pool.Contents()), Total(pool.workers[..], StageWork)
    {
      aborted', actions, v' := BatchTurn(db, cfg, pool, batch, aborted', v, actions, v');
      live := pool.SomeoneWorking();
    }
    results := pool.results;
  }

  datatype Summary = Summary(processed: nat, skipped: nat, failed: nat, resumeFrom: Option<int>)

  function JobId(cfg: Config): string {
    "backfill:" + cfg.network + ":" + PrintInt(cfg.start) + "-" + PrintInt(cfg.end)
  }

  // Two ranges of one network never share a checkpoint row.
  lemma JobIdIdentifiesRange(a: Config, b: Config)
    requires a.network == b.network && JobId(a) == JobId(b)
    ensures a.start == b.start && a.end == b.end
  {
    var prefix := "backfill:" + a.network + ":";
    assert JobId(a) + "" == JobId(a) && JobId(b) + "" == JobId(b);
    TwoNumbersUnambiguous(prefix, a.start, "-", a.end, "", b.start, b.end);
  }

  // The error text of a failed job tells how many ledgers failed and which was the last.
  lemma FailureMessageTells(failed: nat, last: int, failed': nat, last': int)
    requires FailureMessage(failed, last) == FailureMessage(failed', last')
    ensures failed == failed' && last == last'
  {
    var text, text' := FailureMessage(failed, last), FailureMessage(failed', last');
    assert text + "" == text && text' + "" == text';
    TwoNumbersUnambiguous("Backfill completed with ", failed, " failed ledger(s). Last failed: ", last, "",
      failed', last');
  }

  // Where the program stands at a loop head, and the run that led there.
  ghost predicate AtLoopHead(cfg: Config, v0: View, actions: seq<Action>, v: View, db: Database, batchStart: nat,
                             aborted: bool)
    reads db, db.checkpoints
  {
    && RunProc(cfg, v0, actions) == Some(v)
    && v.store == db.ledgers && v.row == db.checkpoints.RowOf(JobId(cfg))
    && v.proc.phase == LoopHead(batchStart) && v.proc.aborted == aborted
  }

  // Load the checkpoint of the job, or create it.
  method Prepare(db: Database, cfg: Config, ghost v0: View)
    returns (resumeFrom: int, processed: nat, skipped: nat, failed: nat, ghost actions: seq<Action>, ghost v: View)
    requires v0 == View(db.ledgers, db.checkpoints.RowOf(JobId(cfg)), NewProc(cfg))
    modifies db.checkpoints
    ensures AtLoopHead(cfg, v0, actions, v, db, 0, false)
    ensures v.proc == Proc(LoopHead(0), resumeFrom, processed, skipped, failed, None, false)
    ensures db.checkpoints.OnlyJobChanged(old(db.checkpoints.rows), JobId(cfg))
  {
    resumeFrom, processed, skipped, failed := cfg.start, 0, 0, 0;
    var existing := db.checkpoints.LoadCheckpoint(JobId(cfg));
    RunProcSnoc(cfg, v0, [], Load);
    actions, v := [] + [Load], LoadStep(v0);
    if existing.Some? && existing.value.status.InProgress? && existing.value.last.Some? {
      resumeFrom := existing.value.last.value + 1;
      processed, skipped, failed := existing.value.processed, existing.value.skipped, existing.value.failed;
    } else {
      db.checkpoints.CreateCheckpoint(JobId(cfg), cfg.network, cfg.start, cfg.end);
      RunProcSnoc(cfg, v0, actions, Create);
      actions, v := actions + [Create], Act(cfg, v, Create).value;
    }
  }

  // The batch has run: tally it and save the checkpoint.
  method FinishBatch(db: Database, cfg: Config, batch: seq<int>, results: array<Option<Outcome>>, b: nat,
                     processed: nat, skipped: nat, failed: nat, lastFailed: Option<int>, ghost v: View)
    returns (processed': nat, skipped': nat, failed': nat, lastFailed': Option<int>, ghost v': View)
    requires v.store == db.ledgers && v.row == db.checkpoints.RowOf(JobId(cfg))
    requires v.proc.phase.InBatch? && v.proc.phase.batchStart == b && AllExited(v.proc.phase.pool)
    requires v.proc.phase.pool.results == results[..]
    requires v.proc == Proc(v.proc.phase, v.proc.resumeFrom, processed, skipped, failed, lastFailed, v.proc.aborted)
    requires b < SequenceCount(cfg, v.proc) && |batch| == BatchLength(cfg, v.proc, b) == results.Length && |batch| > 0
    requires forall i :: 0 <= i < |batch| ==> batch[i] == v.proc.resumeFrom + b + i
    modifies db.checkpoints
    ensures RunProc(cfg, v, [Tally, Save]) == Some(v')
    ensures v'.store == db.ledgers && v'.row == db.checkpoints.RowOf(JobId(cfg))
    ensures v'.proc == Proc(LoopHead(b + cfg.batchSize), v.proc.resumeFrom, processed', skipped', failed', lastFailed',
            v.proc.aborted)
    ensures db.checkpoints.OnlyJobChanged(old(db.checkpoints.rows), JobId(cfg))
  {
    processed', skipped', failed', lastFailed' := TallyResults(results, batch, processed, skipped, failed, lastFailed);
    ghost var tallied := v.(proc := Tallied(cfg, v.proc, b, results[..]));
    assert Act(cfg, v, Tally) == Some(tallied);
    db.checkpoints.SaveCheckpoint(JobId(cfg), Progress(Some(batch[|batch| - 1]), processed', skipped', failed'));
    v' := Act(cfg, tallied, Save).value;
    assert RunProc(cfg, v', []) == Some(v');
    assert [Tally, Save][1..] == [Save] && [Save][1..] == [];
    assert RunProc(cfg, tallied, [Save]) == Some(v');
  }

  // One turn of the batch loop that is not cancelled: run the batch, tally it, save the checkpoint.
  method ProcessBatch(db: Database, cfg: Config, sequences: seq<int>, batchStart: nat, aborted: bool,
                      processed: nat, skipped: nat, failed: nat, lastFailed: Option<int>,
                      ghost v0: View, ghost actions: seq<Action>, ghost v: View)
    returns (processed': nat, skipped': nat, failed': nat, lastFailed': Option<int>, aborted': bool,
             ghost actions': seq<Action>, ghost v': View)
    requires cfg.batchSize >= 1 && !aborted && batchStart < |sequences|
    requires AtLoopHead(cfg, v0, actions, v, db, batchStart, aborted)
    requires v.proc == Proc(LoopHead(batchStart), v.proc.resumeFrom, processed, skipped, failed, lastFailed, aborted)
    requires |sequences| == SequenceCount(cfg, v.proc)
    requires forall i :: 0 <= i < |sequences| ==> sequences[i] == v.proc.resumeFrom + i
    modifies db`ledgers, db.checkpoints
    ensures AtLoopHead(cfg, v0, actions', v', db, batchStart + cfg.batchSize, aborted')
    ensures v'.proc == Proc(LoopHead(batchStart + cfg.batchSize), v.proc.resumeFrom, processed', skipped', failed',
            lastFailed', aborted')
    ensures db.checkpoints.OnlyJobChanged(old(db.checkpoints.rows), JobId(cfg))
  {
    var batch := sequences[batchStart..Min(batchStart + cfg.batchSize, |sequences|)];
    RunProcSnoc(cfg, v0, actions, Enter);
    actions', v' := actions + [Enter], v.(proc := EnterStep(cfg, v.proc));
    ghost var more: seq<Action>;
    var results: array<Option<Outcome>>;
    results, aborted', more, v' := RunBatch(db, cfg, batch, aborted, v');
    RunProcAppend(cfg, v0, actions', more);
    actions' := actions' + more;
    ghost var after := v';
    processed', skipped', failed', lastFailed', v' :=
      FinishBatch(db, cfg, batch, results, batchStart, processed, skipped, failed, lastFailed, after);
    RunProcAppend(cfg, v0, actions', [Tally, Save]);
    actions' := actions' + [Tally, Save];
  }

  // The cancelled turn: the row is marked and the loop is left.
  method CancelJob(db: Database, cfg: Config, sequences: seq<int>, resumeFrom: int, batchStart: nat, processed: nat,
                   skipped: nat, failed: nat, ghost v0: View, ghost actions: seq<Action>, ghost v: View)
    returns (ghost actions': seq<Action>, ghost v': View)
    requires batchStart < |sequences| && |sequences| == SequenceCount(cfg, v.proc) && resumeFrom == v.proc.resumeFrom
    requires forall i :: 0 <= i < |sequences| ==> sequences[i] == v.proc.resumeFrom + i
    requires AtLoopHead(cfg, v0, actions, v, db, batchStart, true)
    requires v.proc.processed == processed && v.proc.skipped == skipped && v.proc.failed == failed
    modifies db.checkpoints
    ensures RunProc(cfg, v0, actions') == Some(v') && v'.store == db.ledgers
            && v'.row == db.checkpoints.RowOf(JobId(cfg))
    ensures v'.proc == v.proc.(phase := Marking)
    ensures db.checkpoints.OnlyJobChanged(old(db.checkpoints.rows), JobId(cfg))
  {
    RunProcSnoc(cfg, v0, actions, Enter);
    actions', v' := actions + [Enter], v.(proc := v.proc.(phase := Cancelling(batchStart)));
    var last := if batchStart > 0 then sequences[batchStart - 1] else resumeFrom - 1;
    db.checkpoints.MarkCheckpointCancelled(JobId(cfg), Progress(Some(last), processed, skipped, failed));
    RunProcSnoc(cfg, v0, actions', Cancel);
    actions', v' := actions' + [Cancel], Act(cfg, v', Cancel).value;
  }

  // The final status.
  method MarkJob(db: Database, cfg: Config, sequences: seq<int>, resumeFrom: int, processed: nat, skipped: nat,
                 failed: nat, lastFailed: Option<int>, ghost v0: View, ghost actions: seq<Action>, ghost v: View)
    returns (ghost actions': seq<Action>, ghost v': View)
    requires |sequences| == SequenceCount(cfg, v.proc)
    requires forall i :: 0 <= i < |sequences| ==> sequences[i] == resumeFrom + i
    requires RunProc(cfg, v0, actions) == Some(v) && v.store == db.ledgers && v.row == db.checkpoints.RowOf(JobId(cfg))
    requires v.proc == Proc(Marking, resumeFrom, processed, skipped, failed, lastFailed, v.proc.aborted)
    modifies db.checkpoints
    ensures RunProc(cfg, v0, actions') == Some(v') && v'.store == db.ledgers
            && v'.row == db.checkpoints.RowOf(JobId(cfg))
    ensures v'.proc == v.proc.(phase := Returned)
    ensures db.checkpoints.OnlyJobChanged(old(db.checkpoints.rows), JobId(cfg))
  {
    if lastFailed.Some? {
      var last := if |sequences| > 0 then sequences[|sequences| - 1] else resumeFrom - 1;
      db.checkpoints.MarkCheckpointFailed(JobId(cfg), FailureMessage(failed, lastFailed.value),
        Progress(Some(last), processed, skipped, failed));
    } else {
      db.checkpoints.MarkCheckpointCompleted(JobId(cfg), Progress(Some(cfg.end), processed, skipped, failed));
    }
    RunProcSnoc(cfg, v0, actions, Mark);
    actions', v' := actions + [Mark], MarkStep(cfg, v);
  }

  // The batch loop: it ends at the final marking, cancelled or not.
  method RunBatches(db: Database, cfg: Config, sequences: seq<int>, resumeFrom: int,
                    processed0: nat, skipped0: nat, failed0: nat,
                    ghost v0: View, ghost actions0: seq<Action>, ghost start: View)
    returns (processed: nat, skipped: nat, failed: nat, lastFailed: Option<int>,
             ghost actions: seq<Action>, ghost v: View)
    requires cfg.batchSize >= 1 && AtLoopHead(cfg, v0, actions0, start, db, 0, false)
    requires start.proc == Proc(LoopHead(0), resumeFrom, processed0, skipped0, failed0, None, false)
    requires |sequences| == SequenceCount(cfg, start.proc)
    requires forall i :: 0 <= i < |sequences| ==> sequences[i] == resumeFrom + i
    modifies db`ledgers, db.checkpoints
    ensures RunProc(cfg, v0, actions) == Some(v) && v.store == db.ledgers && v.row == db.checkpoints.RowOf(JobId(cfg))
    ensures v.proc == Proc(Marking, resumeFrom, processed, skipped, failed, lastFailed, v.proc.aborted)
    ensures db.checkpoints.OnlyJobChanged(old(db.checkpoints.rows), JobId(cfg))
  {
    processed, skipped, failed, lastFailed, actions, v := processed0, skipped0, failed0, None, actions0, start;
    var aborted, cancelled, batchStart := false, false, 0;
    while batchStart < |sequences| && !cancelled
      invariant v.proc.phase == (if cancelled then Marking else LoopHead(batchStart))
      invariant RunProc(cfg, v0, actions) == Some(v) && v.store == db.ledgers
                && v.row == db.checkpoints.RowOf(JobId(cfg))
      invariant v.proc == Proc(v.proc.phase, resumeFrom, processed, skipped, failed, lastFailed, aborted)
      invariant db.checkpoints.OnlyJobChanged(old(db.checkpoints.rows), JobId(cfg))
      decreases |sequences| - batchStart, !cancelled
    {
      if cfg.abortable {
        if * {
          RunProcSnoc(cfg, v0, actions, Signal);
          aborted, actions, v := true, actions + [Signal], v.(proc := v.proc.(aborted := true));
        }
      }
      if aborted {
        actions, v := CancelJob(db, cfg, sequences, resumeFrom, batchStart, processed, skipped, failed, v0, actions, v);
        cancelled := true;
      } else {
        processed, skipped, failed, lastFailed, aborted, actions, v :=
          ProcessBatch(db, cfg, sequences, batchStart, aborted, processed, skipped, failed, lastFailed, v0, actions, v);
        batchStart := batchStart + cfg.batchSize;
      }
    }
    if !cancelled {
      RunProcSnoc(cfg, v0, actions, Enter);
      actions, v := actions + [Enter], v.(proc := v.proc.(phase := Marking));
    }
  }

  // What a process that started with the view v0 has done when it returns the summary: its execution is a run of the
  // step machine, each count is the resumed one plus the tasks that settled that way, the ledger to resume from is the
  // last one it failed, the row shows the same, and after the signal nothing was claimed.
  ghost predicate Summarizes(cfg: Config, v0: View, actions: seq<Action>, v: View, summary: Summary) {
    && RunProc(cfg, v0, actions) == Some(v)
    && v.proc.phase.Returned?
    && summary == Summary(v.proc.processed, v.proc.skipped, v.proc.failed, v.proc.lastFailed)
    && summary.processed == Resumed(v0.row, Processed) + HowMany(actions, Settles(Processed))
    && summary.skipped == Resumed(v0.row, Skipped) + HowMany(actions, Settles(Skipped))
    && RowStands(cfg, v0.row, v)
    && StopsAtSignal(cfg, actions)
    && (ViewOk(cfg, v0) ==> ViewOk(cfg, v))
    && var list := Rejections(cfg, v0, actions);
       && summary.failed == ResumedFailures(v0.row) + |list|
       && summary.resumeFrom == if list == [] then None else Some(list[|list| - 1])
  }

  lemma ReturnedSummary(cfg: Config, v0: View, actions: seq<Action>, v: View)
    requires cfg.Valid() && Fresh(cfg, v0.proc) && RunProc(cfg, v0, actions) == Some(v) && v.proc.phase.Returned?
    ensures Summarizes(cfg, v0, actions, v, Summary(v.proc.processed, v.proc.skipped, v.proc.failed, v.proc.lastFailed))
  {
    ResumeFromIsLastFailure(cfg, v0, actions);
    CountsOfReturned(cfg, v0, actions);
    RowOfReturned(cfg, v0, actions);
    SignalStopsBackfill(cfg, v0, actions);
    if ViewOk(cfg, v0) {
      RunProcOk(cfg, v0, actions);
    }
  }

  // runBackfill. Its execution is a run of the step machine from a fresh process to a returned one; the row it
  // leaves is therefore sound for the ledgers it leaves, and the rows of other jobs are untouched.
  method RunBackfill(db: Database, cfg: Config) returns (result: Result<Summary, string>, ghost actions: seq<Action>)
    requires cfg.batchSize >= 1
    modifies db`ledgers, db.checkpoints
    ensures result.Err? <==> cfg.start > cfg.end
    ensures result.Err? ==> db.ledgers == old(db.ledgers) && db.checkpoints.rows == old(db.checkpoints.rows)
    ensures result.Ok? ==>
      var v0 := View(old(db.ledgers), old(db.checkpoints.RowOf(JobId(cfg))), NewProc(cfg));
      && RunProc(cfg, v0, actions).Some?
      && var v := RunProc(cfg, v0, actions).value;
      && v.store == db.ledgers && v.row == db.checkpoints.RowOf(JobId(cfg))
      && Summarizes(cfg, v0, actions, v, result.value)
    ensures db.checkpoints.OnlyJobChanged(old(db.checkpoints.rows), JobId(cfg))
  {
    actions := [];
    if cfg.start > cfg.end {
      return Err("startSequence must be <= endSequence"), actions;
    }
    ghost var v0 := View(db.ledgers, db.checkpoints.RowOf(JobId(cfg)), NewProc(cfg));
    ghost var v: View;
    var resumeFrom, processed, skipped, failed;
    resumeFrom, processed, skipped, failed, actions, v := Prepare(db, cfg, v0);
    var lastFailed: Option<int>;
    var sequences := SequencesFrom(resumeFrom, cfg.end);
    processed, skipped, failed, lastFailed, actions, v :=
      RunBatches(db, cfg, sequences, resumeFrom, processed, skipped, failed, v0, actions, v);
    actions, v := MarkJob(db, cfg, sequences, resumeFrom, processed, skipped, failed, lastFailed, v0, actions, v);
    ReturnedSummary(cfg, v0, actions, v);
    result := Ok(Summary(processed, skipped, failed, lastFailed));
  }
}
