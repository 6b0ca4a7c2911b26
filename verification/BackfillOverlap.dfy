/**
 Which rows of a backfill job can say `completed`: with failures, over runs with one process at a time, and without
 failures although ledgers are missing, over runs in which processes of one job overlap.
 */
module BackfillOverlap {
  import opened Wrappers
  import opened WorkerPool
  import opened Checkpoint
  import opened BackfillSystem
  import opened BackfillSafety
  import opened BackfillCompletion
  import opened BackfillFailures

  // ----- Completed with failures -----

  // One process at a time can leave a completed row with failures and missing ledgers.
  ghost predicate CanCompleteWithFailures(cfg: Config) {
    exists store, steps :: OneAtATime(cfg, Initial(store), steps) && EndsWithFailures(cfg, Initial(store), steps)
  }

  ghost predicate EndsWithFailures(cfg: Config, s: State, steps: seq<Step>) {
    && Run(cfg, s, steps).Some?
    && var s' := Run(cfg, s, steps).value;
       s'.row.Some? && s'.row.value.status.Completed? && s'.row.value.failed > 0
         && !AllStored(s'.store, cfg.start, cfg.end + 1)
  }

  // More steps of process 0.
  lemma {:induction false} ThenAll(cfg: Config, steps: seq<Step>, v: View, actions: seq<Action>)
    returns (steps': seq<Step>)
    requires Follows(cfg, Initial({}), steps, Alone(v)) && RunProc(cfg, v, actions).Some?
    ensures Follows(cfg, Initial({}), steps', Alone(RunProc(cfg, v, actions).value))
    decreases |actions|
  {
    steps' := steps;
    if actions != [] {
      var v': View;
      steps', v' := Then(cfg, steps, v, actions[0]);
      steps' := ThenAll(cfg, steps', v', actions[1..]);
    }
  }

  lemma StartAlone(cfg: Config) returns (steps: seq<Step>)
    ensures Follows(cfg, Initial({}), steps, Alone(EmptyTables(cfg)))
  {
    assert Follows(cfg, Initial({}), [], Initial({}));
    assert Apply(cfg, Initial({}), Spawn(0)) == Some(Alone(EmptyTables(cfg)));
    Extend(cfg, Initial({}), [], Initial({}), Spawn(0), Alone(EmptyTables(cfg)));
    steps := [] + [Spawn(0)];
  }

  // A run that finds failures marks the job failed, and the next one recreates the row and crashes.
  lemma FailAndRecreate(cfg: Config) returns (steps: seq<Step>, v: View)
    requires cfg.Valid() && cfg.concurrency >= 1
    ensures Follows(cfg, Initial({}), steps, Alone(v)) && v.store == {} && v.proc == NewProc(cfg)
    ensures Resumes(v.row) && v.row.value.last == Some(cfg.end) && v.row.value.failed == cfg.end - cfg.start + 1
  {
    steps := StartAlone(cfg);
    var actions;
    actions, v := FailingRun(cfg);
    steps := ThenAll(cfg, steps, EmptyTables(cfg), actions);
    steps, v := Restart(cfg, steps, v);
    steps, v := Then(cfg, steps, v, Load);
    steps, v := Then(cfg, steps, v, Create);
    steps, v := Restart(cfg, steps, v);
  }

  // Its successor resumes past the end and marks the job completed.
  lemma FailRecreateComplete(cfg: Config) returns (steps: seq<Step>)
    requires cfg.Valid() && cfg.concurrency >= 1
    ensures OneAtATime(cfg, Initial({}), steps) && EndsWithFailures(cfg, Initial({}), steps)
  {
    var v: View;
    steps, v := FailAndRecreate(cfg);
    steps, v := Then(cfg, steps, v, Load);
    steps, v := Then(cfg, steps, v, Enter);
    steps, v := Then(cfg, steps, v, Mark);
    assert cfg.start !in v.store;
  }

  // Main result 6: a completed row can have failures exactly when the pool has a worker.
  lemma CompletedWithFailures(cfg: Config)
    requires cfg.Valid()
    ensures CanCompleteWithFailures(cfg) <==> cfg.concurrency >= 1
  {
    if cfg.concurrency >= 1 {
      var steps := FailRecreateComplete(cfg);
      assert OneAtATime(cfg, Initial({}), steps);
    } else {
      forall store, steps | OneAtATime(cfg, Initial(store), steps)
        ensures !EndsWithFailures(cfg, Initial(store), steps)
      {
        if Run(cfg, Initial(store), steps).Some? {
          RunIdle(cfg, Initial(store), steps);
        }
      }
    }
  }

  // ----- Overlapping processes -----

  // Over all runs, overlapping ones included, `completed` with no failures means the range is stored.
  ghost predicate TrustworthyUnderOverlap(cfg: Config) {
    forall store, steps ::
      Run(cfg, Initial(store), steps).Some? ==> !Misleading(cfg, Run(cfg, Initial(store), steps).value)
  }

  // Where all ledgers fit into one batch: every position is the end of the range.
  predicate OneBatchRow(cfg: Config, row: Option<Row>) {
    row.Some? ==>
      && (row.value.last.Some? ==> row.value.last.value == cfg.end)
      && (row.value.status.Completed? ==> row.value.last.Some?)
  }

  predicate OneBatchProc(cfg: Config, p: Proc) {
    && !p.aborted
    && (p.resumeFrom == cfg.start || p.resumeFrom == cfg.end + 1)
    && match p.phase
       case LoopHead(b) => b == 0 || b == cfg.batchSize
       case InBatch(b, _) => b == 0 && p.resumeFrom == cfg.start
       case Saving(b) => b == 0 && p.resumeFrom == cfg.start
       case Cancelling(_) => false
       case _ => true
  }

  predicate OneBatch(cfg: Config) {
    cfg.end - cfg.start < cfg.batchSize
  }

  lemma ActOneBatch(cfg: Config, v: View, a: Action)
    requires cfg.Valid() && OneBatch(cfg) && !cfg.abortable && Act(cfg, v, a).Some?
    requires OneBatchRow(cfg, v.row) && OneBatchProc(cfg, v.proc)
    ensures OneBatchRow(cfg, Act(cfg, v, a).value.row) && OneBatchProc(cfg, Act(cfg, v, a).value.proc)
  {
  }

  predicate OneBatchState(cfg: Config, s: State) {
    OneBatchRow(cfg, s.row) && forall pid :: pid in s.procs ==> OneBatchProc(cfg, s.procs[pid])
  }

  lemma {:induction false} RunOneBatch(cfg: Config, s: State, steps: seq<Step>)
    requires cfg.Valid() && OneBatch(cfg) && !cfg.abortable && OneBatchState(cfg, s) && Run(cfg, s, steps).Some?
    ensures OneBatchState(cfg, Run(cfg, s, steps).value)
    decreases |steps|
  {
    if steps != [] {
      if steps[0].Do? {
        ActOneBatch(cfg, View(s.store, s.row, s.procs[steps[0].pid]), steps[0].action);
      }
      RunOneBatch(cfg, Apply(cfg, s, steps[0]).value, steps[1..]);
    }
  }

  // What survives overlap: a row without failures whose position is the end of the range.
  lemma StoredAtTheEnd(cfg: Config, store: set<int>, steps: seq<Step>)
    requires cfg.Valid() && NoHoles(cfg) && Run(cfg, Initial(store), steps).Some?
    ensures var s := Run(cfg, Initial(store), steps).value;
            s.row.Some? && s.row.value.last == Some(cfg.end) && s.row.value.failed == 0 ==>
              AllStored(s.store, cfg.start, cfg.end + 1)
  {
    var s := Run(cfg, Initial(store), steps).value;
    if s.row.Some? && s.row.value.last == Some(cfg.end) {
      CheckpointIsExact(cfg, store, steps);
    }
  }

  // Where a run from the empty system leads.
  predicate Reaches(cfg: Config, steps: seq<Step>, s: State) {
    Run(cfg, Initial({}), steps) == Some(s)
  }

  lemma ReachSpawn(cfg: Config, steps: seq<Step>, s: State, pid: nat) returns (steps': seq<Step>, s': State)
    requires Reaches(cfg, steps, s) && pid !in s.procs
    ensures s' == s.(procs := s.procs[pid := NewProc(cfg)]) && Reaches(cfg, steps', s')
  {
    s' := s.(procs := s.procs[pid := NewProc(cfg)]);
    RunAppend(cfg, Initial({}), steps, [Spawn(pid)]);
    assert Run(cfg, s', []) == Some(s') && [Spawn(pid)][1..] == [];
    steps' := steps + [Spawn(pid)];
  }

  lemma ReachDo(cfg: Config, steps: seq<Step>, s: State, pid: nat, actions: seq<Action>, v: View)
    returns (steps': seq<Step>, s': State)
    requires Reaches(cfg, steps, s) && pid in s.procs
    requires RunProc(cfg, View(s.store, s.row, s.procs[pid]), actions) == Some(v)
    ensures s' == State(v.store, v.row, s.procs[pid := v.proc]) && Reaches(cfg, steps', s')
  {
    s' := State(v.store, v.row, s.procs[pid := v.proc]);
    RunProcIsRun(cfg, s, pid, actions);
    var more := seq(|actions|, i requires 0 <= i < |actions| => Do(pid, actions[i]));
    RunAppend(cfg, Initial({}), steps, more);
    steps' := steps + more;
  }

  // Process 0 fails every ledger. Process 2 recreates the row.
  lemma UpToRecreation(cfg: Config) returns (steps: seq<Step>, s: State)
    requires cfg.Valid() && cfg.concurrency >= 1
    ensures Reaches(cfg, steps, s) && s.store == {} && 1 !in s.procs && 2 in s.procs
    ensures s.procs[2] == NewProc(cfg).(phase := LoopHead(0))
    ensures s.row.Some? && s.row.value.status.InProgress? && s.row.value.last == Some(cfg.end)
  {
    assert Reaches(cfg, [], Initial({}));
    steps, s := ReachSpawn(cfg, [], Initial({}), 0);
    var actions, v := FailingRun(cfg);
    steps, s := ReachDo(cfg, steps, s, 0, actions, v);
    steps, s := ReachSpawn(cfg, steps, s, 2);
    var v2 := View(s.store, s.row, s.procs[2]);
    assert RunProc(cfg, v2, []) == Some(v2);
    actions, v := Next(cfg, v2, [], v2, Load);
    actions, v := Next(cfg, v2, actions, v, Create);
    steps, s := ReachDo(cfg, steps, s, 2, actions, v);
  }

  // Process 1 resumes past the end and completes the job.
  lemma UpToCompletion(cfg: Config) returns (steps: seq<Step>, s: State)
    requires cfg.Valid() && cfg.concurrency >= 1
    ensures Reaches(cfg, steps, s) && s.store == {} && 2 in s.procs
    ensures s.procs[2] == NewProc(cfg).(phase := LoopHead(0))
    ensures s.row.Some? && s.row.value.status.Completed?
  {
    steps, s := UpToRecreation(cfg);
    steps, s := ReachSpawn(cfg, steps, s, 1);
    var v1 := View(s.store, s.row, s.procs[1]);
    assert RunProc(cfg, v1, []) == Some(v1);
    var actions, v := Next(cfg, v1, [], v1, Load);
    actions, v := Next(cfg, v1, actions, v, Enter);
    actions, v := Next(cfg, v1, actions, v, Mark);
    steps, s := ReachDo(cfg, steps, s, 1, actions, v);
  }

  // Process 2 stores its first batch and moves the position back, leaving `completed` in place.
  lemma OverlappingRun(cfg: Config) returns (steps: seq<Step>)
    requires cfg.Valid() && cfg.concurrency >= 1 && !OneBatch(cfg)
    ensures Run(cfg, Initial({}), steps).Some? && Misleading(cfg, Run(cfg, Initial({}), steps).value)
  {
    var s: State;
    steps, s := UpToCompletion(cfg);
    var v2 := View(s.store, s.row, s.procs[2]);
    assert RunProc(cfg, v2, []) == Some(v2);
    var actions, v := WholeBatch(cfg, v2, [], v2, 0, Processed);
    steps, s := ReachDo(cfg, steps, s, 2, actions, v);
    assert cfg.end !in s.store;
  }

  // Main result 7: under overlap it means that exactly when, moreover, the whole range fits into one batch.
  lemma CompletedUnderOverlap(cfg: Config)
    requires cfg.Valid()
    ensures TrustworthyUnderOverlap(cfg)
            <==> cfg.concurrency >= 1 && !cfg.abortable && cfg.end - cfg.start < cfg.batchSize
  {
    if NoHoles(cfg) && OneBatch(cfg) {
      forall store, steps | Run(cfg, Initial(store), steps).Some?
        ensures !Misleading(cfg, Run(cfg, Initial(store), steps).value)
      {
        RunOneBatch(cfg, Initial(store), steps);
        StoredAtTheEnd(cfg, store, steps);
      }
    } else if NoHoles(cfg) {
      var steps := OverlappingRun(cfg);
      assert Run(cfg, Initial({}), steps).Some?;
    } else {
      var steps := MisleadingRun(cfg);
      assert Run(cfg, Initial({}), steps).Some?;
    }
  }
}
