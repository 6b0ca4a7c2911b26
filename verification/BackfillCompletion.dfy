/**
 When a finished backfill can be trusted: the exact counts of uninterrupted pools, and what `completed` means.
 */
module BackfillCompletion {
  import opened Wrappers
  import opened WorkerPool
  import opened Checkpoint
  import opened BackfillSystem
  import opened BackfillSafety

  // ----- Exact counts: no cancellation and at least one worker -----

  predicate NoHoles(cfg: Config) {
    cfg.concurrency >= 1 && !cfg.abortable
  }

  predicate ProcExact(cfg: Config, p: Proc) {
    !p.aborted && !p.phase.Cancelling? && p.processed + p.skipped + p.failed == Frontier(cfg, p) - cfg.start
  }

  predicate RowExact(cfg: Config, r: Row) {
    r.last.Some? ==> r.processed + r.skipped + r.failed == r.last.value - cfg.start + 1
  }

  ghost predicate StateExact(cfg: Config, s: State) {
    && StateOk(cfg, s)
    && (s.row.Some? ==> RowExact(cfg, s.row.value))
    && (forall pid :: pid in s.procs ==> ProcExact(cfg, s.procs[pid]))
  }

  // A batch whose workers have all left has one outcome for each of its ledgers.
  lemma {:induction false} FullTally(results: seq<Option<Outcome>>)
    requires forall i :: 0 <= i < |results| ==> results[i].Some?
    ensures CountOf(results, Processed) + CountOf(results, Skipped) + CountOf(results, Rejected) == |results|
    decreases |results|
  {
    if results != [] {
      var prefix := results[..|results| - 1];
      assert forall i :: 0 <= i < |prefix| ==> prefix[i] == results[i];
      FullTally(prefix);
      var last := results[|results| - 1];
      assert last.Some?;
      match last.value
      case Processed =>
      case Skipped =>
      case Rejected =>
    }
  }

  lemma TallyExact(cfg: Config, store: set<int>, p: Proc)
    requires NoHoles(cfg) && ProcOk(cfg, store, p) && ProcExact(cfg, p)
    requires p.phase.InBatch? && AllExited(p.phase.pool)
    ensures ProcExact(cfg, Tallied(cfg, p, p.phase.batchStart, p.phase.pool.results))
  {
    var b, pool := p.phase.batchStart, p.phase.pool;
    ExitedPool(pool, p.aborted);
    FullTally(pool.results);
    assert Frontier(cfg, p) == p.resumeFrom + b;
    assert Frontier(cfg, Tallied(cfg, p, b, pool.results)) == p.resumeFrom + b + |pool.results|;
  }

  lemma ActExact(cfg: Config, v: View, a: Action)
    requires cfg.Valid() && NoHoles(cfg) && ViewOk(cfg, v) && Act(cfg, v, a).Some?
    requires ProcExact(cfg, v.proc) && (v.row.Some? ==> RowExact(cfg, v.row.value))
    ensures var v' := Act(cfg, v, a).value;
            ProcExact(cfg, v'.proc) && (v'.row.Some? ==> RowExact(cfg, v'.row.value))
  {
    if IsWorkers(a) {
      WorkersExact(cfg, v, a);
    } else if a.Tally? {
      TallyExact(cfg, v.store, v.proc);
    } else if a.Enter? {
      EnterExact(cfg, v.proc);
    } else if a.Mark? {
      MarkExact(cfg, v);
    } else if a.Save? {
      SaveExact(cfg, v);
    } else if a.Load? {
      LoadExact(cfg, v);
    }
  }

  lemma WorkersExact(cfg: Config, v: View, a: Action)
    requires IsWorkers(a) && Act(cfg, v, a).Some? && ProcExact(cfg, v.proc)
    ensures ProcExact(cfg, Act(cfg, v, a).value.proc) && Act(cfg, v, a).value.row == v.row
  {
    assert Act(cfg, v, a) == WorkerStep(cfg, v, a);
  }

  lemma SaveExact(cfg: Config, v: View)
    requires ProcExact(cfg, v.proc) && Act(cfg, v, Save).Some? && (v.row.Some? ==> RowExact(cfg, v.row.value))
    ensures var v' := Act(cfg, v, Save).value;
            ProcExact(cfg, v'.proc) && (v'.row.Some? ==> RowExact(cfg, v'.row.value))
  {
  }

  lemma LoadExact(cfg: Config, v: View)
    requires cfg.Valid() && ProcExact(cfg, v.proc) && Act(cfg, v, Load).Some? && ViewOk(cfg, v)
    requires v.row.Some? ==> RowExact(cfg, v.row.value)
    ensures ProcExact(cfg, LoadStep(v).proc)
  {
  }

  lemma EnterExact(cfg: Config, p: Proc)
    requires ProcExact(cfg, p) && p.phase.LoopHead?
    ensures ProcExact(cfg, EnterStep(cfg, p))
  {
  }

  lemma MarkExact(cfg: Config, v: View)
    requires ViewOk(cfg, v) && v.proc.phase.Marking? && ProcExact(cfg, v.proc)
    ensures var v' := MarkStep(cfg, v);
            ProcExact(cfg, v'.proc) && (v'.row.Some? ==> RowExact(cfg, v'.row.value))
  {
  }

  lemma ApplyExact(cfg: Config, s: State, step: Step)
    requires cfg.Valid() && NoHoles(cfg) && StateExact(cfg, s) && Apply(cfg, s, step).Some?
    ensures StateExact(cfg, Apply(cfg, s, step).value)
  {
    ApplyOk(cfg, s, step);
    if step.Do? {
      ActExact(cfg, View(s.store, s.row, s.procs[step.pid]), step.action);
    }
  }

  lemma {:induction false} RunExact(cfg: Config, s: State, steps: seq<Step>)
    requires cfg.Valid() && NoHoles(cfg) && StateExact(cfg, s) && Run(cfg, s, steps).Some?
    ensures StateExact(cfg, Run(cfg, s, steps).value)
    decreases |steps|
  {
    if steps != [] {
      ApplyExact(cfg, s, steps[0]);
      RunExact(cfg, Apply(cfg, s, steps[0]).value, steps[1..]);
    }
  }

  // Main result 2. Without cancellation and with at least one worker, over all chains of runs cut by crashes
  // anywhere (and even overlapping runs), every checkpoint accounts for exactly the ledgers up to its position,
  // and no more of them are missing than its failed count says.
  lemma CheckpointIsExact(cfg: Config, store: set<int>, steps: seq<Step>)
    requires cfg.Valid() && NoHoles(cfg) && Run(cfg, Initial(store), steps).Some?
    requires var row := Run(cfg, Initial(store), steps).value.row; row.Some? && row.value.last.Some?
    ensures var s := Run(cfg, Initial(store), steps).value; var r := s.row.value;
            && r.processed + r.skipped + r.failed == r.last.value - cfg.start + 1
            && MissingCount(s.store, cfg.start, r.last.value + 1) <= r.failed
            && (r.failed == 0 ==> AllStored(s.store, cfg.start, r.last.value + 1))
  {
    RunExact(cfg, Initial(store), steps);
    var s := Run(cfg, Initial(store), steps).value;
    AllStoredIffNoneMissing(s.store, cfg.start, s.row.value.last.value + 1);
  }

  // ----- What `completed` means -----

  // One process of the job at a time: a run starts only after the previous one is gone.
  ghost predicate OneAtATime(cfg: Config, s: State, steps: seq<Step>)
    decreases |steps|
  {
    steps == [] || (
      && (steps[0].Spawn? ==> s.procs == map[])
      && Apply(cfg, s, steps[0]).Some?
      && OneAtATime(cfg, Apply(cfg, s, steps[0]).value, steps[1..]))
  }

  ghost predicate SoloInv(cfg: Config, s: State) {
    && (forall p, q :: p in s.procs && q in s.procs ==> p == q)
    && (s.row.Some? && s.row.value.status.Completed? ==> s.row.value.last == Some(cfg.end))
    && (forall pid :: pid in s.procs && !s.procs[pid].phase.Loading? && !s.procs[pid].phase.Creating?
          && !s.procs[pid].phase.Marking? && !s.procs[pid].phase.Returned?
          ==> s.row.Some? && s.row.value.status.InProgress?)
  }

  lemma ApplySolo(cfg: Config, s: State, step: Step)
    requires SoloInv(cfg, s) && Apply(cfg, s, step).Some? && (step.Spawn? ==> s.procs == map[])
    ensures SoloInv(cfg, Apply(cfg, s, step).value)
  {
  }

  lemma {:induction false} RunSolo(cfg: Config, s: State, steps: seq<Step>)
    requires SoloInv(cfg, s) && OneAtATime(cfg, s, steps)
    ensures Run(cfg, s, steps).Some? && SoloInv(cfg, Run(cfg, s, steps).value)
    decreases |steps|
  {
    if steps != [] {
      ApplySolo(cfg, s, steps[0]);
      RunSolo(cfg, Apply(cfg, s, steps[0]).value, steps[1..]);
    }
  }

  // What an operator would like to read off a row: `completed` with no failures means the range is stored.
  ghost predicate Misleading(cfg: Config, s: State) {
    s.row.Some? && s.row.value.status.Completed? && s.row.value.failed == 0
      && !AllStored(s.store, cfg.start, cfg.end + 1)
  }

  ghost predicate Trustworthy(cfg: Config) {
    forall store, steps :: OneAtATime(cfg, Initial(store), steps) ==>
      Run(cfg, Initial(store), steps).Some? && !Misleading(cfg, Run(cfg, Initial(store), steps).value)
  }

  // Main result 3: with one process of the job at a time it means that exactly when the pool has a worker and the
  // job cannot be cancelled.
  lemma CompletedWithoutFailures(cfg: Config)
    requires cfg.Valid()
    ensures Trustworthy(cfg) <==> cfg.concurrency >= 1 && !cfg.abortable
  {
    if NoHoles(cfg) {
      forall store, steps | OneAtATime(cfg, Initial(store), steps)
        ensures Run(cfg, Initial(store), steps).Some? && !Misleading(cfg, Run(cfg, Initial(store), steps).value)
      {
        RunSolo(cfg, Initial(store), steps);
        var s := Run(cfg, Initial(store), steps).value;
        if s.row.Some? && s.row.value.status.Completed? {
          CheckpointIsExact(cfg, store, steps);
        }
      }
    } else {
      var steps := MisleadingRun(cfg);
      assert OneAtATime(cfg, Initial({}), steps);
    }
  }

  // ----- The runs that mislead -----

  ghost predicate Follows(cfg: Config, s: State, steps: seq<Step>, t: State) {
    OneAtATime(cfg, s, steps) && Run(cfg, s, steps) == Some(t)
  }

  lemma {:induction false} Extend(cfg: Config, s: State, steps: seq<Step>, m: State, e: Step, t: State)
    requires Follows(cfg, s, steps, m) && Apply(cfg, m, e) == Some(t) && (e.Spawn? ==> m.procs == map[])
    ensures Follows(cfg, s, steps + [e], t)
    decreases |steps|
  {
    if steps == [] {
      assert steps + [e] == [e];
      assert Run(cfg, t, []) == Some(t) && OneAtATime(cfg, t, []);
      assert [e][1..] == [];
    } else {
      assert (steps + [e])[0] == steps[0] && (steps + [e])[1..] == steps[1..] + [e];
      Extend(cfg, Apply(cfg, s, steps[0]).value, steps[1..], m, e, t);
    }
  }

  // A fresh job up to its first loop head.
  lemma FreshJob(cfg: Config) returns (steps: seq<Step>, s: State)
    ensures Follows(cfg, Initial({}), steps, s)
    ensures s == State({}, Some(CreateRow(None, cfg.network, cfg.start, cfg.end)),
            map[0 := NewProc(cfg).(phase := LoopHead(0))])
  {
    var p := NewProc(cfg);
    var row := CreateRow(None, cfg.network, cfg.start, cfg.end);
    var s1 := State({}, None, map[0 := p]);
    var s2 := State({}, None, map[0 := p.(phase := Creating)]);
    s := State({}, Some(row), map[0 := p.(phase := LoopHead(0))]);
    assert Follows(cfg, Initial({}), [], Initial({}));
    assert s1.procs == map[][0 := p];
    Extend(cfg, Initial({}), [], Initial({}), Spawn(0), s1);
    assert s2.procs == s1.procs[0 := p.(phase := Creating)];
    Extend(cfg, Initial({}), [] + [Spawn(0)], s1, Do(0, Load), s2);
    assert s.procs == s2.procs[0 := p.(phase := LoopHead(0))];
    Extend(cfg, Initial({}), [] + [Spawn(0)] + [Do(0, Load)], s2, Do(0, Create), s);
    steps := [] + [Spawn(0)] + [Do(0, Load)] + [Do(0, Create)];
  }

  // The system with process 0 alone.
  function Alone(v: View): State {
    State(v.store, v.row, map[0 := v.proc])
  }

  // One more step of process 0.
  lemma Then(cfg: Config, steps: seq<Step>, v: View, a: Action) returns (steps': seq<Step>, v': View)
    requires Follows(cfg, Initial({}), steps, Alone(v)) && Act(cfg, v, a).Some?
    ensures Act(cfg, v, a) == Some(v') && Follows(cfg, Initial({}), steps', Alone(v'))
  {
    v' := Act(cfg, v, a).value;
    assert Alone(v).procs[0 := v'.proc] == map[0 := v'.proc];
    Extend(cfg, Initial({}), steps, Alone(v), Do(0, a), Alone(v'));
    steps' := steps + [Do(0, a)];
  }

  // Process 0 disappears and the job is started again.
  lemma Restart(cfg: Config, steps: seq<Step>, v: View) returns (steps': seq<Step>, v': View)
    requires Follows(cfg, Initial({}), steps, Alone(v))
    ensures v' == v.(proc := NewProc(cfg)) && Follows(cfg, Initial({}), steps', Alone(v'))
  {
    v' := v.(proc := NewProc(cfg));
    var empty := State(v.store, v.row, map[]);
    assert Alone(v).procs - {0} == map[];
    Extend(cfg, Initial({}), steps, Alone(v), Gone(0), empty);
    Extend(cfg, Initial({}), steps + [Gone(0)], empty, Spawn(0), Alone(v'));
    steps' := steps + [Gone(0)] + [Spawn(0)];
  }

  // With no worker every batch ends at once with no outcome, and the position still moves on.
  lemma {:induction false} WorkerlessBatches(cfg: Config, steps: seq<Step>, v: View)
    returns (steps': seq<Step>, v': View)
    requires cfg.Valid() && cfg.concurrency <= 0
    requires v.store == {} && v.row.Some? && v.proc.phase.LoopHead?
    requires v.proc == NewProc(cfg).(phase := v.proc.phase)
    requires Follows(cfg, Initial({}), steps, Alone(v))
    ensures v'.store == {} && v'.row.Some? && v'.proc == NewProc(cfg).(phase := Marking)
    ensures Follows(cfg, Initial({}), steps', Alone(v'))
    decreases SequenceCount(cfg, v.proc) - v.proc.phase.batchStart
  {
    var b := v.proc.phase.batchStart;
    if b >= SequenceCount(cfg, v.proc) {
      steps', v' := Then(cfg, steps, v, Enter);
    } else {
      var pool := NewPool<Stage, Outcome>(BatchLength(cfg, v.proc, b), cfg.concurrency);
      assert pool.workers == [];
      NothingToTally(pool.results, v.proc.resumeFrom + b);
      steps', v' := Then(cfg, steps, v, Enter);
      steps', v' := Then(cfg, steps', v', Tally);
      steps', v' := Then(cfg, steps', v', Save);
      steps', v' := WorkerlessBatches(cfg, steps', v');
    }
  }

  lemma {:induction false} NothingToTally(results: seq<Option<Outcome>>, first: int)
    requires forall i :: 0 <= i < |results| ==> results[i].None?
    ensures CountOf(results, Processed) == CountOf(results, Skipped) == CountOf(results, Rejected) == 0
    ensures LastRejected(results, first, None) == None
    decreases |results|
  {
    if results != [] {
      NothingToTally(results[..|results| - 1], first);
    }
  }

  lemma MisleadingRun(cfg: Config) returns (steps: seq<Step>)
    requires cfg.Valid() && !NoHoles(cfg)
    ensures OneAtATime(cfg, Initial({}), steps) && Run(cfg, Initial({}), steps).Some?
    ensures Misleading(cfg, Run(cfg, Initial({}), steps).value)
  {
    var s: State;
    steps, s := FreshJob(cfg);
    var v := View(s.store, s.row, s.procs[0]);
    if cfg.abortable {
      steps, v := Then(cfg, steps, v, Signal);
      steps, v := Then(cfg, steps, v, Enter);
      steps, v := Then(cfg, steps, v, Cancel);
    } else {
      steps, v := WorkerlessBatches(cfg, steps, v);
    }
    steps, v := Then(cfg, steps, v, Mark);
    assert cfg.start !in v.store;
  }
}
