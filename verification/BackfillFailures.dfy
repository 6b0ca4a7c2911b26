/**
 What the failures of a backfill leave behind: the failed count of its row, the ledger a caller is told to resume
 from, and what overlapping processes of one job can make a row say.
 */
module BackfillFailures {
  import opened Wrappers
  import opened WorkerPool
  import opened Checkpoint
  import opened BackfillSystem
  import opened BackfillSafety
  import opened BackfillCompletion

  predicate Ascending(list: seq<int>) {
    forall i, j :: 0 <= i < j < |list| ==> list[i] < list[j]
  }

  // ----- The failures of one batch -----

  // The rejected sequences of a batch starting at `first`.
  function RejectedIn(results: seq<Option<Outcome>>, first: int): seq<int> {
    if results == [] then []
    else
      var last := |results| - 1;
      RejectedIn(results[..last], first) + if results[last] == Some(Rejected) then [first + last] else []
  }

  lemma {:induction false} RejectedInBatch(results: seq<Option<Outcome>>, first: int)
    ensures Ascending(RejectedIn(results, first))
    ensures forall k :: 0 <= k < |RejectedIn(results, first)| ==>
            first <= RejectedIn(results, first)[k] < first + |results|
    ensures forall i :: 0 <= i < |results| ==>
            (results[i] == Some(Rejected) <==> first + i in RejectedIn(results, first))
    decreases |results|
  {
    if results != [] {
      var last := |results| - 1;
      RejectedInBatch(results[..last], first);
      assert forall i :: 0 <= i < last ==> results[..last][i] == results[i];
    }
  }

  // The failed count of a batch is the length of that list, and the last failed ledger its last element.
  lemma {:induction false} BatchFailures(results: seq<Option<Outcome>>, first: int, previous: Option<int>)
    ensures var list := RejectedIn(results, first);
            && CountOf(results, Rejected) == |list|
            && LastRejected(results, first, previous) == if list == [] then previous else Some(list[|list| - 1])
    decreases |results|
  {
    if results != [] {
      BatchFailures(results[..|results| - 1], first, previous);
    }
  }

  // ----- The failures of a run -----

  // The rejected sequences that a run of one process counts, batch by batch.
  function Rejections(cfg: Config, v: View, actions: seq<Action>): seq<int>
    requires RunProc(cfg, v, actions).Some?
    decreases |actions|
  {
    if actions == [] then []
    else
      CountedBy(v, actions[0]) + Rejections(cfg, Act(cfg, v, actions[0]).value, actions[1..])
  }

  // The first sequence that can still be counted.
  function Uncounted(cfg: Config, p: Proc): int {
    match p.phase
    case LoopHead(b) => p.resumeFrom + b
    case InBatch(b, _) => p.resumeFrom + b
    case Saving(b) => p.resumeFrom + b + cfg.batchSize
    case _ => p.resumeFrom
  }

  predicate BatchFits(cfg: Config, p: Proc) {
    p.phase.InBatch? ==>
      && p.phase.batchStart < SequenceCount(cfg, p)
      && |p.phase.pool.results| == BatchLength(cfg, p, p.phase.batchStart)
  }

  predicate Started(p: Proc) {
    !p.phase.Loading?
  }

  predicate Finished(p: Proc) {
    p.phase.Cancelling? || p.phase.Marking? || p.phase.Returned?
  }

  lemma ActFits(cfg: Config, v: View, a: Action)
    requires BatchFits(cfg, v.proc) && Started(v.proc) && Act(cfg, v, a).Some?
    ensures BatchFits(cfg, Act(cfg, v, a).value.proc) && Started(Act(cfg, v, a).value.proc)
    ensures Finished(v.proc) ==> Finished(Act(cfg, v, a).value.proc)
    ensures !Finished(v.proc) ==>
            Finished(Act(cfg, v, a).value.proc) || Uncounted(cfg, v.proc) <= Uncounted(cfg, Act(cfg, v, a).value.proc)
  {
  }

  lemma ConcatAscending(a: seq<int>, b: seq<int>, mid: int)
    requires Ascending(a) && Ascending(b)
    requires (forall k :: 0 <= k < |a| ==> a[k] < mid) && (forall k :: 0 <= k < |b| ==> mid <= b[k])
    ensures Ascending(a + b)
  {
  }

  // What a list of failures says about a started process p that went on to p'.
  predicate Counts(cfg: Config, p: Proc, list: seq<int>, p': Proc) {
    && p'.failed == p.failed + |list|
    && p'.lastFailed == (if list == [] then p.lastFailed else Some(list[|list| - 1]))
    && Ascending(list)
    && (Finished(p) ==> list == [])
    && forall k :: 0 <= k < |list| ==> Uncounted(cfg, p) <= list[k] <= cfg.end
  }

  // The failures one step counts.
  function CountedBy(v: View, a: Action): seq<int> {
    if a.Tally? && v.proc.phase.InBatch? then
      RejectedIn(v.proc.phase.pool.results, v.proc.resumeFrom + v.proc.phase.batchStart)
    else []
  }

  lemma ActCounts(cfg: Config, v: View, a: Action)
    requires BatchFits(cfg, v.proc) && Started(v.proc) && Act(cfg, v, a).Some?
    ensures Counts(cfg, v.proc, CountedBy(v, a), Act(cfg, v, a).value.proc)
    ensures var p := Act(cfg, v, a).value.proc;
            !Finished(p) ==> forall k :: 0 <= k < |CountedBy(v, a)| ==> CountedBy(v, a)[k] < Uncounted(cfg, p)
  {
    if a.Tally? {
      var results, first := v.proc.phase.pool.results, v.proc.resumeFrom + v.proc.phase.batchStart;
      RejectedInBatch(results, first);
      BatchFailures(results, first, v.proc.lastFailed);
    }
  }

  lemma CountsAppend(cfg: Config, p: Proc, list: seq<int>, p': Proc, list': seq<int>, p'': Proc)
    requires Counts(cfg, p, list, p') && Counts(cfg, p', list', p'')
    requires Finished(p) ==> Finished(p')
    requires !Finished(p') ==>
      (Finished(p) || Uncounted(cfg, p) <= Uncounted(cfg, p'))
      && forall k :: 0 <= k < |list| ==> list[k] < Uncounted(cfg, p')
    ensures Counts(cfg, p, list + list', p'')
  {
    if Finished(p') {
      assert list + list' == list;
    } else {
      ConcatAscending(list, list', Uncounted(cfg, p'));
    }
  }

  // Once started, a process counts each failure once, in ascending order, and remembers the last one.
  lemma {:induction false} FailuresCounted(cfg: Config, v: View, actions: seq<Action>)
    requires RunProc(cfg, v, actions).Some? && BatchFits(cfg, v.proc) && Started(v.proc)
    ensures Counts(cfg, v.proc, Rejections(cfg, v, actions), RunProc(cfg, v, actions).value.proc)
    decreases |actions|
  {
    if actions != [] {
      var a, v' := actions[0], Act(cfg, v, actions[0]).value;
      ActFits(cfg, v, a);
      ActCounts(cfg, v, a);
      FailuresCounted(cfg, v', actions[1..]);
      CountsAppend(cfg, v.proc, CountedBy(v, a), v'.proc, Rejections(cfg, v', actions[1..]),
        RunProc(cfg, v, actions).value.proc);
    }
  }

  // ----- The failures counted are the tasks rejected -----

  function Members(list: seq<int>): set<int> {
    set x | x in list
  }

  // The rejected sequences of the batch a process is in.
  function Pending(p: Proc): set<int> {
    if p.phase.InBatch? then Members(RejectedIn(p.phase.pool.results, p.resumeFrom + p.phase.batchStart)) else {}
  }

  // The sequence whose task a step settles as rejected.
  function RejectedBy(v: View, a: Action): set<int> {
    if a.SettleTask? && a.outcome.Rejected? && v.proc.phase.InBatch? && IsRunning(v.proc.phase.pool, a.w) then
      {v.proc.resumeFrom + v.proc.phase.batchStart + v.proc.phase.pool.workers[a.w].index}
    else {}
  }

  // The sequences whose tasks a run settles as rejected.
  function RejectedAlong(cfg: Config, v: View, actions: seq<Action>): set<int>
    requires RunProc(cfg, v, actions).Some?
    decreases |actions|
  {
    if actions == [] then {}
    else RejectedBy(v, actions[0]) + RejectedAlong(cfg, Act(cfg, v, actions[0]).value, actions[1..])
  }

  ghost predicate PoolSound(p: Proc) {
    p.phase.InBatch? ==> PoolInv(p.phase.pool, p.aborted)
  }

  lemma ActSound(cfg: Config, v: View, a: Action)
    requires PoolSound(v.proc) && Act(cfg, v, a).Some?
    ensures PoolSound(Act(cfg, v, a).value.proc)
  {
    var p := v.proc;
    if a.Enter? {
      var b := p.phase.batchStart;
      if b < SequenceCount(cfg, p) && !p.aborted {
        NewPoolInv<Stage, Outcome>(BatchLength(cfg, p, b), cfg.concurrency);
      }
    } else if p.phase.InBatch? && !a.Signal? && !a.Tally? {
      PoolStepKeepsInv(v.store, p.resumeFrom + p.phase.batchStart, p.aborted, p.phase.pool, a);
    }
  }

  lemma {:induction false} NothingRejected(results: seq<Option<Outcome>>, first: int)
    requires forall i :: 0 <= i < |results| ==> results[i] != Some(Rejected)
    ensures RejectedIn(results, first) == []
    decreases |results|
  {
    if results != [] {
      NothingRejected(results[..|results| - 1], first);
    }
  }

  lemma MembersOfBatch(results: seq<Option<Outcome>>, first: int, x: int)
    ensures x in Members(RejectedIn(results, first)) <==>
              first <= x < first + |results| && results[x - first] == Some(Rejected)
  {
    RejectedInBatch(results, first);
    if first <= x < first + |results| {
      assert first + (x - first) == x;
    }
  }

  // Settling task i adds its sequence if it is rejected.
  lemma SettledMembers(results: seq<Option<Outcome>>, first: int, i: nat, o: Outcome)
    requires i < |results| && results[i].None?
    ensures Members(RejectedIn(results[i := Some(o)], first))
         == Members(RejectedIn(results, first)) + if o.Rejected? then {first + i} else {}
  {
    var before, after := Members(RejectedIn(results, first)), Members(RejectedIn(results[i := Some(o)], first));
    forall x | x in before + after + {first + i}
      ensures x in after <==> x in before || (o.Rejected? && x == first + i)
    {
      MembersOfBatch(results[i := Some(o)], first, x);
      MembersOfBatch(results, first, x);
    }
  }

  // A worker's step adds to the batch the sequence it settles as rejected.
  lemma PoolMoves(cfg: Config, v: View, a: Action)
    requires v.proc.phase.InBatch? && PoolInv(v.proc.phase.pool, v.proc.aborted) && WorkerStep(cfg, v, a).Some?
    ensures Pending(WorkerStep(cfg, v, a).value.proc) == Pending(v.proc) + RejectedBy(v, a)
  {
    var pool := v.proc.phase.pool;
    if a.SettleTask? {
      var i := pool.workers[a.w].index;
      assert InFlight(pool, i) && pool.results[i].None?;
      SettledMembers(pool.results, v.proc.resumeFrom + v.proc.phase.batchStart, i, a.outcome);
    }
  }

  lemma EnterMoves(cfg: Config, v: View)
    requires v.proc.phase.LoopHead?
    ensures Pending(EnterStep(cfg, v.proc)) == {}
  {
    var p := EnterStep(cfg, v.proc);
    if p.phase.InBatch? {
      NothingRejected(p.phase.pool.results, p.resumeFrom + p.phase.batchStart);
    }
  }

  lemma OwnMoves(cfg: Config, v: View, a: Action)
    requires !IsWorkers(a) && !a.Enter? && Act(cfg, v, a).Some?
    ensures Members(CountedBy(v, a)) + Pending(Act(cfg, v, a).value.proc) == Pending(v.proc)
  {
    if a.Tally? {
      assert Act(cfg, v, a).value.proc.phase.Saving?;
    } else {
      assert Members(CountedBy(v, a)) == {};
    }
  }

  // One step moves rejected sequences from the batch to the list, or adds the one it settles.
  lemma ActMoves(cfg: Config, v: View, a: Action)
    requires PoolSound(v.proc) && Act(cfg, v, a).Some?
    ensures Members(CountedBy(v, a)) + Pending(Act(cfg, v, a).value.proc) == Pending(v.proc) + RejectedBy(v, a)
  {
    if IsWorkers(a) {
      assert Act(cfg, v, a) == WorkerStep(cfg, v, a);
      PoolMoves(cfg, v, a);
    } else if a.Enter? {
      EnterMoves(cfg, v);
    } else {
      OwnMoves(cfg, v, a);
    }
  }

  lemma UnionsAgree<T>(counted: set<T>, pending': set<T>, pending: set<T>, rejected: set<T>,
                       more: set<T>, end: set<T>, rest: set<T>)
    requires counted + pending' == pending + rejected && more + end == pending' + rest
    ensures counted + more + end == pending + (rejected + rest)
  {
  }

  lemma MembersAppend(a: seq<int>, b: seq<int>)
    ensures Members(a + b) == Members(a) + Members(b)
  {
  }

  // What is counted, together with what the current batch still holds, is exactly what was rejected.
  lemma {:induction false} CountedAreRejected(cfg: Config, v: View, actions: seq<Action>)
    requires RunProc(cfg, v, actions).Some? && PoolSound(v.proc)
    ensures Members(Rejections(cfg, v, actions)) + Pending(RunProc(cfg, v, actions).value.proc)
         == Pending(v.proc) + RejectedAlong(cfg, v, actions)
    decreases |actions|
  {
    if actions != [] {
      var a, v', rest := actions[0], Act(cfg, v, actions[0]).value, actions[1..];
      ActSound(cfg, v, a);
      ActMoves(cfg, v, a);
      CountedAreRejected(cfg, v', rest);
      var counted, more := CountedBy(v, a), Rejections(cfg, v', rest);
      MembersAppend(counted, more);
      UnionsAgree(Members(counted), Pending(v'.proc), Pending(v.proc), RejectedBy(v, a),
                  Members(more), Pending(RunProc(cfg, v, actions).value.proc), RejectedAlong(cfg, v', rest));
    }
  }

  // ----- From the start of a process -----

  // An in-progress row with a position is resumed.
  predicate Resumes(row: Option<Row>) {
    row.Some? && row.value.status.InProgress? && row.value.last.Some?
  }

  function ResumedFailures(row: Option<Row>): nat {
    if Resumes(row) then row.value.failed else 0
  }

  // What a process knows before it has loaded the row.
  predicate Fresh(cfg: Config, p: Proc) {
    p == NewProc(cfg).(aborted := p.aborted)
  }

  // Main result 4. When a process returns, its failed count is what it resumed plus the number of its own failures,
  // which are exactly the ledgers whose tasks were rejected; `resumeFrom` is the last of them. It is also the first,
  // and restarting there covers all of them, if and only if there is only one.
  lemma ResumeFromIsLastFailure(cfg: Config, v: View, actions: seq<Action>)
    requires Fresh(cfg, v.proc) && RunProc(cfg, v, actions).Some? && RunProc(cfg, v, actions).value.proc.phase.Returned?
    ensures var list, p := Rejections(cfg, v, actions), RunProc(cfg, v, actions).value.proc;
            && p.failed == ResumedFailures(v.row) + |list|
            && Members(list) == RejectedAlong(cfg, v, actions) && Ascending(list)
            && (p.lastFailed.None? <==> list == [])
            && (list != [] ==> p.lastFailed == Some(list[|list| - 1]))
            && (list != [] ==> (p.lastFailed == Some(list[0]) <==> |list| == 1))
            && (list != [] ==>
                  ((forall x :: x in RejectedAlong(cfg, v, actions) ==> x >= p.lastFailed.value) <==> |list| == 1))
  {
    FromLoading(cfg, v, actions);
    CountedAreRejected(cfg, v, actions);
    var list := Rejections(cfg, v, actions);
    if list != [] {
      assert list[0] in Members(list) && list[|list| - 1] in Members(list);
    }
  }

  lemma {:induction false} FromLoading(cfg: Config, v: View, actions: seq<Action>)
    requires Fresh(cfg, v.proc) && RunProc(cfg, v, actions).Some? && Started(RunProc(cfg, v, actions).value.proc)
    ensures var list, p := Rejections(cfg, v, actions), RunProc(cfg, v, actions).value.proc;
            && p.failed == ResumedFailures(v.row) + |list|
            && p.lastFailed == (if list == [] then None else Some(list[|list| - 1]))
            && Ascending(list)
    decreases |actions|
  {
    var a, v' := actions[0], Act(cfg, v, actions[0]).value;
    if a.Load? {
      FailuresCounted(cfg, v', actions[1..]);
    } else {
      FromLoading(cfg, v', actions[1..]);
    }
  }

  // ----- Failures on a completed row -----

  // No other process acts; others may start or disappear, and other writers may add ledgers.
  predicate Undisturbed(steps: seq<Step>, pid: nat) {
    forall i :: 0 <= i < |steps| ==>
      (steps[i].Do? ==> steps[i].pid == pid) && (steps[i].Spawn? || steps[i].Gone? ==> steps[i].pid != pid)
  }

  // How a process and the row stand that it found as `row`.
  predicate Owns(row: Option<Row>, v: View) {
    match v.proc.phase
    case Loading => v.row == row && v.proc.failed == 0 && v.proc.lastFailed.None?
    case Creating => v.row == row && !Resumes(row) && v.proc.failed == 0 && v.proc.lastFailed.None?
    case _ =>
      && v.row.Some?
      && v.proc.failed >= ResumedFailures(row)
      && (v.proc.lastFailed.None? <==> v.proc.failed == ResumedFailures(row))
      && (v.proc.phase.Returned? ==>
            v.row.value.failed == v.proc.failed && (v.row.value.status.Completed? <==> v.proc.lastFailed.None?))
  }

  lemma ActOwns(cfg: Config, row: Option<Row>, v: View, a: Action)
    requires Owns(row, v) && Act(cfg, v, a).Some?
    ensures Owns(row, Act(cfg, v, a).value)
  {
    if a.Tally? {
      BatchFailures(v.proc.phase.pool.results, v.proc.resumeFrom + v.proc.phase.batchStart, v.proc.lastFailed);
    }
  }

  lemma {:induction false} UndisturbedOwns(cfg: Config, row: Option<Row>, s: State, steps: seq<Step>, pid: nat)
    requires pid in s.procs && Owns(row, View(s.store, s.row, s.procs[pid]))
    requires Undisturbed(steps, pid) && Run(cfg, s, steps).Some?
    ensures var s' := Run(cfg, s, steps).value;
            pid in s'.procs && Owns(row, View(s'.store, s'.row, s'.procs[pid]))
    decreases |steps|
  {
    if steps != [] {
      var step, s' := steps[0], Apply(cfg, s, steps[0]).value;
      if step.Do? {
        ActOwns(cfg, row, View(s.store, s.row, s.procs[pid]), step.action);
      }
      assert Undisturbed(steps[1..], pid) by {
        assert forall i :: 0 <= i < |steps[1..]| ==> steps[1..][i] == steps[i + 1];
      }
      UndisturbedOwns(cfg, row, s', steps[1..], pid);
    }
  }

  // Main result 5. A process that no other process disturbs leaves a row that is completed if and only if it had no
  // failure of its own; such a row has failures if and only if the process resumed a row that had some.
  lemma FailuresOfCompletedRow(cfg: Config, s: State, steps: seq<Step>, pid: nat)
    requires pid in s.procs && s.procs[pid] == NewProc(cfg)
    requires Undisturbed(steps, pid) && Run(cfg, s, steps).Some?
    requires pid in Run(cfg, s, steps).value.procs && Run(cfg, s, steps).value.procs[pid].phase.Returned?
    ensures var row := Run(cfg, s, steps).value.row;
            && row.Some?
            && row.value.failed >= ResumedFailures(s.row)
            && (row.value.status.Completed? <==> row.value.failed == ResumedFailures(s.row))
            && (row.value.status.Completed? ==> (row.value.failed > 0 <==> Resumes(s.row) && s.row.value.failed > 0))
  {
    UndisturbedOwns(cfg, s.row, s, steps, pid);
  }

  // ----- Without workers there are no failures -----

  predicate Idle(p: Proc) {
    && p.failed == 0
    && (p.phase.InBatch? ==>
          p.phase.pool.workers == [] && forall i :: 0 <= i < |p.phase.pool.results| ==> p.phase.pool.results[i].None?)
  }

  predicate IdleView(v: View) {
    Idle(v.proc) && (v.row.Some? ==> v.row.value.failed == 0)
  }

  lemma ActIdle(cfg: Config, v: View, a: Action)
    requires cfg.concurrency <= 0 && IdleView(v) && Act(cfg, v, a).Some?
    ensures IdleView(Act(cfg, v, a).value)
  {
    if a.Tally? {
      NoneRejected(v.proc.phase.pool.results);
    }
  }

  lemma {:induction false} NoneRejected(results: seq<Option<Outcome>>)
    requires forall i :: 0 <= i < |results| ==> results[i].None?
    ensures CountOf(results, Rejected) == 0
    decreases |results|
  {
    if results != [] {
      NoneRejected(results[..|results| - 1]);
    }
  }

  predicate IdleState(s: State) {
    (s.row.Some? ==> s.row.value.failed == 0) && forall pid :: pid in s.procs ==> Idle(s.procs[pid])
  }

  lemma {:induction false} RunIdle(cfg: Config, s: State, steps: seq<Step>)
    requires cfg.concurrency <= 0 && IdleState(s) && Run(cfg, s, steps).Some?
    ensures IdleState(Run(cfg, s, steps).value)
    decreases |steps|
  {
    if steps != [] {
      var s' := Apply(cfg, s, steps[0]).value;
      if steps[0].Do? {
        ActIdle(cfg, View(s.store, s.row, s.procs[steps[0].pid]), steps[0].action);
      }
      RunIdle(cfg, s', steps[1..]);
    }
  }

  lemma {:induction false} RunProcIdle(cfg: Config, v: View, actions: seq<Action>)
    requires cfg.concurrency <= 0 && IdleView(v) && RunProc(cfg, v, actions).Some?
    ensures IdleView(RunProc(cfg, v, actions).value)
    decreases |actions|
  {
    if actions != [] {
      ActIdle(cfg, v, actions[0]);
      RunProcIdle(cfg, Act(cfg, v, actions[0]).value, actions[1..]);
    }
  }

  // ----- Runs in which the first worker takes every task -----

  // One more step of a run of one process.
  lemma Next(cfg: Config, v0: View, actions: seq<Action>, v: View, a: Action) returns (actions': seq<Action>, v': View)
    requires RunProc(cfg, v0, actions) == Some(v) && Act(cfg, v, a).Some?
    ensures Act(cfg, v, a) == Some(v') && RunProc(cfg, v0, actions') == Some(v')
  {
    RunProcSnoc(cfg, v0, actions, a);
    actions', v' := actions + [a], Act(cfg, v, a).value;
  }

  // The first k of n tasks have settled with the outcome.
  function Settled(n: nat, k: nat, o: Outcome): seq<Option<Outcome>> {
    seq(n, i => if i < k then Some(o) else None)
  }

  // All m workers wait for a task, but for the first j, which have left.
  function Crew(m: nat, j: nat): seq<Worker<Stage>> {
    seq(m, i => if i < j then Exited else Looping)
  }

  function PoolAt(n: nat, k: nat, o: Outcome, m: nat, j: nat): LedgerPool {
    Pool(k, Settled(n, k, o), Crew(m, j))
  }

  function FirstOf(p: Proc): int
    requires p.phase.InBatch?
  {
    p.resumeFrom + p.phase.batchStart
  }

  function WithPool(v: View, pool: LedgerPool): View
    requires v.proc.phase.InBatch?
  {
    v.(proc := v.proc.(phase := InBatch(v.proc.phase.batchStart, pool)))
  }

  // A run of the workers of one batch that is not aborted, with what it leaves in the store and the pool.
  function RunPool(store: set<int>, first: int, pool: LedgerPool, actions: seq<Action>): Option<(set<int>, LedgerPool)>
    decreases |actions|
  {
    if actions == [] then Some((store, pool))
    else match PoolStep(store, first, false, pool, actions[0])
      case None => None
      case Some(pool') => RunPool(StoreAfter(store, first, pool, actions[0]), first, pool', actions[1..])
  }

  lemma {:induction false} RunPoolAppend(store: set<int>, first: int, pool: LedgerPool, xs: seq<Action>,
                                         ys: seq<Action>)
    requires RunPool(store, first, pool, xs).Some?
    ensures var middle := RunPool(store, first, pool, xs).value;
            RunPool(store, first, pool, xs + ys) == RunPool(middle.0, first, middle.1, ys)
    decreases |xs|
  {
    if xs == [] {
      assert xs + ys == ys;
    } else {
      assert (xs + ys)[0] == xs[0] && (xs + ys)[1..] == xs[1..] + ys;
      RunPoolAppend(StoreAfter(store, first, pool, xs[0]), first, PoolStep(store, first, false, pool, xs[0]).value,
        xs[1..], ys);
    }
  }

  lemma {:induction false} RunPoolIsRun(cfg: Config, v: View, actions: seq<Action>)
    requires v.proc.phase.InBatch? && !v.proc.aborted
             && RunPool(v.store, FirstOf(v.proc), v.proc.phase.pool, actions).Some?
    ensures var end := RunPool(v.store, FirstOf(v.proc), v.proc.phase.pool, actions).value;
            RunProc(cfg, v, actions) == Some(WithPool(v, end.1).(store := end.0))
    decreases |actions|
  {
    if actions != [] {
      var a := actions[0];
      var pool := PoolStep(v.store, FirstOf(v.proc), false, v.proc.phase.pool, a).value;
      RunPoolIsRun(cfg, WithPool(v, pool).(store := StoreAfter(v.store, FirstOf(v.proc), v.proc.phase.pool, a)),
        actions[1..]);
    }
  }

  // Worker 0 takes a task and settles it: fetched and stored, or failing to be fetched. If the ledger is stored
  // already, its lookup fails.
  function OneTask(o: Outcome, stored: bool): seq<Action> {
    [ClaimTask(0), Miss(0, stored)] + (if o.Processed? then [Commit(0)] else []) + [SettleTask(0, o)]
  }

  // The pool while worker 0 is in a stage of task k.
  function Busy(n: nat, k: nat, o: Outcome, m: nat, stage: Stage): LedgerPool
    requires m > 0
  {
    Pool(k + 1, Settled(n, k, o), Crew(m, 0)[0 := Running(k, stage)])
  }

  lemma BusySteps(store: set<int>, first: int, n: nat, k: nat, m: nat, o: Outcome)
    requires k < n && m > 0 && !o.Skipped?
    ensures PoolStep(store, first, false, PoolAt(n, k, o, m, 0), ClaimTask(0)) == Some(Busy(n, k, o, m, Checking))
    ensures PoolStep(store, first, false, Busy(n, k, o, m, Checking), Miss(0, first + k in store))
         == Some(Busy(n, k, o, m, Writing))
    ensures PoolStep(store, first, false, Busy(n, k, o, m, Writing), Commit(0)) == Some(Busy(n, k, o, m, Committed))
    ensures PoolStep(store, first, false, Busy(n, k, o, m, if o.Processed? then Committed else Writing),
            SettleTask(0, o))
         == Some(PoolAt(n, k + 1, o, m, 0))
  {
    var workers := Crew(m, 0);
    assert workers[0 := Running(k, Checking)][0 := Running(k, Writing)] == workers[0 := Running(k, Writing)];
    assert workers[0 := Running(k, Writing)][0 := Running(k, Committed)] == workers[0 := Running(k, Committed)];
    assert workers[0 := Running(k, if o.Processed? then Committed else Writing)][0 := Looping] == workers;
    assert Settled(n, k, o)[k := Some(o)] == Settled(n, k + 1, o);
  }

  lemma OneStep(store: set<int>, first: int, pool: LedgerPool, a: Action, rest: seq<Action>)
    requires PoolStep(store, first, false, pool, a).Some?
    ensures RunPool(store, first, pool, [a] + rest)
         == RunPool(StoreAfter(store, first, pool, a), first, PoolStep(store, first, false, pool, a).value, rest)
  {
    assert ([a] + rest)[1..] == rest;
  }

  lemma TakeOne(store: set<int>, first: int, n: nat, k: nat, m: nat, o: Outcome)
    requires k < n && m > 0 && !o.Skipped?
    ensures RunPool(store, first, PoolAt(n, k, o, m, 0), OneTask(o, first + k in store))
         == Some((if o.Processed? then store + {first + k} else store, PoolAt(n, k + 1, o, m, 0)))
  {
    var rest := (if o.Processed? then [Commit(0)] else []) + [SettleTask(0, o)];
    BusySteps(store, first, n, k, m, o);
    var miss := Miss(0, first + k in store);
    assert OneTask(o, first + k in store) == [ClaimTask(0)] + ([miss] + rest);
    OneStep(store, first, PoolAt(n, k, o, m, 0), ClaimTask(0), [miss] + rest);
    OneStep(store, first, Busy(n, k, o, m, Checking), miss, rest);
    SettleOne(store, first, n, k, m, o);
  }

  lemma SettleOne(store: set<int>, first: int, n: nat, k: nat, m: nat, o: Outcome)
    requires k < n && m > 0 && !o.Skipped?
    ensures RunPool(store, first, Busy(n, k, o, m, Writing),
            (if o.Processed? then [Commit(0)] else []) + [SettleTask(0, o)])
         == Some((if o.Processed? then store + {first + k} else store, PoolAt(n, k + 1, o, m, 0)))
  {
    var stored := store + {first + k};
    BusySteps(store, first, n, k, m, o);
    assert [SettleTask(0, o)] + [] == [SettleTask(0, o)] == [] + [SettleTask(0, o)];
    if o.Processed? {
      BusySteps(stored, first, n, k, m, o);
      OneStep(store, first, Busy(n, k, o, m, Writing), Commit(0), [SettleTask(0, o)]);
      OneStep(stored, first, Busy(n, k, o, m, Committed), SettleTask(0, o), []);
    } else {
      OneStep(store, first, Busy(n, k, o, m, Writing), SettleTask(0, o), []);
    }
  }

  // What a batch adds to the store: nothing but ledgers of the batch, and nothing at all if every task fails.
  predicate StoreGrows(store: set<int>, store': set<int>, first: int, n: nat, o: Outcome) {
    && (forall x :: x in store' ==> x in store || (o.Processed? && first <= x < first + n))
    && (o.Rejected? ==> store' == store)
  }

  lemma {:induction false} TakeAll(store: set<int>, first: int, n: nat, k: nat, m: nat, o: Outcome)
    returns (actions: seq<Action>, store': set<int>)
    requires k <= n && m > 0 && !o.Skipped?
    ensures RunPool(store, first, PoolAt(n, k, o, m, 0), actions) == Some((store', PoolAt(n, n, o, m, 0)))
    ensures StoreGrows(store, store', first, n, o)
    decreases n - k
  {
    if k == n {
      actions, store' := [], store;
    } else {
      TakeOne(store, first, n, k, m, o);
      var rest;
      rest, store' := TakeAll(if o.Processed? then store + {first + k} else store, first, n, k + 1, m, o);
      RunPoolAppend(store, first, PoolAt(n, k, o, m, 0), OneTask(o, first + k in store), rest);
      actions := OneTask(o, first + k in store) + rest;
    }
  }

  lemma {:induction false} LeaveAll(store: set<int>, first: int, n: nat, m: nat, j: nat, o: Outcome)
    returns (actions: seq<Action>)
    requires j <= m
    ensures RunPool(store, first, PoolAt(n, n, o, m, j), actions) == Some((store, PoolAt(n, n, o, m, m)))
    decreases m - j
  {
    if j == m {
      actions := [];
    } else {
      assert Crew(m, j)[j := Exited] == Crew(m, j + 1);
      var rest := LeaveAll(store, first, n, m, j + 1, o);
      OneStep(store, first, PoolAt(n, n, o, m, j), Leave(j), rest);
      actions := [Leave(j)] + rest;
    }
  }

  lemma {:induction false} AllSettled(n: nat, o: Outcome, first: int, previous: Option<int>)
    requires n > 0 && !o.Skipped?
    ensures var results := Settled(n, n, o);
            && CountOf(results, Processed) == (if o.Processed? then n else 0)
            && CountOf(results, Skipped) == 0
            && CountOf(results, Rejected) == (if o.Rejected? then n else 0)
            && LastRejected(results, first, previous) == if o.Rejected? then Some(first + n - 1) else previous
    decreases n
  {
    var init := Settled(n, n, o)[..n - 1];
    assert init == Settled(n - 1, n - 1, o);
    if n > 1 {
      AllSettled(n - 1, o, first, previous);
    } else {
      assert init == [];
    }
  }

  // A process after a batch of n tasks that all settled with the outcome.
  function AfterBatch(p: Proc, b: nat, n: nat, next: nat, o: Outcome): Proc {
    p.(phase := LoopHead(next),
       processed := p.processed + (if o.Processed? then n else 0),
       failed := p.failed + (if o.Rejected? then n else 0),
       lastFailed := if o.Rejected? then Some(p.resumeFrom + b + n - 1) else p.lastFailed)
  }

  // The row after saving a position.
  function Saved(row: Option<Row>, p: Progress): Option<Row> {
    if row.None? then None else Some(SaveRow(row.value, p))
  }

  lemma WholeBatch(cfg: Config, v0: View, actions: seq<Action>, v: View, b: nat, o: Outcome)
    returns (actions': seq<Action>, v': View)
    requires cfg.Valid() && cfg.concurrency >= 1 && !o.Skipped?
    requires RunProc(cfg, v0, actions) == Some(v) && v.proc.phase == LoopHead(b) && !v.proc.aborted
             && b < SequenceCount(cfg, v.proc)
    ensures RunProc(cfg, v0, actions') == Some(v')
    ensures var n := BatchLength(cfg, v.proc, b); var p := AfterBatch(v.proc, b, n, b + cfg.batchSize, o);
            && v'.proc == p
            && v'.row == Saved(v.row, ProgressOf(p, v.proc.resumeFrom + b + n - 1))
            && StoreGrows(v.store, v'.store, v.proc.resumeFrom + b, n, o)
  {
    var n := BatchLength(cfg, v.proc, b);
    actions', v' := RunWholeBatch(cfg, v0, actions, v, b, o);
    var ran := v';
    actions', v' := TallyBatch(cfg, v0, actions', ran, b, n, PoolSize(cfg.concurrency, n), o);
    var tallied := v';
    assert tallied.proc == AfterBatch(v.proc, b, n, 0, o).(phase := Saving(b)) && tallied.row == v.row;
    actions', v' := SaveBatch(cfg, v0, actions', tallied, b);
  }

  lemma SaveStep(cfg: Config, v: View, b: nat)
    requires v.proc.phase == Saving(b) && b < SequenceCount(cfg, v.proc)
    ensures var last := v.proc.resumeFrom + b + BatchLength(cfg, v.proc, b) - 1;
            Act(cfg, v, Save) == Some(View(v.store, Saved(v.row, ProgressOf(v.proc, last)),
                                           v.proc.(phase := LoopHead(b + cfg.batchSize))))
  {
  }

  lemma SaveBatch(cfg: Config, v0: View, actions: seq<Action>, v: View, b: nat)
    returns (actions': seq<Action>, v': View)
    requires RunProc(cfg, v0, actions) == Some(v) && v.proc.phase == Saving(b) && b < SequenceCount(cfg, v.proc)
    ensures RunProc(cfg, v0, actions') == Some(v')
    ensures v'.store == v.store && v'.proc == v.proc.(phase := LoopHead(b + cfg.batchSize))
    ensures v'.row == Saved(v.row, ProgressOf(v.proc, v.proc.resumeFrom + b + BatchLength(cfg, v.proc, b) - 1))
  {
    SaveStep(cfg, v, b);
    actions', v' := Next(cfg, v0, actions, v, Save);
  }

  lemma TalliedBatch(cfg: Config, p: Proc, b: nat, n: nat, m: nat, o: Outcome)
    requires p.phase == InBatch(b, PoolAt(n, n, o, m, m)) && n > 0 && !o.Skipped?
    ensures Tallied(cfg, p, b, Settled(n, n, o)) == AfterBatch(p, b, n, 0, o).(phase := Saving(b))
  {
    AllSettled(n, o, p.resumeFrom + b, p.lastFailed);
  }

  lemma TallyBatch(cfg: Config, v0: View, actions: seq<Action>, v: View, b: nat, n: nat, m: nat, o: Outcome)
    returns (actions': seq<Action>, v': View)
    requires RunProc(cfg, v0, actions) == Some(v) && v.proc.phase == InBatch(b, PoolAt(n, n, o, m, m)) && n > 0
             && !o.Skipped?
    ensures RunProc(cfg, v0, actions') == Some(v')
    ensures v' == v.(proc := AfterBatch(v.proc, b, n, 0, o).(phase := Saving(b)))
  {
    TalliedBatch(cfg, v.proc, b, n, m, o);
    assert AllExited(PoolAt(n, n, o, m, m));
    actions', v' := Next(cfg, v0, actions, v, Tally);
  }

  // A run of the pool extends the run of the process.
  lemma ThenPool(cfg: Config, v0: View, actions: seq<Action>, v: View, more: seq<Action>)
    requires RunProc(cfg, v0, actions) == Some(v) && v.proc.phase.InBatch? && !v.proc.aborted
    requires RunPool(v.store, FirstOf(v.proc), v.proc.phase.pool, more).Some?
    ensures var (store, pool) := RunPool(v.store, FirstOf(v.proc), v.proc.phase.pool, more).value;
            RunProc(cfg, v0, actions + more) == Some(WithPool(v, pool).(store := store))
  {
    RunPoolIsRun(cfg, v, more);
    RunProcAppend(cfg, v0, actions, more);
  }

  // The workers' part of a batch.
  lemma RunWholeBatch(cfg: Config, v0: View, actions: seq<Action>, v: View, b: nat, o: Outcome)
    returns (actions': seq<Action>, v': View)
    requires cfg.Valid() && cfg.concurrency >= 1 && !o.Skipped?
    requires RunProc(cfg, v0, actions) == Some(v) && v.proc.phase == LoopHead(b) && !v.proc.aborted
             && b < SequenceCount(cfg, v.proc)
    ensures RunProc(cfg, v0, actions') == Some(v')
    ensures var n := BatchLength(cfg, v.proc, b); var m := PoolSize(cfg.concurrency, n);
            && v'.proc == v.proc.(phase := InBatch(b, PoolAt(n, n, o, m, m)))
            && v'.row == v.row && StoreGrows(v.store, v'.store, v.proc.resumeFrom + b, n, o)
  {
    var n := BatchLength(cfg, v.proc, b);
    var m := PoolSize(cfg.concurrency, n);
    var first := v.proc.resumeFrom + b;
    actions', v' := Next(cfg, v0, actions, v, Enter);
    assert NewPool<Stage, Outcome>(n, cfg.concurrency) == PoolAt(n, 0, o, m, 0);
    var taking, store := TakeAll(v.store, first, n, 0, m, o);
    var leaving := LeaveAll(store, first, n, m, 0, o);
    RunPoolAppend(v.store, first, PoolAt(n, 0, o, m, 0), taking, leaving);
    ThenPool(cfg, v0, actions', v', taking + leaving);
    actions', v' := actions' + (taking + leaving), WithPool(v', PoolAt(n, n, o, m, m)).(store := store);
  }

  // Every task of every batch fails.
  lemma {:induction false} AllBatchesFail(cfg: Config, v0: View, actions: seq<Action>, v: View, b: nat)
    returns (actions': seq<Action>, v': View)
    requires cfg.Valid() && cfg.concurrency >= 1 && v.row.Some?
    requires RunProc(cfg, v0, actions) == Some(v) && v.proc.phase == LoopHead(b) && !v.proc.aborted
    ensures RunProc(cfg, v0, actions') == Some(v') && v'.store == v.store && v'.row.Some?
    ensures var left := Max(0, SequenceCount(cfg, v.proc) - b);
            v'.proc == v.proc.(phase := Marking, failed := v.proc.failed + left,
                               lastFailed := if left > 0 then Some(cfg.end) else v.proc.lastFailed)
    decreases SequenceCount(cfg, v.proc) - b
  {
    if b >= SequenceCount(cfg, v.proc) {
      actions', v' := Next(cfg, v0, actions, v, Enter);
    } else {
      var middle: View;
      actions', middle := WholeBatch(cfg, v0, actions, v, b, Rejected);
      actions', v' := AllBatchesFail(cfg, v0, actions', middle, b + cfg.batchSize);
    }
  }

  function EmptyTables(cfg: Config): View {
    View({}, None, NewProc(cfg))
  }

  // A first run of the job in which every ledger fails.
  lemma FailingRun(cfg: Config) returns (actions: seq<Action>, v: View)
    requires cfg.Valid() && cfg.concurrency >= 1
    ensures RunProc(cfg, EmptyTables(cfg), actions) == Some(v) && v.store == {} && v.proc.phase.Returned?
    ensures v.proc.failed == cfg.end - cfg.start + 1 && v.proc.lastFailed == Some(cfg.end) && !v.proc.aborted
    ensures v.row.Some? && v.row.value.status.Failed? && v.row.value.last == Some(cfg.end)
    ensures v.row.value.failed == cfg.end - cfg.start + 1
  {
    var v0 := EmptyTables(cfg);
    assert RunProc(cfg, v0, []) == Some(v0);
    actions, v := Next(cfg, v0, [], v0, Load);
    actions, v := Next(cfg, v0, actions, v, Create);
    actions, v := AllBatchesFail(cfg, v0, actions, v, 0);
    actions, v := Next(cfg, v0, actions, v, Mark);
  }

  // ----- When restarting at resumeFrom misses a failure -----

  // A first run of the job can return with a failed ledger below the one it tells to resume from.
  ghost predicate AdviceCanMiss(cfg: Config) {
    exists actions :: RunProc(cfg, EmptyTables(cfg), actions).Some? && Misses(cfg, EmptyTables(cfg), actions)
  }

  ghost predicate Misses(cfg: Config, v: View, actions: seq<Action>)
    requires RunProc(cfg, v, actions).Some?
  {
    var p := RunProc(cfg, v, actions).value.proc;
    p.phase.Returned? && p.lastFailed.Some? && exists x :: x in RejectedAlong(cfg, v, actions) && x < p.lastFailed.value
  }

  lemma AdviceMisses(cfg: Config)
    requires cfg.Valid()
    ensures AdviceCanMiss(cfg) <==> cfg.concurrency >= 1 && cfg.start < cfg.end
  {
    var v := EmptyTables(cfg);
    if cfg.concurrency >= 1 && cfg.start < cfg.end {
      var actions, v' := FailingRun(cfg);
      ResumeFromIsLastFailure(cfg, v, actions);
      assert Misses(cfg, v, actions);
    } else {
      forall actions | RunProc(cfg, v, actions).Some?
        ensures !Misses(cfg, v, actions)
      {
        if RunProc(cfg, v, actions).value.proc.phase.Returned? {
          ResumeFromIsLastFailure(cfg, v, actions);
          if cfg.concurrency <= 0 {
            RunProcIdle(cfg, v, actions);
          } else {
            OnlyOne(cfg, v, actions);
          }
        }
      }
    }
  }

  // A job of one ledger has at most one failure.
  lemma OnlyOne(cfg: Config, v: View, actions: seq<Action>)
    requires cfg.start == cfg.end && v == EmptyTables(cfg)
    requires RunProc(cfg, v, actions).Some? && RunProc(cfg, v, actions).value.proc.phase.Returned?
    ensures |Rejections(cfg, v, actions)| <= 1
  {
    InRange(cfg, v, actions);
    var list := Rejections(cfg, v, actions);
    FromLoading(cfg, v, actions);
    AscendingFits(list, cfg.start, cfg.end);
  }

  lemma {:induction false} AscendingFits(list: seq<int>, lo: int, hi: int)
    requires Ascending(list) && lo <= hi + 1 && forall k :: 0 <= k < |list| ==> lo <= list[k] <= hi
    ensures |list| <= hi - lo + 1
    decreases |list|
  {
    if list != [] {
      var last := |list| - 1;
      AscendingFits(list[..last], lo, list[last] - 1);
    }
  }

  lemma {:induction false} InRange(cfg: Config, v: View, actions: seq<Action>)
    requires Fresh(cfg, v.proc) && v.row.None? && RunProc(cfg, v, actions).Some?
    ensures forall k :: 0 <= k < |Rejections(cfg, v, actions)| ==>
            cfg.start <= Rejections(cfg, v, actions)[k] <= cfg.end
    decreases |actions|
  {
    if actions != [] {
      var v' := Act(cfg, v, actions[0]).value;
      if actions[0].Load? {
        FailuresCounted(cfg, v', actions[1..]);
      } else {
        InRange(cfg, v', actions[1..]);
      }
    }
  }
}
