/**
 What the entries of the dead letter queue say, read off the pushes of a run: a ledger's entry is the summary of its
 pushes since it was last absent, whatever happens to other ledgers and whenever the process crashes.
 */
module DeadLetterHistory {
  import opened Sequences
  import opened Wrappers
  import opened DeadLetterQueue

  datatype PushRecord = PushRecord(time: int, error: string)

  function EntryOf(q: seq<Entry>, sequence: int): Option<Entry> {
    if Has(q, sequence) then Some(q[IndexOf(q, sequence)]) else None
  }

  // What an operation makes of the pushes of a ledger since it was last absent.
  function PushesAfter(op: Operation, sequence: int, pushes: seq<PushRecord>, maxRetries: int): seq<PushRecord> {
    match op
    case PushOp(s, error, now) =>
      if s != sequence then pushes
      else if pushes != [] && |pushes| + 1 >= maxRetries then []
      else pushes + [PushRecord(now, error)]
    case RemoveOp(s) => if s == sequence then [] else pushes
    case ClearOp => []
    case RestartOp => pushes
  }

  // The pushes of a ledger since it was last absent, at the end of a run; a crashed push counts if it reached the disk.
  function Pushes(c: Settings, m: Machine, events: seq<Event>, sequence: int, pushes: seq<PushRecord>): seq<PushRecord>
    requires Run(c, m, events).Some?
    decreases |events|
  {
    if events == [] then pushes
    else
      var e := events[0];
      var lost := e.Crashed? && e.found.queue == m.queue;
      Pushes(c, Step(c, m, e).value, events[1..], sequence,
        if lost then pushes else PushesAfter(e.op, sequence, pushes, c.maxRetries))
  }

  // The entry of the ledger is the summary of its pushes: how many, the time of the first, time and error of the last.
  predicate Records(q: seq<Entry>, sequence: int, pushes: seq<PushRecord>) {
    EntryOf(q, sequence) ==
      if pushes == [] then None
      else
        var last := pushes[|pushes| - 1];
        Some(Entry(sequence, |pushes|, pushes[0].time, last.time, last.error))
  }

  // A push changes nothing about the other ledgers: not their entries, not their order.
  lemma PushLeavesOthers(q: seq<Entry>, sequence: int, error: string, now: int, maxRetries: int, other: int)
    requires Unique(q)
    ensures Without(Pushed(q, sequence, error, now, maxRetries), sequence) == Without(q, sequence)
    ensures other != sequence ==> EntryOf(Pushed(q, sequence, error, now, maxRetries), other) == EntryOf(q, other)
  {
    var i := IndexOf(q, sequence);
    if i == |q| {
      WithoutSnoc(q, Entry(sequence, 1, now, now, error));
    } else if IsTerminal(q, sequence, maxRetries) {
      WithoutRemoves(q, sequence);
      WithoutRemoves(Without(q, sequence), sequence);
    } else {
      WithoutUpdated(q, i, Failing(q[i], error, now));
    }
    if other != sequence {
      WithoutEntry(q, sequence, other);
      WithoutEntry(Pushed(q, sequence, error, now, maxRetries), sequence, other);
    }
  }

  lemma {:induction false} WithoutSnoc(q: seq<Entry>, e: Entry)
    ensures Without(q + [e], e.sequence) == Without(q, e.sequence)
    decreases |q|
  {
    if q == [] {
      assert [e][1..] == [];
    } else {
      assert (q + [e])[1..] == q[1..] + [e];
      WithoutSnoc(q[1..], e);
    }
  }

  lemma {:induction false} WithoutEntry(q: seq<Entry>, sequence: int, other: int)
    requires other != sequence
    ensures EntryOf(Without(q, sequence), other) == EntryOf(q, other)
    decreases |q|
  {
    if q != [] {
      var rest := Without(q[1..], sequence);
      WithoutEntry(q[1..], sequence, other);
      EntryOfRest(q, other);
      if q[0].sequence != sequence {
        assert Without(q, sequence) == [q[0]] + rest && ([q[0]] + rest)[1..] == rest;
        EntryOfRest([q[0]] + rest, other);
      }
    }
  }

  lemma EntryOfRest(q: seq<Entry>, sequence: int)
    requires q != []
    ensures EntryOf(q, sequence) == if q[0].sequence == sequence then Some(q[0]) else EntryOf(q[1..], sequence)
  {
  }

  // Removing keeps the others in their order.
  lemma {:induction false} WithoutKeepsOrder(q: seq<Entry>, sequence: int)
    ensures Subsequence(Without(q, sequence), q)
    decreases |q|
  {
    if q != [] {
      WithoutKeepsOrder(q[1..], sequence);
      if q[0].sequence != sequence {
        assert Without(q, sequence)[1..] == Without(q[1..], sequence);
      }
    }
  }

  lemma PushRecords(q: seq<Entry>, sequence: int, error: string, now: int, maxRetries: int, pushes: seq<PushRecord>)
    requires Unique(q) && Records(q, sequence, pushes)
    ensures Records(Pushed(q, sequence, error, now, maxRetries), sequence,
                    PushesAfter(PushOp(sequence, error, now), sequence, pushes, maxRetries))
  {
    var i := IndexOf(q, sequence);
    if i == |q| {
      var r := q + [Entry(sequence, 1, now, now, error)];
      UpdatedIndex(q, r, sequence);
      assert r[|q|].sequence == sequence;
    } else if IsTerminal(q, sequence, maxRetries) {
      WithoutRemoves(q, sequence);
    } else {
      UpdatedIndex(q, q[i := Failing(q[i], error, now)], sequence);
    }
  }

  lemma PerformedRecords(c: Settings, m: Machine, op: Operation, sequence: int, pushes: seq<PushRecord>)
    requires MachineOk(c, m) && Records(m.queue, sequence, pushes)
    ensures Records(Performed(c, m, op).queue, sequence, PushesAfter(op, sequence, pushes, c.maxRetries))
  {
    match op
    case PushOp(s, error, now) =>
      PushLeavesOthers(m.queue, s, error, now, c.maxRetries, sequence);
      if s == sequence {
        PushRecords(m.queue, s, error, now, c.maxRetries, pushes);
      }
    case RemoveOp(s) =>
      WithoutRemoves(m.queue, s);
      if s != sequence {
        WithoutEntry(m.queue, s, sequence);
      }
    case ClearOp =>
    case RestartOp =>
  }

  // Main result: over any run, crashes included, the entry of a ledger in memory and on disk is the summary of its
  // pushes since it was last absent.
  lemma {:induction false} RunRecordsPushes(c: Settings, m: Machine, events: seq<Event>, sequence: int,
                                            pushes: seq<PushRecord>)
    requires MachineOk(c, m) && Records(m.queue, sequence, pushes) && Run(c, m, events).Some?
    ensures var m', now := Run(c, m, events).value, Pushes(c, m, events, sequence, pushes);
            Records(m'.queue, sequence, now) && Records(m'.disk.queue, sequence, now)
    decreases |events|
  {
    if events != [] {
      var e := events[0];
      StepKeeps(c, m, e, sequence);
      PerformedRecords(c, m, e.op, sequence, pushes);
      ViewsOf(c, m, e.op, if e.Crashed? then e.found else Performed(c, m, e.op).disk);
      var lost := e.Crashed? && e.found.queue == m.queue;
      RunRecordsPushes(c, Step(c, m, e).value, events[1..], sequence,
        if lost then pushes else PushesAfter(e.op, sequence, pushes, c.maxRetries));
    }
  }

  // ----- Retries -----

  // So when a ledger is ready depends on its pushes alone: it must not have used up its retries, and the backoff for
  // as many failures must have passed since the last one. An entry whose limit is 1 or less is never ready.
  lemma ReadyAfterBackoff(c: Settings, m: Machine, events: seq<Event>, sequence: int, baseDelayMs: int, now: int)
    requires MachineOk(c, m) && Run(c, m, events).Some? && !Has(m.queue, sequence)
    ensures var q, pushes := Run(c, m, events).value.queue, Pushes(c, m, events, sequence, []);
            (exists e :: e in q && e.sequence == sequence && IsReady(e, now, c.maxRetries, baseDelayMs))
            <==> pushes != [] && 1 < c.maxRetries
                 && now >= pushes[|pushes| - 1].time + Min(baseDelayMs * Power(2, |pushes|), 300_000)
  {
    RunRecordsPushes(c, m, events, sequence, []);
    RunKeepsQueue(c, m, events, sequence);
    var q := Run(c, m, events).value.queue;
    HasMember(q, sequence);
    if Has(q, sequence) {
      var i := IndexOf(q, sequence);
      assert q[i] in q;
      forall e | e in q && e.sequence == sequence ensures e == q[i] {
        var k :| 0 <= k < |q| && q[k] == e;
        assert k == i;
      }
    }
  }

  // Each further failure at least doubles the wait until it reaches five minutes.
  lemma BackoffDoubles(baseDelayMs: int, attempt: nat)
    requires baseDelayMs >= 0
    ensures Backoff(baseDelayMs, attempt + 1) == Min(2 * Backoff(baseDelayMs, attempt), 300_000)
    ensures 0 <= Backoff(baseDelayMs, attempt) <= Backoff(baseDelayMs, attempt + 1) <= 300_000
  {
    var p := Power(2, attempt);
    PowerPositive(attempt);
    assert Power(2, attempt + 1) == 2 * p;
    assert baseDelayMs * (2 * p) == 2 * (baseDelayMs * p);
    assert baseDelayMs * p >= 0;
  }

  lemma {:induction false} PowerPositive(n: nat)
    ensures Power(2, n) > 0
    decreases n
  {
    if n > 0 {
      PowerPositive(n - 1);
    }
  }
}
