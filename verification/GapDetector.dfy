/**
 Missing ledgers (indexer/src/gap-detector.ts): scanning the table for gaps, merging reports, recovering gaps.
 A query result is a parameter: the rows of the table in ascending order.
 */
module GapDetector {
  import opened Sequences
  import opened Wrappers

  datatype LedgerGap = LedgerGap(startSequence: int, endSequence: int, gapSize: int)

  function GapOf(lo: int, hi: int): LedgerGap {
    LedgerGap(lo, hi, hi - lo + 1)
  }

  predicate WellFormed(g: LedgerGap) {
    g.startSequence <= g.endSequence && g.gapSize == g.endSequence - g.startSequence + 1
  }

  predicate Contains(g: LedgerGap, n: int) {
    g.startSequence <= n <= g.endSequence
  }

  ghost predicate Covers(gaps: seq<LedgerGap>, n: int) {
    exists i :: 0 <= i < |gaps| && Contains(gaps[i], n)
  }

  // Sorted, disjoint and not even adjacent: a covered-free ledger lies between any two gaps.
  ghost predicate Normal(gaps: seq<LedgerGap>) {
    && (forall i :: 0 <= i < |gaps| ==> WellFormed(gaps[i]))
    && (forall i, j :: 0 <= i < j < |gaps| ==> gaps[i].endSequence + 1 < gaps[j].startSequence)
  }

  function TotalSize(gaps: seq<LedgerGap>): int {
    if gaps == [] then 0 else gaps[0].gapSize + TotalSize(gaps[1..])
  }

  // ----- Normal lists are determined by what they cover -----

  lemma NormalTail(gaps: seq<LedgerGap>, n: int)
    requires Normal(gaps) && gaps != []
    ensures Normal(gaps[1..])
    ensures Covers(gaps[1..], n) <==> Covers(gaps, n) && n > gaps[0].endSequence
  {
    if Covers(gaps[1..], n) {
      var i :| 0 <= i < |gaps[1..]| && Contains(gaps[1..][i], n);
      assert Contains(gaps[i + 1], n);
    }
    if Covers(gaps, n) && n > gaps[0].endSequence {
      var i :| 0 <= i < |gaps| && Contains(gaps[i], n);
      assert Contains(gaps[1..][i - 1], n);
    }
  }

  lemma NormalHead(gaps: seq<LedgerGap>, n: int)
    requires Normal(gaps) && gaps != []
    ensures n < gaps[0].startSequence ==> !Covers(gaps, n)
    ensures Contains(gaps[0], n) ==> Covers(gaps, n)
    ensures !Covers(gaps, gaps[0].endSequence + 1)
  {
  }

  lemma CoversItsStart(gaps: seq<LedgerGap>)
    requires Normal(gaps) && gaps != []
    ensures Covers(gaps, gaps[0].startSequence)
  {
    assert Contains(gaps[0], gaps[0].startSequence);
  }

  // Two normal lists covering the same ledgers are equal.
  lemma {:induction false} NormalFormUnique(a: seq<LedgerGap>, b: seq<LedgerGap>)
    requires Normal(a) && Normal(b)
    requires forall n :: Covers(a, n) <==> Covers(b, n)
    ensures a == b
    decreases |a|
  {
    if a == [] {
      if b != [] {
        CoversItsStart(b);
      }
    } else if b == [] {
      CoversItsStart(a);
    } else {
      NormalHead(a, a[0].startSequence);
      NormalHead(b, b[0].startSequence);
      NormalHead(a, b[0].startSequence);
      NormalHead(b, a[0].startSequence);
      assert a[0].startSequence == b[0].startSequence;
      NormalHead(a, b[0].endSequence + 1);
      NormalHead(b, a[0].endSequence + 1);
      assert a[0].endSequence == b[0].endSequence;
      forall n ensures Covers(a[1..], n) <==> Covers(b[1..], n) {
        NormalTail(a, n);
        NormalTail(b, n);
      }
      NormalTail(a, 0);
      NormalTail(b, 0);
      NormalFormUnique(a[1..], b[1..]);
    }
  }

  lemma FirstGapSplits(gaps: seq<LedgerGap>, covered: set<int>)
    requires Normal(gaps) && gaps != [] && forall n :: n in covered <==> Covers(gaps, n)
    ensures var first := Range(gaps[0].startSequence, gaps[0].endSequence);
            && first <= covered && |first| == gaps[0].gapSize
            && Normal(gaps[1..]) && forall n :: n in covered - first <==> Covers(gaps[1..], n)
  {
    var first := Range(gaps[0].startSequence, gaps[0].endSequence);
    RangeSize(gaps[0].startSequence, gaps[0].endSequence);
    NormalTail(gaps, 0);
    forall n ensures (n in first ==> Covers(gaps, n)) && (n in covered - first <==> Covers(gaps[1..], n)) {
      NormalTail(gaps, n);
      NormalHead(gaps, n);
    }
  }

  // The sizes of a normal list add up to the number of ledgers it covers.
  lemma {:induction false} TotalSizeIsCardinality(gaps: seq<LedgerGap>, covered: set<int>)
    requires Normal(gaps) && forall n :: n in covered <==> Covers(gaps, n)
    ensures TotalSize(gaps) == |covered|
    decreases |gaps|
  {
    if gaps == [] {
      assert forall n :: n !in covered;
    } else {
      var first := Range(gaps[0].startSequence, gaps[0].endSequence);
      FirstGapSplits(gaps, covered);
      TotalSizeIsCardinality(gaps[1..], covered - first);
      assert covered == first + (covered - first);
    }
  }

  // ----- Detection -----

  ghost predicate Ascending(rows: seq<int>) {
    forall i, j :: 0 <= i < j < |rows| ==> rows[i] < rows[j]
  }

  // The ledgers of the table in a range, ascending.
  ghost predicate RowsOf(rows: seq<int>, ledgers: set<int>, lo: int, hi: int) {
    Ascending(rows) && forall n :: n in rows <==> n in ledgers && lo <= n <= hi
  }

  ghost predicate AllRowsOf(rows: seq<int>, ledgers: set<int>) {
    Ascending(rows) && forall n :: n in rows <==> n in ledgers
  }

  // The report is the exact complement of the table in [lo, hi], as maximal runs in order.
  ghost predicate ExactReport(gaps: seq<LedgerGap>, ledgers: set<int>, lo: int, hi: int) {
    Normal(gaps) && forall n :: Covers(gaps, n) <==> lo <= n <= hi && n !in ledgers
  }

  lemma ExactReportUnique(a: seq<LedgerGap>, b: seq<LedgerGap>, ledgers: set<int>, lo: int, hi: int)
    requires ExactReport(a, ledgers, lo, hi) && ExactReport(b, ledgers, lo, hi)
    ensures a == b
  {
    NormalFormUnique(a, b);
  }

  lemma CoversSnoc(gaps: seq<LedgerGap>, g: LedgerGap, n: int)
    ensures Covers(gaps + [g], n) <==> Covers(gaps, n) || Contains(g, n)
  {
    var all := gaps + [g];
    if Covers(gaps, n) {
      var i :| 0 <= i < |gaps| && Contains(gaps[i], n);
      assert Contains(all[i], n);
    }
    if Contains(g, n) {
      assert Contains(all[|gaps|], n);
    }
  }

  // The scan of both detectors: report what lies between consecutive rows, then up to `last`.
  method ScanRows(rows: seq<int>, before: int, last: int) returns (gaps: seq<LedgerGap>)
    requires Ascending(rows) && forall i :: 0 <= i < |rows| ==> before <= rows[i] <= last
    requires before <= last
    ensures Normal(gaps)
    ensures forall n :: Covers(gaps, n) <==> before < n <= last && n !in rows
  {
    gaps := [];
    var prevSeq := before;
    for k := 0 to |rows|
      invariant before <= prevSeq <= last
      invariant Normal(gaps) && forall i :: 0 <= i < |gaps| ==> gaps[i].endSequence < prevSeq
      invariant forall n :: Covers(gaps, n) <==> before < n < prevSeq && n !in rows[..k]
      invariant k > 0 ==> prevSeq == rows[k - 1]
      invariant k == 0 ==> prevSeq == before
    {
      var sequence := rows[k];
      ghost var found := gaps;
      if sequence > prevSeq + 1 {
        gaps := gaps + [GapOf(prevSeq + 1, sequence - 1)];
      }
      forall n ensures Covers(gaps, n) <==> before < n < sequence && n !in rows[..k + 1] {
        CoversSnoc(found, GapOf(prevSeq + 1, sequence - 1), n);
        assert n in rows[..k + 1] <==> n in rows[..k] || n == sequence;
        assert n in rows[..k] ==> n <= prevSeq;
      }
      prevSeq := sequence;
    }
    ghost var scanned := gaps;
    if prevSeq < last {
      gaps := gaps + [GapOf(prevSeq + 1, last)];
    }
    assert rows[..|rows|] == rows;
    forall n ensures Covers(gaps, n) <==> before < n <= last && n !in rows {
      CoversSnoc(scanned, GapOf(prevSeq + 1, last), n);
    }
  }

  lemma {:induction false} AscendingCount(rows: seq<int>, contents: set<int>)
    requires Ascending(rows) && forall n :: n in rows <==> n in contents
    ensures |rows| == |contents|
    decreases |rows|
  {
    if rows == [] {
      assert forall n :: n !in contents;
    } else {
      var last, rest := rows[|rows| - 1], rows[..|rows| - 1];
      assert rows == rest + [last];
      forall n ensures n in rest <==> n in contents - {last} {
        assert n in rows <==> n in rest || n == last;
      }
      AscendingCount(rest, contents - {last});
      assert last in rows;
    }
  }

  // COUNT(*) of a range.
  lemma RowCount(rows: seq<int>, ledgers: set<int>, lo: int, hi: int)
    requires RowsOf(rows, ledgers, lo, hi)
    ensures |rows| == |Range(lo, hi) * ledgers|
  {
    AscendingCount(rows, Range(lo, hi) * ledgers);
  }

  // Distinct ascending rows number at most their span, and exactly that when they leave nothing out.
  lemma CountVersusSpan(rows: seq<int>, ledgers: set<int>)
    requires AllRowsOf(rows, ledgers) && rows != []
    ensures var lo, hi := rows[0], rows[|rows| - 1];
            lo <= hi && |rows| <= hi - lo + 1 && (|rows| == hi - lo + 1 <==> Range(lo, hi) <= ledgers)
  {
    var lo, hi := rows[0], rows[|rows| - 1];
    assert forall i :: 0 <= i < |rows| ==> rows[i] in rows && lo <= rows[i] <= hi;
    RowCount(rows, ledgers, lo, hi);
    RangeSize(lo, hi);
    var present := Range(lo, hi) * ledgers;
    assert Range(lo, hi) == present + (Range(lo, hi) - ledgers);
    assert |Range(lo, hi)| == |present| + |Range(lo, hi) - ledgers|;
    if Range(lo, hi) <= ledgers {
      assert Range(lo, hi) - ledgers == {};
    }
  }

  // What detectLedgerGaps reports on: nothing when the minimum or the maximum is 0.
  function MissingInside(ledgers: set<int>, rows: seq<int>): set<int> {
    if rows == [] || rows[0] == 0 || rows[|rows| - 1] == 0 then {}
    else Range(rows[0], rows[|rows| - 1]) - ledgers
  }

  // What detectHorizonLag reports on: nothing when the lag is at most one ledger.
  function MissingBehind(ledgers: set<int>, horizonSeq: int, lastProcessedLedger: int): set<int> {
    if horizonSeq - 10 - lastProcessedLedger <= 1 then {}
    else Range(lastProcessedLedger + 1, horizonSeq - 10) - ledgers
  }

  // detectLedgerGaps. A minimum or maximum of 0 is falsy and ends the scan with an empty report.
  method DetectLedgerGaps(ledgers: set<int>, rows: seq<int>) returns (gaps: seq<LedgerGap>)
    requires AllRowsOf(rows, ledgers)
    ensures Normal(gaps) && forall n :: Covers(gaps, n) <==> n in MissingInside(ledgers, rows)
  {
    if rows == [] {
      return [];
    }
    var minSeq, maxSeq, count := rows[0], rows[|rows| - 1], |rows|;
    if minSeq == 0 || maxSeq == 0 {
      return [];
    }
    CountVersusSpan(rows, ledgers);
    var expected := maxSeq - minSeq + 1;
    if count >= expected {
      return [];
    }
    gaps := ScanRows(rows, minSeq, maxSeq);
    assert minSeq in rows && maxSeq in rows;
  }

  // The report is the exact complement of the table between its minimum and maximum, in maximal runs, unless one
  // of them is 0 and something is missing.
  lemma InsideReportExact(ledgers: set<int>, rows: seq<int>, gaps: seq<LedgerGap>)
    requires AllRowsOf(rows, ledgers) && rows != []
    requires Normal(gaps) && forall n :: Covers(gaps, n) <==> n in MissingInside(ledgers, rows)
    ensures var lo, hi := rows[0], rows[|rows| - 1];
            ExactReport(gaps, ledgers, lo, hi) <==> (lo != 0 && hi != 0) || Range(lo, hi) <= ledgers
  {
    var lo, hi := rows[0], rows[|rows| - 1];
    if !(Range(lo, hi) <= ledgers) {
      var n :| n in Range(lo, hi) && n !in ledgers;
      assert Covers(gaps, n) <==> n in MissingInside(ledgers, rows);
    }
  }

  // A lag of exactly one ledger is ignored: the report is exact unless the lag is one and that ledger is missing.
  lemma BehindReportExact(ledgers: set<int>, horizonSeq: int, lastProcessedLedger: int, gaps: seq<LedgerGap>)
    requires Normal(gaps)
    requires forall n :: Covers(gaps, n) <==> n in MissingBehind(ledgers, horizonSeq, lastProcessedLedger)
    ensures ExactReport(gaps, ledgers, lastProcessedLedger + 1, horizonSeq - 10)
            <==> (horizonSeq - 10 - lastProcessedLedger == 1 ==> lastProcessedLedger + 1 in ledgers)
  {
    var n := lastProcessedLedger + 1;
    assert Covers(gaps, n) <==> n in MissingBehind(ledgers, horizonSeq, lastProcessedLedger);
  }

  // The sizes of an exact report add up to the number of ledgers missing from its range.
  lemma ReportedSize(gaps: seq<LedgerGap>, ledgers: set<int>, lo: int, hi: int)
    requires lo <= hi + 1 && ExactReport(gaps, ledgers, lo, hi)
    ensures TotalSize(gaps) == (hi - lo + 1) - |Range(lo, hi) * ledgers|
  {
    TotalSizeIsCardinality(gaps, Range(lo, hi) - ledgers);
    RangeSize(lo, hi);
    assert Range(lo, hi) == (Range(lo, hi) - ledgers) + (Range(lo, hi) * ledgers);
  }

  // detectHorizonLag for a latest Horizon ledger `horizonSeq`.
  method DetectHorizonLag(ledgers: set<int>, rows: seq<int>, horizonSeq: int, lastProcessedLedger: int)
    returns (gaps: seq<LedgerGap>)
    requires RowsOf(rows, ledgers, lastProcessedLedger + 1, horizonSeq - 10)
    ensures Normal(gaps)
    ensures forall n :: Covers(gaps, n) <==> n in MissingBehind(ledgers, horizonSeq, lastProcessedLedger)
  {
    var gap := horizonSeq - 10 - lastProcessedLedger;
    if gap <= 1 {
      return [];
    }
    var startSeq := lastProcessedLedger + 1;
    var endSeq := horizonSeq - 10;
    var present := |rows|;
    var expected := endSeq - startSeq + 1;
    var missing := expected - present;
    RowCount(rows, ledgers, startSeq, endSeq);
    RangeSize(startSeq, endSeq);
    if missing <= 0 {
      FullIntersection(Range(startSeq, endSeq), ledgers);
      return [];
    }
    assert forall i :: 0 <= i < |rows| ==> rows[i] in rows;
    gaps := ScanRows(rows, startSeq - 1, endSeq);
  }

  lemma FullIntersection(a: set<int>, b: set<int>)
    requires |a * b| >= |a|
    ensures a <= b
  {
    assert a == (a * b) + (a - b);
    assert |a| == |a * b| + |a - b|;
  }

  // ----- Merging -----

  // The comparator of mergeGaps: by start, then by descending end.
  predicate SortsBefore(a: LedgerGap, b: LedgerGap) {
    a.startSequence < b.startSequence || (a.startSequence == b.startSequence && a.endSequence >= b.endSequence)
  }

  lemma SortsBeforeIsOrder()
    ensures IsOrder(SortsBefore)
  {
  }

  lemma SameElementsCoverSame(a: seq<LedgerGap>, b: seq<LedgerGap>, n: int)
    requires multiset(a) == multiset(b)
    ensures Covers(a, n) <==> Covers(b, n)
  {
    if Covers(a, n) {
      var i :| 0 <= i < |a| && Contains(a[i], n);
      assert a[i] in multiset(b);
      var j :| 0 <= j < |b| && b[j] == a[i];
    }
    if Covers(b, n) {
      var i :| 0 <= i < |b| && Contains(b[i], n);
      assert b[i] in multiset(a);
      var j :| 0 <= j < |a| && a[j] == b[i];
    }
  }

  // The normal form of a list of gaps: same ledgers, sorted, with a free ledger between any two gaps.
  ghost predicate IsMergeOf(gaps: seq<LedgerGap>, merged: seq<LedgerGap>) {
    Normal(merged) && forall n :: Covers(merged, n) <==> Covers(gaps, n)
  }

  // One turn of the loop of mergeGaps: extend the last merged gap or start a new one.
  method Absorb(merged: seq<LedgerGap>, current: LedgerGap) returns (merged': seq<LedgerGap>)
    requires merged != [] && Normal(merged) && WellFormed(current)
    requires merged[|merged| - 1].startSequence <= current.startSequence
    ensures merged' != [] && Normal(merged') && |merged'| <= |merged| + 1
    ensures merged'[|merged'| - 1].startSequence <= current.startSequence
    ensures forall n :: Covers(merged', n) <==> Covers(merged, n) || Contains(current, n)
  {
    var last := merged[|merged| - 1];
    ghost var front := merged[..|merged| - 1];
    assert merged == front + [last];
    var joined := current;
    if current.startSequence <= last.endSequence + 1 {
      joined := LedgerGap(
        Min(last.startSequence, current.startSequence),
        Max(last.endSequence, current.endSequence),
        Max(last.endSequence, current.endSequence) - Min(last.startSequence, current.startSequence) + 1);
      merged' := merged[|merged| - 1 := joined];
      assert merged' == front + [joined];
    } else {
      merged' := merged + [current];
    }
    forall n ensures Covers(merged', n) <==> Covers(merged, n) || Contains(current, n) {
      CoversSnoc(front, last, n);
      CoversSnoc(front, joined, n);
      CoversSnoc(front + [last], current, n);
    }
  }

  // mergeGaps
  method MergeGaps(gaps: seq<LedgerGap>) returns (merged: seq<LedgerGap>)
    requires forall i :: 0 <= i < |gaps| ==> WellFormed(gaps[i])
    ensures IsMergeOf(gaps, merged)
    ensures |merged| <= |gaps|
  {
    if |gaps| <= 1 {
      return gaps;
    }
    var sorted := Sort(gaps, SortsBefore);
    SortKeeps(gaps);
    merged := [sorted[0]];
    assert sorted[..1] == merged;
    for i := 1 to |sorted|
      invariant 0 < |merged| <= i && Normal(merged)
      invariant merged[|merged| - 1].startSequence <= sorted[i - 1].startSequence
      invariant forall n :: Covers(merged, n) <==> Covers(sorted[..i], n)
    {
      assert SortsBefore(sorted[i - 1], sorted[i]);
      assert sorted[..i + 1] == sorted[..i] + [sorted[i]];
      merged := Absorb(merged, sorted[i]);
      forall n ensures Covers(merged, n) <==> Covers(sorted[..i + 1], n) {
        CoversSnoc(sorted[..i], sorted[i], n);
      }
    }
    assert sorted[..|sorted|] == sorted;
    forall n ensures Covers(merged, n) <==> Covers(gaps, n) {
      SameElementsCoverSame(sorted, gaps, n);
    }
  }

  // The sorted gaps: in order, the same ones as often, all well formed.
  lemma SortKeeps(gaps: seq<LedgerGap>)
    requires forall i :: 0 <= i < |gaps| ==> WellFormed(gaps[i])
    ensures Sorted(Sort(gaps, SortsBefore), SortsBefore) && multiset(Sort(gaps, SortsBefore)) == multiset(gaps)
    ensures |Sort(gaps, SortsBefore)| == |gaps|
    ensures forall i :: 0 <= i < |gaps| ==> WellFormed(Sort(gaps, SortsBefore)[i])
  {
    var sorted := Sort(gaps, SortsBefore);
    SortsBeforeIsOrder();
    SortSorts(gaps, SortsBefore);
    assert |multiset(sorted)| == |sorted| && |multiset(gaps)| == |gaps|;
    forall i | 0 <= i < |sorted|
      ensures WellFormed(sorted[i])
    {
      assert sorted[i] in multiset(gaps);
      var j :| 0 <= j < |gaps| && gaps[j] == sorted[i];
    }
  }

  // Merging does not depend on the order of its input, and merging twice changes nothing.
  lemma MergeIsCanonical(a: seq<LedgerGap>, b: seq<LedgerGap>, mergedA: seq<LedgerGap>, mergedB: seq<LedgerGap>)
    requires IsMergeOf(a, mergedA) && IsMergeOf(b, mergedB)
    ensures multiset(a) == multiset(b) ==> mergedA == mergedB
    ensures b == mergedA ==> mergedA == mergedB
    ensures mergedA == mergedB <==> forall n :: Covers(a, n) <==> Covers(b, n)
  {
    if multiset(a) == multiset(b) {
      forall n ensures Covers(a, n) <==> Covers(b, n) {
        SameElementsCoverSame(a, b, n);
      }
    }
    if forall n :: Covers(a, n) <==> Covers(b, n) {
      assert forall n :: Covers(mergedA, n) <==> Covers(mergedB, n);
      NormalFormUnique(mergedA, mergedB);
    }
    if mergedA == mergedB {
      forall n ensures Covers(a, n) <==> Covers(b, n) {
        assert Covers(mergedA, n) <==> Covers(a, n);
        assert Covers(mergedB, n) <==> Covers(b, n);
      }
    }
  }

  // ----- The gap report -----

  // Horizon answered: its latest ledger, and the table's rows above the last processed one.
  datatype Lag = Lag(lastProcessedLedger: int, horizonSeq: int, rows: seq<int>)

  ghost predicate LagOf(lag: Lag, ledgers: set<int>) {
    RowsOf(lag.rows, ledgers, lag.lastProcessedLedger + 1, lag.horizonSeq - 10)
  }

  // The ledgers a report is about: those missing inside the table's span, and those missing up to ten ledgers
  // behind Horizon.
  function Reported(ledgers: set<int>, rows: seq<int>, lag: Option<Lag>): set<int> {
    MissingInside(ledgers, rows)
    + (if lag.Some? then MissingBehind(ledgers, lag.value.horizonSeq, lag.value.lastProcessedLedger) else {})
  }

  lemma CoversAppend(a: seq<LedgerGap>, b: seq<LedgerGap>, n: int)
    ensures Covers(a + b, n) <==> Covers(a, n) || Covers(b, n)
  {
    if Covers(a, n) {
      var i :| 0 <= i < |a| && Contains(a[i], n);
      assert Contains((a + b)[i], n);
    }
    if Covers(b, n) {
      var i :| 0 <= i < |b| && Contains(b[i], n);
      assert Contains((a + b)[|a| + i], n);
    }
  }

  // generateGapReport; no lag input when no last ledger is known or Horizon is unreachable.
  method GenerateGapReport(ledgers: set<int>, rows: seq<int>, lag: Option<Lag>)
    returns (gaps: seq<LedgerGap>, totalMissing: int)
    requires AllRowsOf(rows, ledgers) && (lag.Some? ==> LagOf(lag.value, ledgers))
    ensures Normal(gaps)
    ensures forall n :: Covers(gaps, n) <==> n in Reported(ledgers, rows, lag)
    ensures totalMissing == TotalSize(gaps) == |Reported(ledgers, rows, lag)|
  {
    var dbGaps := DetectLedgerGaps(ledgers, rows);
    var horizonGaps: seq<LedgerGap> := [];
    if lag.Some? {
      horizonGaps := DetectHorizonLag(ledgers, lag.value.rows, lag.value.horizonSeq, lag.value.lastProcessedLedger);
    }
    gaps := MergeGaps(dbGaps + horizonGaps);
    forall n ensures Covers(gaps, n) <==> n in Reported(ledgers, rows, lag) {
      CoversAppend(dbGaps, horizonGaps, n);
    }
    totalMissing := SumSizes(gaps);
    TotalSizeIsCardinality(gaps, Reported(ledgers, rows, lag));
  }

  // The sizes added up, as the report does.
  method SumSizes(gaps: seq<LedgerGap>) returns (total: int)
    ensures total == TotalSize(gaps)
  {
    total := 0;
    for i := 0 to |gaps|
      invariant total + TotalSize(gaps[i..]) == TotalSize(gaps)
    {
      assert gaps[i..][1..] == gaps[i + 1..];
      total := total + gaps[i].gapSize;
    }
  }

  // ----- Recovery -----

  // What one call of backfillFn(start, end) does: the ledgers it stores, and the error it throws, if any.
  datatype BackfillOutcome = BackfillOutcome(stored: set<int>, error: Option<string>)

  datatype Failure = Failure(gap: LedgerGap, error: string)

  datatype RecoveryResult = RecoveryResult(gapsFound: nat, gapsRecovered: nat, ledgersRecovered: int,
                                           failures: seq<Failure>)

  // A backfill stays inside its range, and one that does not throw stores all of it.
  ghost predicate Honest(backfill: (int, int) -> BackfillOutcome) {
    forall lo, hi :: backfill(lo, hi).stored <= Range(lo, hi)
                     && (backfill(lo, hi).error.None? ==> backfill(lo, hi).stored == Range(lo, hi))
  }

  function OutcomeOf(backfill: (int, int) -> BackfillOutcome, g: LedgerGap): BackfillOutcome {
    backfill(g.startSequence, g.endSequence)
  }

  function FailuresOf(gaps: seq<LedgerGap>, backfill: (int, int) -> BackfillOutcome): seq<Failure> {
    if gaps == [] then []
    else
      var last := gaps[|gaps| - 1];
      var rest := FailuresOf(gaps[..|gaps| - 1], backfill);
      match OutcomeOf(backfill, last).error
      case None => rest
      case Some(e) => rest + [Failure(last, e)]
  }

  // The failures are the gaps whose attempt threw, each with its error, in the order of the attempts.
  lemma {:induction false} FailuresAreErrors(gaps: seq<LedgerGap>, backfill: (int, int) -> BackfillOutcome)
    ensures Subsequence(FailedGaps(FailuresOf(gaps, backfill)), gaps)
    ensures forall f :: f in FailuresOf(gaps, backfill) <==>
              f.gap in gaps && backfill(f.gap.startSequence, f.gap.endSequence).error == Some(f.error)
    decreases |gaps|
  {
    if gaps == [] {
      assert FailedGaps([]) == [];
    } else {
      var last, before := gaps[|gaps| - 1], gaps[..|gaps| - 1];
      var failures, more := FailuresOf(before, backfill), FailuresOf(gaps, backfill);
      FailuresAreErrors(before, backfill);
      SubsequenceSnoc(FailedGaps(failures), before, last);
      assert gaps == before + [last];
      if OutcomeOf(backfill, last).error.Some? {
        assert FailedGaps(more) == FailedGaps(failures) + [last];
      }
    }
  }

  function FailedGaps(failures: seq<Failure>): seq<LedgerGap> {
    seq(|failures|, i requires 0 <= i < |failures| => failures[i].gap)
  }

  class LedgerTable {
    var ledgers: set<int>

    constructor (ledgers: set<int>)
      ensures this.ledgers == ledgers
    {
      this.ledgers := ledgers;
    }
  }

  lemma {:induction false} TotalSizeSnoc(gaps: seq<LedgerGap>, g: LedgerGap)
    ensures TotalSize(gaps + [g]) == TotalSize(gaps) + g.gapSize
  {
    if gaps == [] {
      assert gaps + [g] == [g];
    } else {
      assert (gaps + [g])[1..] == gaps[1..] + [g];
      TotalSizeSnoc(gaps[1..], g);
    }
  }

  // After some gaps were tried: what the table holds, and what the counters say.
  ghost predicate RecoveryState(before: set<int>, now: set<int>, tried: seq<LedgerGap>,
                                backfill: (int, int) -> BackfillOutcome, r: RecoveryResult) {
    && before <= now
    && (Honest(backfill) ==>
          && (forall n :: n in now ==> n in before || Covers(tried, n))
          && (forall n :: Covers(tried, n) ==> n in now || Covers(FailedGaps(r.failures), n)))
    && r.failures == FailuresOf(tried, backfill)
    && r.gapsRecovered + |r.failures| == |tried|
    && r.ledgersRecovered + TotalSize(FailedGaps(r.failures)) == TotalSize(tried)
  }

  lemma RecoverOne(before: set<int>, now: set<int>, tried: seq<LedgerGap>, g: LedgerGap,
                   backfill: (int, int) -> BackfillOutcome, r: RecoveryResult, r': RecoveryResult)
    requires RecoveryState(before, now, tried, backfill, r)
    requires match OutcomeOf(backfill, g).error
             case None =>
               r' == r.(gapsRecovered := r.gapsRecovered + 1, ledgersRecovered := r.ledgersRecovered + g.gapSize)
             case Some(e) => r' == r.(failures := r.failures + [Failure(g, e)])
    ensures RecoveryState(before, now + OutcomeOf(backfill, g).stored, tried + [g], backfill, r')
  {
    var outcome := OutcomeOf(backfill, g);
    var later, all := now + outcome.stored, tried + [g];
    assert all[..|all| - 1] == tried;
    TotalSizeSnoc(tried, g);
    if outcome.error.Some? {
      assert FailedGaps(r'.failures) == FailedGaps(r.failures) + [g];
      TotalSizeSnoc(FailedGaps(r.failures), g);
    }
    forall n | Honest(backfill)
      ensures n in later ==> n in before || Covers(all, n)
      ensures Covers(all, n) ==> n in later || Covers(FailedGaps(r'.failures), n)
    {
      CoversSnoc(tried, g, n);
      CoversSnoc(FailedGaps(r.failures), g, n);
    }
  }

  // One turn of the loop: try the gap, count it, or record the error.
  method RecoverGap(table: LedgerTable, gap: LedgerGap, backfill: (int, int) -> BackfillOutcome, result: RecoveryResult,
                    ghost before: set<int>, ghost tried: seq<LedgerGap>)
    returns (result': RecoveryResult)
    requires RecoveryState(before, table.ledgers, tried, backfill, result)
    modifies table
    ensures result'.gapsFound == result.gapsFound
    ensures RecoveryState(before, table.ledgers, tried + [gap], backfill, result')
  {
    ghost var now := table.ledgers;
    var outcome := backfill(gap.startSequence, gap.endSequence);
    table.ledgers := table.ledgers + outcome.stored;
    match outcome.error {
      case None =>
        result' := result.(gapsRecovered := result.gapsRecovered + 1,
          ledgersRecovered := result.ledgersRecovered + gap.gapSize);
      case Some(e) =>
        result' := result.(failures := result.failures + [Failure(gap, e)]);
    }
    RecoverOne(before, now, tried, gap, backfill, result, result');
  }

  // The loop of recoverMissingLedgers over the reported gaps, sorted by start.
  method RecoverGaps(table: LedgerTable, gaps: seq<LedgerGap>, backfill: (int, int) -> BackfillOutcome)
    returns (result: RecoveryResult)
    requires Normal(gaps)
    modifies table
    ensures result.gapsFound == |gaps|
    ensures RecoveryState(old(table.ledgers), table.ledgers, gaps, backfill, result)
  {
    result := RecoveryResult(|gaps|, 0, 0, []);
    var sortedGaps := Sort(gaps, SortsBefore);
    SortOfNormal(gaps);
    ghost var before := table.ledgers;
    assert FailedGaps([]) == [];
    for i := 0 to |sortedGaps|
      invariant result.gapsFound == |gaps|
      invariant RecoveryState(before, table.ledgers, sortedGaps[..i], backfill, result)
    {
      assert sortedGaps[..i + 1] == sortedGaps[..i] + [sortedGaps[i]];
      result := RecoverGap(table, sortedGaps[i], backfill, result, before, sortedGaps[..i]);
    }
    assert sortedGaps[..|sortedGaps|] == gaps;
  }

  // recoverMissingLedgers
  method RecoverMissingLedgers(table: LedgerTable, rows: seq<int>, backfill: (int, int) -> BackfillOutcome)
    returns (result: RecoveryResult, gaps: seq<LedgerGap>)
    requires AllRowsOf(rows, table.ledgers)
    modifies table
    ensures Normal(gaps) && forall n :: Covers(gaps, n) <==> n in Reported(old(table.ledgers), rows, None)
    ensures result.gapsFound == |gaps|
    ensures RecoveryState(old(table.ledgers), table.ledgers, gaps, backfill, result)
  {
    var totalMissing;
    gaps, totalMissing := GenerateGapReport(table.ledgers, rows, None);
    result := RecoverGaps(table, gaps, backfill);
  }

  // A normal list is already sorted.
  lemma {:induction false} SortOfNormal(gaps: seq<LedgerGap>)
    requires Normal(gaps)
    ensures Sort(gaps, SortsBefore) == gaps
    decreases |gaps|
  {
    if gaps != [] {
      NormalTail(gaps, 0);
      SortOfNormal(gaps[1..]);
      assert |gaps| > 1 ==> SortsBefore(gaps[0], gaps[1..][0]);
      assert gaps == [gaps[0]] + gaps[1..];
    }
  }

  // A later scan: the table still spans the same range, only ledgers of failed gaps are missing from it, and if
  // no gap failed the scan finds nothing.
  lemma ScanAfterRecovery(before: set<int>, rows: seq<int>, gaps: seq<LedgerGap>,
                          backfill: (int, int) -> BackfillOutcome,
                          result: RecoveryResult, after: set<int>, rows': seq<int>, gaps': seq<LedgerGap>)
    requires AllRowsOf(rows, before) && AllRowsOf(rows', after)
    requires Normal(gaps) && forall n :: Covers(gaps, n) <==> n in Reported(before, rows, None)
    requires Honest(backfill) && RecoveryState(before, after, gaps, backfill, result)
    requires Normal(gaps') && forall n :: Covers(gaps', n) <==> n in Reported(after, rows', None)
    ensures rows' == [] <==> rows == []
    ensures rows != [] ==> rows'[0] == rows[0] && rows'[|rows'| - 1] == rows[|rows| - 1]
    ensures forall n :: Covers(gaps', n) ==> Covers(FailedGaps(result.failures), n)
    ensures result.failures == [] ==> gaps' == [] && result.ledgersRecovered == TotalSize(gaps)
  {
    SameSpan(before, rows, gaps, after, rows');
    forall n | Covers(gaps', n)
      ensures Covers(FailedGaps(result.failures), n)
    {
      assert n in Reported(before, rows, None);
      assert Covers(gaps, n);
    }
    if result.failures == [] {
      assert FailedGaps(result.failures) == [];
      if gaps' != [] {
        CoversItsStart(gaps');
      }
    }
  }

  // Filling gaps between the lowest and the highest ledger moves neither.
  lemma SameSpan(before: set<int>, rows: seq<int>, gaps: seq<LedgerGap>, after: set<int>, rows': seq<int>)
    requires AllRowsOf(rows, before) && AllRowsOf(rows', after) && before <= after
    requires forall n :: Covers(gaps, n) ==> n in Reported(before, rows, None)
    requires forall n :: n in after ==> n in before || Covers(gaps, n)
    ensures rows' == [] <==> rows == []
    ensures rows != [] ==> rows'[0] == rows[0] && rows'[|rows'| - 1] == rows[|rows| - 1]
  {
    if rows == [] {
      assert forall n :: n !in after;
      assert after == {};
      AscendingCount(rows', after);
    } else {
      var lo, hi := rows[0], rows[|rows| - 1];
      assert lo in rows && hi in rows;
      assert lo in rows' && hi in rows' && rows'[0] in rows' && rows'[|rows'| - 1] in rows';
      forall n | n in after
        ensures lo <= n <= hi
      {
        if n in before {
          assert n in rows;
        }
      }
    }
  }
}
