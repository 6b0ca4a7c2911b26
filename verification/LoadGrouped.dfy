/**
 loadGrouped (api/src/loaders.ts): one fetch for a batch of keys, its rows handed out to the keys through a Map of
 buckets. Keys are compared through `normalize`; the fetched rows are a parameter.
 */
module LoadGrouped {
  import opened Sequences

  // The rows that satisfy the predicate, in their order.
  function Filter<R>(rows: seq<R>, keep: R -> bool): seq<R> {
    if rows == [] then []
    else
      var last := rows[|rows| - 1];
      Filter(rows[..|rows| - 1], keep) + if keep(last) then [last] else []
  }

  function Matches<K, R, N(==)>(key: K, keyOf: R -> K, normalize: K -> N): R -> bool {
    row => normalize(keyOf(row)) == normalize(key)
  }

  function Normalized<K, N>(keys: seq<K>, normalize: K -> N): seq<N> {
    seq(|keys|, i requires 0 <= i < |keys| => normalize(keys[i]))
  }

  method LoadGrouped<K, R, N(==)>(keys: seq<K>, rows: seq<R>, keyOf: R -> K, normalize: K -> N)
    returns (result: seq<seq<R>>)
    ensures |result| == |keys|
    ensures forall i :: 0 <= i < |keys| ==> result[i] == Filter(rows, Matches(keys[i], keyOf, normalize))
  {
    var grouped: map<N, seq<R>> := map[];
    for i := 0 to |keys|
      invariant forall j :: 0 <= j < i ==> normalize(keys[j]) in grouped
      invariant forall k :: k in grouped ==> grouped[k] == []
    {
      grouped := grouped[normalize(keys[i]) := []];
    }
    ghost var buckets := grouped.Keys;
    for n := 0 to |rows|
      invariant grouped.Keys == buckets
      invariant forall j :: 0 <= j < |keys| ==>
                  normalize(keys[j]) in grouped
                    && grouped[normalize(keys[j])] == Filter(rows[..n], Matches(keys[j], keyOf, normalize))
    {
      var k := normalize(keyOf(rows[n]));
      assert rows[..n + 1][..n] == rows[..n] && rows[..n + 1][n] == rows[n];
      if k in grouped {
        grouped := grouped[k := grouped[k] + [rows[n]]];
      }
    }
    assert rows[..|rows|] == rows;
    result := [];
    for i := 0 to |keys|
      invariant |result| == i
      invariant forall j :: 0 <= j < i ==> result[j] == Filter(rows, Matches(keys[j], keyOf, normalize))
    {
      var k := normalize(keys[i]);
      result := result + [if k in grouped then grouped[k] else []];
    }
  }

  // What loadGrouped returns, key by key.
  function Grouped<K, R, N(==)>(keys: seq<K>, rows: seq<R>, keyOf: R -> K, normalize: K -> N): seq<seq<R>> {
    seq(|keys|, i requires 0 <= i < |keys| => Filter(rows, Matches(keys[i], keyOf, normalize)))
  }

  // The plain form used by the other loaders: filter all rows again for every key.
  function FilterPerKey<K(==), R>(keys: seq<K>, rows: seq<R>, keyOf: R -> K): seq<seq<R>> {
    seq(|keys|, i requires 0 <= i < |keys| => Filter(rows, row => keyOf(row) == keys[i]))
  }

  lemma {:induction false} FilterCount<R>(rows: seq<R>, keep: R -> bool, row: R)
    ensures multiset(Filter(rows, keep))[row] == if keep(row) then multiset(rows)[row] else 0
    decreases |rows|
  {
    if rows != [] {
      var init := rows[..|rows| - 1];
      assert rows == init + [rows[|rows| - 1]];
      FilterCount(init, keep, row);
    }
  }

  // The rows that satisfy the predicate, and no others, in the order of the fetch.
  lemma {:induction false} FilterKeepsOrder<R>(rows: seq<R>, keep: R -> bool)
    ensures Subsequence(Filter(rows, keep), rows)
    ensures forall row :: row in Filter(rows, keep) <==> row in rows && keep(row)
    decreases |rows|
  {
    if rows != [] {
      var init, last := rows[..|rows| - 1], rows[|rows| - 1];
      FilterKeepsOrder(init, keep);
      SubsequenceSnoc(Filter(init, keep), init, last);
      assert rows == init + [last];
      assert keep(last) ==> Filter(rows, keep) == Filter(init, keep) + [last];
      assert !keep(last) ==> Filter(rows, keep) == Filter(init, keep);
    }
  }

  lemma {:induction false} FilterSame<R>(rows: seq<R>, p: R -> bool, q: R -> bool)
    requires forall i :: 0 <= i < |rows| ==> p(rows[i]) == q(rows[i])
    ensures Filter(rows, p) == Filter(rows, q)
    decreases |rows|
  {
    if rows != [] {
      FilterSame(rows[..|rows| - 1], p, q);
    }
  }

  // The buckets agree with the plain form exactly when normalizing never brings a row to a key that is not its own.
  lemma AgreesWithFilterPerKey<K, R, N>(keys: seq<K>, rows: seq<R>, keyOf: R -> K, normalize: K -> N)
    ensures Grouped(keys, rows, keyOf, normalize) == FilterPerKey(keys, rows, keyOf)
        <==> forall i, j :: 0 <= i < |keys| && 0 <= j < |rows| && normalize(keyOf(rows[j])) == normalize(keys[i]) ==>
               keyOf(rows[j]) == keys[i]
  {
    var grouped, plain := Grouped(keys, rows, keyOf, normalize), FilterPerKey(keys, rows, keyOf);
    if grouped == plain {
      forall i, j | 0 <= i < |keys| && 0 <= j < |rows| && normalize(keyOf(rows[j])) == normalize(keys[i])
        ensures keyOf(rows[j]) == keys[i]
      {
        assert grouped[i] == plain[i];
        FilterCount(rows, Matches(keys[i], keyOf, normalize), rows[j]);
        FilterCount(rows, row => keyOf(row) == keys[i], rows[j]);
        assert multiset(rows)[rows[j]] > 0;
      }
    }
    if forall i, j :: 0 <= i < |keys| && 0 <= j < |rows| && normalize(keyOf(rows[j])) == normalize(keys[i]) ==>
      keyOf(rows[j]) == keys[i] {
      forall i | 0 <= i < |keys|
        ensures grouped[i] == plain[i]
      {
        FilterSame(rows, Matches(keys[i], keyOf, normalize), row => keyOf(row) == keys[i]);
      }
    }
  }

  function Occurrences<R(==)>(result: seq<seq<R>>, row: R): nat {
    if result == [] then 0 else Occurrences(result[..|result| - 1], row) + multiset(result[|result| - 1])[row]
  }

  lemma OneMoreAsking(m: nat, before: nat, after: nat)
    ensures after == before ==> m * after == m * before
    ensures after == before + 1 ==> m * after == m * before + m
  {
  }

  lemma AskedAppend<K, N>(keys: seq<K>, normalize: K -> N, own: N)
    requires |keys| > 0
    ensures multiset(Normalized(keys, normalize))[own]
         == multiset(Normalized(keys[..|keys| - 1], normalize))[own]
            + if normalize(keys[|keys| - 1]) == own then 1 else 0
  {
    var k := |keys| - 1;
    assert Normalized(keys, normalize) == Normalized(keys[..k], normalize) + [normalize(keys[k])];
  }

  lemma GroupedAppend<K, R, N>(keys: seq<K>, rows: seq<R>, keyOf: R -> K, normalize: K -> N, row: R)
    requires |keys| > 0
    ensures Occurrences(Grouped(keys, rows, keyOf, normalize), row)
         == Occurrences(Grouped(keys[..|keys| - 1], rows, keyOf, normalize), row)
            + if normalize(keyOf(row)) == normalize(keys[|keys| - 1]) then multiset(rows)[row] else 0
  {
    var k := |keys| - 1;
    assert Grouped(keys, rows, keyOf, normalize)[..k] == Grouped(keys[..k], rows, keyOf, normalize);
    FilterCount(rows, Matches(keys[k], keyOf, normalize), row);
  }

  // Conservation: a row comes back once for every time its key was asked for, and not at all if it was not.
  lemma {:induction false} EachRowPerAsking<K, R, N>(keys: seq<K>, rows: seq<R>, keyOf: R -> K, normalize: K -> N,
                                                     row: R)
    ensures Occurrences(Grouped(keys, rows, keyOf, normalize), row)
         == multiset(rows)[row] * multiset(Normalized(keys, normalize))[normalize(keyOf(row))]
    decreases |keys|
  {
    var own := normalize(keyOf(row));
    if |keys| == 0 {
      assert Grouped(keys, rows, keyOf, normalize) == [] && Normalized(keys, normalize) == [];
    } else {
      var front := keys[..|keys| - 1];
      EachRowPerAsking(front, rows, keyOf, normalize, row);
      GroupedAppend(keys, rows, keyOf, normalize, row);
      AskedAppend(keys, normalize, own);
      OneMoreAsking(multiset(rows)[row], multiset(Normalized(front, normalize))[own],
        multiset(Normalized(keys, normalize))[own]);
    }
  }

  // The rows of a table whose key is one of those asked for, in the table's order.
  function Fetch<K(==), R>(table: seq<R>, keys: seq<K>, keyOf: R -> K): seq<R> {
    Filter(table, row => keyOf(row) in keys)
  }

  lemma {:induction false} FilterTwice<R>(rows: seq<R>, p: R -> bool, q: R -> bool)
    requires forall i :: 0 <= i < |rows| && q(rows[i]) ==> p(rows[i])
    ensures Filter(Filter(rows, p), q) == Filter(rows, q)
    decreases |rows|
  {
    if rows != [] {
      var init, last := rows[..|rows| - 1], rows[|rows| - 1];
      FilterTwice(init, p, q);
      var kept := Filter(init, p);
      if p(last) {
        assert Filter(rows, p) == kept + [last];
        assert (kept + [last])[..|kept|] == kept && (kept + [last])[|kept|] == last;
        assert Filter(kept + [last], q) == Filter(kept, q) + if q(last) then [last] else [];
      } else {
        assert Filter(rows, p) == kept && !q(last);
      }
    }
  }

  // Batching does not show: every key of a batch gets what loading it alone from the table gives, whatever the batch.
  lemma BatchingIsInvisible<K, R, N>(table: seq<R>, keys: seq<K>, keyOf: R -> K, normalize: K -> N, i: nat)
    requires i < |keys|
    requires forall r :: r in table && normalize(keyOf(r)) == normalize(keys[i]) ==> keyOf(r) == keys[i]
    ensures Grouped(keys, Fetch(table, keys, keyOf), keyOf, normalize)[i]
         == Grouped([keys[i]], Fetch(table, [keys[i]], keyOf), keyOf, normalize)[0]
         == Filter(table, row => keyOf(row) == keys[i])
  {
    var wanted := Matches(keys[i], keyOf, normalize);
    FilterTwice(table, row => keyOf(row) in keys, wanted);
    FilterTwice(table, row => keyOf(row) in [keys[i]], wanted);
    FilterSame(table, wanted, row => keyOf(row) == keys[i]);
  }
}
