// Small shared functions on sequences: concatenating, joining with a separator, sorting.
module Sequences {
  function Flatten<T>(parts: seq<seq<T>>): seq<T> {
    if parts == [] then [] else parts[0] + Flatten(parts[1..])
  }

  lemma {:induction false} FlattenAppend<T>(parts: seq<seq<T>>, part: seq<T>)
    ensures Flatten(parts + [part]) == Flatten(parts) + part
    decreases |parts|
  {
    if parts == [] {
      assert [part][1..] == [];
    } else {
      FlattenAppend(parts[1..], part);
      assert (parts + [part])[1..] == parts[1..] + [part];
    }
  }

  // The parts with the separator between them.
  function Join<T>(parts: seq<seq<T>>, separator: T): seq<T> {
    if parts == [] then []
    else if |parts| == 1 then parts[0]
    else parts[0] + [separator] + Join(parts[1..], separator)
  }

  // All of `a` occurs in `b`, in this order.
  ghost predicate Subsequence<T>(a: seq<T>, b: seq<T>) {
    a == [] || (b != [] && ((a[0] == b[0] && Subsequence(a[1..], b[1..])) || Subsequence(a, b[1..])))
  }

  lemma {:induction false} SubsequenceSnoc<T>(a: seq<T>, b: seq<T>, x: T)
    requires Subsequence(a, b)
    ensures Subsequence(a + [x], b + [x]) && Subsequence(a, b + [x])
    decreases |b|
  {
    assert [x][1..] == [];
    if b == [] {
      assert a + [x] == [x] && b + [x] == [x];
      assert Subsequence([x][1..], [x][1..]);
    } else {
      assert (b + [x])[1..] == b[1..] + [x];
      if a == [] {
        SubsequenceSnoc([], b[1..], x);
      } else if a[0] == b[0] && Subsequence(a[1..], b[1..]) {
        assert (a + [x])[1..] == a[1..] + [x];
        SubsequenceSnoc(a[1..], b[1..], x);
      } else {
        SubsequenceSnoc(a, b[1..], x);
      }
    }
  }

  // Sorting with a comparator: `before` tells whether the first argument may stand in front.
  function Sort<T>(items: seq<T>, before: (T, T) -> bool): seq<T> {
    if items == [] then [] else Insert(items[0], Sort(items[1..], before), before)
  }

  function Insert<T>(x: T, sorted: seq<T>, before: (T, T) -> bool): seq<T> {
    if sorted == [] || before(x, sorted[0]) then [x] + sorted else [sorted[0]] + Insert(x, sorted[1..], before)
  }

  ghost predicate Sorted<T>(items: seq<T>, before: (T, T) -> bool) {
    forall i, j :: 0 <= i < j < |items| ==> before(items[i], items[j])
  }

  // What a comparator must be for sorting to mean anything.
  ghost predicate IsOrder<T(!new)>(before: (T, T) -> bool) {
    && (forall x, y :: before(x, y) || before(y, x))
    && (forall x, y, z :: before(x, y) && before(y, z) ==> before(x, z))
  }

  lemma {:induction false} InsertContents<T>(x: T, sorted: seq<T>, before: (T, T) -> bool)
    ensures multiset(Insert(x, sorted, before)) == multiset(sorted) + multiset{x}
    decreases |sorted|
  {
    if sorted != [] && !before(x, sorted[0]) {
      assert sorted == [sorted[0]] + sorted[1..];
      InsertContents(x, sorted[1..], before);
    }
  }

  lemma {:induction false} InsertSorted<T(!new)>(x: T, sorted: seq<T>, before: (T, T) -> bool)
    requires IsOrder(before) && Sorted(sorted, before)
    ensures Sorted(Insert(x, sorted, before), before)
    decreases |sorted|
  {
    if sorted == [] {
    } else if before(x, sorted[0]) {
      forall k | 0 <= k < |sorted|
        ensures before(x, sorted[k])
      {
        assert k > 0 ==> before(sorted[0], sorted[k]);
      }
    } else {
      var head, tail := sorted[0], sorted[1..];
      var rest := Insert(x, tail, before);
      InsertSorted(x, tail, before);
      InsertContents(x, tail, before);
      forall k | 0 <= k < |rest|
        ensures before(head, rest[k])
      {
        assert rest[k] in multiset(rest);
        if rest[k] != x {
          assert rest[k] in multiset(tail);
          var m :| 0 <= m < |tail| && tail[m] == rest[k];
          assert sorted[m + 1] == rest[k];
        }
      }
    }
  }

  // The result is sorted and holds the same items, each as often.
  lemma {:induction false} SortSorts<T(!new)>(items: seq<T>, before: (T, T) -> bool)
    requires IsOrder(before)
    ensures Sorted(Sort(items, before), before) && multiset(Sort(items, before)) == multiset(items)
    decreases |items|
  {
    if items != [] {
      assert items == [items[0]] + items[1..];
      SortSorts(items[1..], before);
      InsertSorted(items[0], Sort(items[1..], before), before);
      InsertContents(items[0], Sort(items[1..], before), before);
    }
  }
}
