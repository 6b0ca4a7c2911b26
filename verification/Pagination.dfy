/**
 Cursor pagination over a list (packages/api/src/utils/pagination.ts). Base64 is an injective encoding, so a cursor
 stands for the text it encodes; an absent argument is falsy, as are 0 and the empty cursor.
 */
module Pagination {
  import opened Sequences
  import opened Wrappers

  // `first` and `last` are 0, `after` and `before` are "" when absent.
  datatype Args = Args(first: int, after: string, last: int, before: string)

  datatype Page<T> = Page(edges: seq<T>, hasNextPage: bool, hasPreviousPage: bool, startCursor: string,
                          endCursor: string, totalCount: nat)

  // The position of the first item with the cursor, or the length.
  function IndexOf<T>(data: seq<T>, cursorOf: T -> string, cursor: string): (i: nat)
    ensures i <= |data|
    ensures i < |data| ==> cursorOf(data[i]) == cursor
    ensures forall k :: 0 <= k < i ==> cursorOf(data[k]) != cursor
  {
    if data == [] || cursorOf(data[0]) == cursor then 0 else 1 + IndexOf(data[1..], cursorOf, cursor)
  }

  // Slices up to an end and from a start; negative bounds count from the back, as in JavaScript.
  function SliceTo<T>(s: seq<T>, end: int): seq<T> {
    if end >= 0 then s[..Min(end, |s|)] else s[..Max(0, |s| + end)]
  }

  function SliceFrom<T>(s: seq<T>, start: int): seq<T> {
    if start >= 0 then s[Min(start, |s|)..] else s[Max(0, |s| + start)..]
  }

  function AfterCursor<T>(edges: seq<T>, cursorOf: T -> string, after: string): seq<T> {
    var i := IndexOf(edges, cursorOf, after);
    if after != "" && i < |edges| then edges[i + 1..] else edges
  }

  function BeforeCursor<T>(edges: seq<T>, cursorOf: T -> string, before: string): seq<T> {
    var i := IndexOf(edges, cursorOf, before);
    if before != "" && i < |edges| then edges[..i] else edges
  }

  function Limited<T>(edges: seq<T>, first: int, last: int): seq<T> {
    var limit := if first != 0 then first else last;
    if limit != 0 && |edges| > limit then
      if last != 0 then SliceFrom(edges, |edges| - last) else SliceTo(edges, first)
    else edges
  }

  // The edges of a page.
  function PageEdges<T>(data: seq<T>, args: Args, cursorOf: T -> string): seq<T> {
    Limited(BeforeCursor(AfterCursor(data, cursorOf, args.after), cursorOf, args.before), args.first, args.last)
  }

  // The first position of the item, or -1.
  function PositionOf<T(==)>(data: seq<T>, item: T): (i: int)
    ensures -1 <= i < |data|
    ensures i >= 0 ==> data[i] == item
    ensures i >= 0 <==> item in data
    ensures forall k :: 0 <= k < i ==> data[k] != item
  {
    if data == [] then -1
    else if data[0] == item then 0
    else
      var i := PositionOf(data[1..], item);
      assert item in data <==> item in data[1..];
      if i < 0 then -1 else i + 1
  }

  // createConnection
  method CreateConnection<T(==)>(data: seq<T>, args: Args, cursorOf: T -> string) returns (r: Result<Page<T>, string>)
    ensures r.Err? <==> (args.first != 0 && args.last != 0) || (args.after != "" && args.before != "")
    ensures r.Ok? ==> r.value == PageOf(data, args, cursorOf)
  {
    if args.first != 0 && args.last != 0 {
      return Err("Cannot use `first` and `last` simultaneously.");
    }
    if args.after != "" && args.before != "" {
      return Err("Cannot use `after` and `before` simultaneously.");
    }
    var edges := data;
    if args.after != "" {
      var afterIndex := IndexOf(edges, cursorOf, args.after);
      if afterIndex < |edges| {
        edges := edges[afterIndex + 1..];
      }
    }
    assert edges == AfterCursor(data, cursorOf, args.after);
    if args.before != "" {
      var beforeIndex := IndexOf(edges, cursorOf, args.before);
      if beforeIndex < |edges| {
        edges := edges[..beforeIndex];
      }
    }
    assert edges == BeforeCursor(AfterCursor(data, cursorOf, args.after), cursorOf, args.before);
    var limit := if args.first != 0 then args.first else args.last;
    if limit != 0 && |edges| > limit {
      if args.last != 0 {
        edges := SliceFrom(edges, |edges| - args.last);
      } else {
        edges := SliceTo(edges, args.first);
      }
    }
    assert edges == PageEdges(data, args, cursorOf);
    r := Ok(PageInfo(data, edges, args, cursorOf));
  }

  // The page info computed from the edges of a page.
  function PageInfo<T(==)>(data: seq<T>, edges: seq<T>, args: Args, cursorOf: T -> string): Page<T> {
    Page(edges,
         args.first != 0 && |data| > (if |edges| > 0 then PositionOf(data, edges[|edges| - 1]) + 1 else 0),
         args.last != 0 && |data| > |edges|, if |edges| > 0 then cursorOf(edges[0]) else "",
         if |edges| > 0 then cursorOf(edges[|edges| - 1]) else "",
         |data|)
  }

  function PageOf<T(==)>(data: seq<T>, args: Args, cursorOf: T -> string): Page<T> {
    PageInfo(data, PageEdges(data, args, cursorOf), args, cursorOf)
  }

  // Every item has its own, non-empty cursor.
  ghost predicate Cursors<T(!new)>(data: seq<T>, cursorOf: T -> string) {
    && (forall i :: 0 <= i < |data| ==> cursorOf(data[i]) != "")
    && (forall i, j :: 0 <= i < j < |data| ==> cursorOf(data[i]) != cursorOf(data[j]))
  }

  lemma CursorFinds<T(!new)>(data: seq<T>, cursorOf: T -> string, i: nat)
    requires Cursors(data, cursorOf) && i < |data|
    ensures IndexOf(data, cursorOf, cursorOf(data[i])) == i && PositionOf(data, data[i]) == i
  {
    var k, p := IndexOf(data, cursorOf, cursorOf(data[i])), PositionOf(data, data[i]);
    assert k <= i && p <= i;
  }

  // ----- Walking forward -----

  // The request for the page after `position` items.
  function ForwardArgs<T>(data: seq<T>, position: nat, first: int, cursorOf: T -> string): Args
    requires position <= |data|
  {
    Args(first, if position == 0 then "" else cursorOf(data[position - 1]), 0, "")
  }

  lemma ForwardEdges<T(!new)>(data: seq<T>, position: nat, first: nat, cursorOf: T -> string)
    requires Cursors(data, cursorOf) && first > 0 && position <= |data|
    ensures PageEdges(data, ForwardArgs(data, position, first, cursorOf), cursorOf) ==
            data[position..Min(position + first, |data|)]
  {
    var args := ForwardArgs(data, position, first, cursorOf);
    if position > 0 {
      CursorFinds(data, cursorOf, position - 1);
    }
    assert AfterCursor(data, cursorOf, args.after) == data[position..];
    assert Limited(data[position..], first, 0) == data[position..Min(position + first, |data|)];
  }

  // The page info of a stretch of the data asked for with `first`.
  lemma ForwardInfo<T(!new)>(data: seq<T>, position: nat, end: nat, args: Args, cursorOf: T -> string)
    requires Cursors(data, cursorOf) && args.first > 0
    requires position < end <= |data| || position == end == |data| == 0
    ensures var page := PageInfo(data, data[position..end], args, cursorOf);
            (page.hasNextPage <==> end < |data|) && (end > 0 ==> page.endCursor == cursorOf(data[end - 1]))
  {
    if position < end {
      var edges := data[position..end];
      assert edges[|edges| - 1] == data[end - 1];
      CursorFinds(data, cursorOf, end - 1);
    }
  }

  lemma ForwardPage<T(!new)>(data: seq<T>, position: nat, first: nat, cursorOf: T -> string)
    requires Cursors(data, cursorOf) && first > 0 && (position < |data| || position == |data| == 0)
    ensures var page := PageOf(data, ForwardArgs(data, position, first, cursorOf), cursorOf);
            var end := Min(position + first, |data|);
            && page.edges == data[position..end]
            && (page.hasNextPage <==> end < |data|)
            && (end > 0 ==> page.endCursor == cursorOf(data[end - 1]))
  {
    ForwardEdges(data, position, first, cursorOf);
    ForwardInfo(data, position, Min(position + first, |data|), ForwardArgs(data, position, first, cursorOf), cursorOf);
  }

  // A client that follows endCursor while hasNextPage: the pages in a row are the data, every page but the last is
  // full, and there are as many as it takes.
  method WalkForward<T(==, !new)>(data: seq<T>, first: nat, cursorOf: T -> string) returns (pages: seq<seq<T>>)
    requires Cursors(data, cursorOf) && first > 0
    ensures Flatten(pages) == data
    ensures pages != [] && forall i :: 0 <= i < |pages| - 1 ==> |pages[i]| == first
    ensures if data == [] then |pages| == 1 else (|pages| - 1) * first < |data| <= |pages| * first
  {
    pages := [];
    var args := ForwardArgs(data, 0, first, cursorOf);
    var more := true;
    ghost var position: nat := 0;
    while more
      invariant WalkState(data, first, pages, position, more)
      invariant more ==> args == ForwardArgs(data, position, first, cursorOf)
      decreases more, |data| - position
    {
      ForwardPage(data, position, first, cursorOf);
      var r := CreateConnection(data, args, cursorOf);
      var page := r.value;
      ghost var end := Min(position + first, |data|);
      WalkStep(data, first, pages, position);
      pages := pages + [page.edges];
      more := page.hasNextPage;
      args := Args(first, page.endCursor, 0, "");
      position := end;
    }
    assert data[..|data|] == data;
  }

  ghost predicate WalkState<T(!new)>(data: seq<T>, first: nat, pages: seq<seq<T>>, position: nat, more: bool) {
    && position <= |data| && Flatten(pages) == data[..position]
    && (if more then
          position == |pages| * first && (position < |data| || position == |data| == 0)
          && (pages != [] ==> position > 0)
        else
          position == |data| && pages != []
          && if data == [] then |pages| == 1 else (|pages| - 1) * first < |data| <= |pages| * first)
    && forall i :: 0 <= i < (if more then |pages| else |pages| - 1) ==> |pages[i]| == first
  }

  lemma WalkStep<T(!new)>(data: seq<T>, first: nat, pages: seq<seq<T>>, position: nat)
    requires first > 0 && WalkState(data, first, pages, position, true)
    ensures var end := Min(position + first, |data|);
            WalkState(data, first, pages + [data[position..end]], end, end < |data|)
  {
    FlattenAppend(pages, data[position..Min(position + first, |data|)]);
    var end := Min(position + first, |data|);
    var longer := pages + [data[position..end]];
    assert longer[..|pages|] == pages;
    assert data[..position] + data[position..end] == data[..end];
    NextMultiple(|pages|, first);
  }

  lemma NextMultiple(n: nat, first: nat)
    ensures (n + 1) * first == n * first + first
  {
  }

  // ----- Walking backward -----

  // The request for the page that ends before `position`.
  function BackwardArgs<T>(data: seq<T>, position: nat, last: int, cursorOf: T -> string): Args
    requires position <= |data|
  {
    Args(0, "", last, if position == |data| then "" else cursorOf(data[position]))
  }

  lemma BackwardEdges<T(!new)>(data: seq<T>, position: nat, last: nat, cursorOf: T -> string)
    requires Cursors(data, cursorOf) && last > 0 && position <= |data|
    ensures PageEdges(data, BackwardArgs(data, position, last, cursorOf), cursorOf) ==
            data[Max(0, position - last)..position]
  {
    var args := BackwardArgs(data, position, last, cursorOf);
    if position < |data| {
      CursorFinds(data, cursorOf, position);
    }
    assert BeforeCursor(data, cursorOf, args.before) == data[..position];
    assert Limited(data[..position], 0, last) == data[Max(0, position - last)..position];
  }

  function FlattenBackward<T>(pages: seq<seq<T>>): seq<T> {
    if pages == [] then [] else pages[|pages| - 1] + FlattenBackward(pages[..|pages| - 1])
  }

  // A client that follows startCursor until a page is empty: the pages, last one first, are the data, and every
  // page but the last is full.
  method WalkBackward<T(==, !new)>(data: seq<T>, last: nat, cursorOf: T -> string) returns (pages: seq<seq<T>>)
    requires Cursors(data, cursorOf) && last > 0
    ensures FlattenBackward(pages) == data
    ensures forall i :: 0 <= i < |pages| ==> 0 < |pages[i]| <= last && (i < |pages| - 1 ==> |pages[i]| == last)
  {
    pages := [];
    var args := BackwardArgs(data, |data|, last, cursorOf);
    var more := true;
    ghost var position: nat := |data|;
    while more
      invariant BackState(data, last, pages, position)
      invariant more ==> args == BackwardArgs(data, position, last, cursorOf)
      invariant !more ==> position == 0
      decreases position, more
    {
      BackwardEdges(data, position, last, cursorOf);
      var r := CreateConnection(data, args, cursorOf);
      var page := r.value;
      if page.edges == [] {
        more := false;
      } else {
        BackStep(data, last, pages, position);
        pages := pages + [page.edges];
        args := Args(0, "", last, page.startCursor);
        position := Max(0, position - last);
      }
    }
    assert data[0..] == data;
  }

  ghost predicate BackState<T(!new)>(data: seq<T>, last: nat, pages: seq<seq<T>>, position: nat) {
    && position <= |data| && FlattenBackward(pages) == data[position..]
    && (forall i :: 0 <= i < |pages| ==> 0 < |pages[i]| <= last && (i < |pages| - 1 ==> |pages[i]| == last))
    && (position > 0 ==> forall i :: 0 <= i < |pages| ==> |pages[i]| == last)
  }

  lemma BackStep<T(!new)>(data: seq<T>, last: nat, pages: seq<seq<T>>, position: nat)
    requires last > 0 && position > 0 && BackState(data, last, pages, position)
    ensures var start := Max(0, position - last);
            BackState(data, last, pages + [data[start..position]], start)
  {
    var start := Max(0, position - last);
    var longer := pages + [data[start..position]];
    assert longer[..|pages|] == pages;
    assert data[start..position] + data[position..] == data[start..];
  }

  // ----- Any accepted page -----

  // The request for the items from `lo` or up to `hi`, by the cursors of their neighbours.
  function StretchArgs<T>(data: seq<T>, lo: nat, hi: nat, first: nat, last: nat, cursorOf: T -> string): Args
    requires lo <= hi <= |data|
  {
    Args(first, if lo == 0 then "" else cursorOf(data[lo - 1]), last, if hi == |data| then "" else cursorOf(data[hi]))
  }

  // Where the page of a request starts and ends.
  function PageStart(lo: nat, hi: nat, last: nat): nat {
    if last > 0 then Max(lo, hi - last) else lo
  }

  function PageEnd(lo: nat, hi: nat, first: nat): nat {
    if first > 0 then Min(hi, lo + first) else hi
  }

  // The two cursors cut the stretch from lo to hi.
  lemma CutEdges<T(!new)>(data: seq<T>, lo: nat, hi: nat, cursorOf: T -> string)
    requires Cursors(data, cursorOf) && lo <= hi <= |data| && (lo == 0 || hi == |data|)
    ensures var args := StretchArgs(data, lo, hi, 0, 0, cursorOf);
            BeforeCursor(AfterCursor(data, cursorOf, args.after), cursorOf, args.before) == data[lo..hi]
  {
    if lo > 0 {
      CursorFinds(data, cursorOf, lo - 1);
      assert BeforeCursor(data[lo..], cursorOf, "") == data[lo..];
    } else if hi < |data| {
      CursorFinds(data, cursorOf, hi);
      assert AfterCursor(data, cursorOf, "") == data;
    }
  }

  // What is left of the stretch is a stretch of the data.
  lemma LimitedStretch<T>(data: seq<T>, lo: nat, hi: nat, first: nat, last: nat)
    requires lo <= hi <= |data| && (first == 0 || last == 0)
    ensures PageStart(lo, hi, last) <= PageEnd(lo, hi, first) <= |data|
    ensures Limited(data[lo..hi], first, last) == data[PageStart(lo, hi, last)..PageEnd(lo, hi, first)]
  {
    var edges := data[lo..hi];
    assert |edges| == hi - lo;
    if last > 0 && |edges| > last {
      assert Limited(edges, first, last) == edges[hi - lo - last..];
    } else if first > 0 && |edges| > first {
      assert Limited(edges, first, last) == edges[..first];
    } else {
      assert Limited(edges, first, last) == edges;
    }
  }

  lemma StretchEdges<T(!new)>(data: seq<T>, lo: nat, hi: nat, first: nat, last: nat, cursorOf: T -> string)
    requires Cursors(data, cursorOf) && lo <= hi <= |data| && (lo == 0 || hi == |data|) && (first == 0 || last == 0)
    ensures PageStart(lo, hi, last) <= PageEnd(lo, hi, first) <= |data|
    ensures PageEdges(data, StretchArgs(data, lo, hi, first, last, cursorOf), cursorOf)
         == data[PageStart(lo, hi, last)..PageEnd(lo, hi, first)]
  {
    CutEdges(data, lo, hi, cursorOf);
    LimitedStretch(data, lo, hi, first, last);
  }

  // The edges are the stretch of the data, the total counts all items, both cursors belong to the ends of the stretch,
  // and each flag is set in its own direction only.
  ghost predicate IsStretch<T(!new)>(page: Page<T>, data: seq<T>, start: nat, end: nat, args: Args,
                                     cursorOf: T -> string)
    requires start <= end <= |data|
  {
    && page.edges == data[start..end] && page.totalCount == |data|
    && page.startCursor == (if start < end then cursorOf(data[start]) else "")
    && page.endCursor == (if start < end then cursorOf(data[end - 1]) else "")
    && (page.hasNextPage <==> args.first != 0 && |data| > (if start < end then end else 0))
    && (page.hasPreviousPage <==> args.last != 0 && |data| > end - start)
  }

  // The page info of a stretch of the data.
  lemma StretchInfo<T(!new)>(data: seq<T>, start: nat, end: nat, args: Args, cursorOf: T -> string)
    requires Cursors(data, cursorOf) && start <= end <= |data|
    ensures IsStretch(PageInfo(data, data[start..end], args, cursorOf), data, start, end, args, cursorOf)
  {
    if start < end {
      assert data[start..end][end - start - 1] == data[end - 1] && data[start..end][0] == data[start];
      CursorFinds(data, cursorOf, end - 1);
    }
  }

  // Main result: any accepted combination of cursors and counts gives the page of one stretch of the data, cut from the
  // end that was asked for.
  lemma AcceptedPage<T(!new)>(data: seq<T>, lo: nat, hi: nat, first: nat, last: nat, cursorOf: T -> string)
    requires Cursors(data, cursorOf) && lo <= hi <= |data| && (lo == 0 || hi == |data|) && (first == 0 || last == 0)
    ensures PageStart(lo, hi, last) <= PageEnd(lo, hi, first) <= |data|
    ensures var args := StretchArgs(data, lo, hi, first, last, cursorOf);
            IsStretch(PageOf(data, args, cursorOf), data, PageStart(lo, hi, last), PageEnd(lo, hi, first), args,
              cursorOf)
  {
    StretchEdges(data, lo, hi, first, last, cursorOf);
    StretchInfo(data, PageStart(lo, hi, last), PageEnd(lo, hi, first),
      StretchArgs(data, lo, hi, first, last, cursorOf), cursorOf);
  }

  // A cursor that no item has is ignored: the walk starts over.
  lemma StaleCursorRestarts<T(!new)>(data: seq<T>, args: Args, cursorOf: T -> string, stale: string)
    requires forall i :: 0 <= i < |data| ==> cursorOf(data[i]) != stale
    ensures PageEdges(data, args.(after := stale), cursorOf) == PageEdges(data, args.(after := ""), cursorOf)
    ensures args.after == "" ==>
              PageEdges(data, args.(before := stale), cursorOf) == PageEdges(data, args.(before := ""), cursorOf)
  {
    assert IndexOf(data, cursorOf, stale) == |data|;
    assert AfterCursor(data, cursorOf, stale) == AfterCursor(data, cursorOf, "") == data;
    assert BeforeCursor(data, cursorOf, stale) == BeforeCursor(data, cursorOf, "") == data;
  }

  // A negative count cuts as many items off: `first` from the end, `last` everything.
  lemma NegativeCounts<T(!new)>(data: seq<T>, n: nat, cursorOf: T -> string)
    requires n > 0
    ensures PageEdges(data, Args(0 - n, "", 0, ""), cursorOf) == data[..Max(0, |data| - n)]
    ensures PageEdges(data, Args(0, "", 0 - n, ""), cursorOf) == []
  {
    assert AfterCursor(data, cursorOf, "") == BeforeCursor(data, cursorOf, "") == data;
  }

  // ----- What the flags are worth -----

  // hasNextPage of a forward page tells whether items follow it, except when the request starts at the end of a
  // non-empty list: that page is empty, and hasNextPage is true.
  lemma NextFlag<T(!new)>(data: seq<T>, position: nat, first: nat, cursorOf: T -> string)
    requires Cursors(data, cursorOf) && first > 0 && position <= |data|
    ensures var page := PageOf(data, ForwardArgs(data, position, first, cursorOf), cursorOf);
            (page.hasNextPage <==> position + first < |data|) <==> position < |data| || data == []
  {
    ForwardEdges(data, position, first, cursorOf);
    if position < |data| {
      ForwardPage(data, position, first, cursorOf);
    }
  }

  // A flag that belongs to the other direction is never set: right only if nothing lies there.
  lemma OtherFlags<T(!new)>(data: seq<T>, position: nat, n: nat, cursorOf: T -> string)
    requires Cursors(data, cursorOf) && n > 0 && position <= |data|
    ensures var forward := PageOf(data, ForwardArgs(data, position, n, cursorOf), cursorOf);
            (forward.hasPreviousPage <==> position > 0) <==> position == 0
    ensures var backward := PageOf(data, BackwardArgs(data, position, n, cursorOf), cursorOf);
            (backward.hasNextPage <==> position < |data|) <==> position == |data|
  {
  }

  // hasPreviousPage of a backward page tells whether items precede it, except on the leading page of a walk that came
  // from further back, where it stays true.
  lemma PreviousFlag<T(!new)>(data: seq<T>, position: nat, last: nat, cursorOf: T -> string)
    requires Cursors(data, cursorOf) && last > 0 && position <= |data|
    ensures var page := PageOf(data, BackwardArgs(data, position, last, cursorOf), cursorOf);
            (page.hasPreviousPage <==> position > last) <==> position > last || position == |data|
  {
    BackwardEdges(data, position, last, cursorOf);
  }
}
