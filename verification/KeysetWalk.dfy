/**
 Keyset pagination of the ledgers query (api/src/resolvers/index.ts). Base64 is an injective encoding, so a cursor
 stands for the text it decodes to; None is an absent or empty cursor. A page is read from a set of sequence numbers,
 and a walk reads every page from a later state of the table.
 */
module KeysetWalk {
  import opened Wrappers
  import Decimal

  const MIN_LIMIT: int := 1
  const MAX_LIMIT: int := 100

  datatype ValidationError = InvalidLimit | InvalidCursor

  datatype Edge = Edge(sequence: int, cursor: string)

  datatype Connection = Connection(edges: seq<Edge>, hasNextPage: bool, endCursor: Option<string>)

  predicate Equals(x: real, n: int) {
    x == n as real
  }

  // validateLimit: a whole number in range, 10 when absent.
  function ValidateLimit(limit: Option<real>): (r: Result<nat, ValidationError>)
    ensures r.Ok? ==> 1 <= r.value <= 100
    ensures limit.Some? ==> (r.Ok? <==> exists n :: 1 <= n <= 100 && Equals(limit.value, n))
    ensures limit.Some? && r.Ok? ==> Equals(limit.value, r.value)
    ensures limit.None? ==> r == Ok(10)
  {
    if limit.None? then Ok(10)
    else
      var value := limit.value;
      assert Equals(value, value.Floor) <==> value.Floor as real == value;
      if value.Floor as real != value || value.Floor < MIN_LIMIT || value.Floor > MAX_LIMIT then Err(InvalidLimit)
      else Ok(value.Floor)
  }

  // validateCursor
  function ValidateCursor(cursor: Option<string>): Result<Option<nat>, ValidationError> {
    if cursor.None? then Ok(None)
    else
      var parsed := Decimal.ParseInt(cursor.value);
      if parsed.None? || parsed.value < 0 then Err(InvalidCursor) else Ok(Some(parsed.value))
  }

  // The upper bound the query really applies: `if (sequenceCursor)` takes 0 for no cursor.
  function Bound(cursor: Option<string>): Option<nat>
    requires ValidateCursor(cursor).Ok?
  {
    var c := ValidateCursor(cursor).value;
    if c.Some? && c.value == 0 then None else c
  }

  predicate Below(x: int, bound: Option<int>) {
    bound.Some? ==> x < bound.value
  }

  function Candidates(store: set<int>, bound: Option<int>): set<int> {
    set x | x in store && Below(x, bound)
  }

  predicate IsMaximum(m: int, s: set<int>) {
    m in s && forall x :: x in s ==> x <= m
  }

  lemma SomeMember(s: set<int>) returns (m: int)
    requires s != {}
    ensures m in s
  {
    assert (forall x :: x !in s) ==> s == {};
    m :| m in s;
  }

  lemma {:induction false} MaximumExists(s: set<int>) returns (m: int)
    requires s != {}
    ensures IsMaximum(m, s)
  {
    m := SomeMember(s);
    var rest := s - {m};
    assert forall x :: x in s ==> x == m || x in rest;
    if rest != {} {
      var other := MaximumExists(rest);
      if other > m {
        m := other;
      }
    }
  }

  function Maximum(s: set<int>): (m: int)
    requires s != {}
    ensures IsMaximum(m, s)
  {
    assert exists m :: IsMaximum(m, s) by {
      var m := MaximumExists(s);
    }
    var m :| IsMaximum(m, s);
    m
  }

  predicate Descending(rows: seq<int>) {
    forall i, j :: 0 <= i < j < |rows| ==> rows[i] > rows[j]
  }

  // The rows are the n highest of the store below the bound, highest first.
  predicate IsTop(rows: seq<int>, store: set<int>, bound: Option<int>, n: nat) {
    && Descending(rows)
    && |rows| <= n
    && (forall i :: 0 <= i < |rows| ==> rows[i] in store && Below(rows[i], bound))
    && (forall x :: x in store && Below(x, bound) && (|rows| < n || (rows != [] && x >= rows[|rows| - 1])) ==>
          x in rows)
  }

  // SELECT * FROM ledgers [WHERE sequence < bound] ORDER BY sequence DESC LIMIT n
  function SelectDescending(store: set<int>, bound: Option<int>, n: nat): (rows: seq<int>)
    ensures |rows| <= n
    decreases n
  {
    var c := Candidates(store, bound);
    if n == 0 || c == {} then []
    else
      var m := Maximum(c);
      [m] + SelectDescending(store, Some(m), n - 1)
  }

  lemma {:induction false} SelectIsTop(store: set<int>, bound: Option<int>, n: nat)
    ensures IsTop(SelectDescending(store, bound, n), store, bound, n)
    decreases n
  {
    var c := Candidates(store, bound);
    assert forall x :: x in c <==> x in store && Below(x, bound);
    if n > 0 && c != {} {
      var m := Maximum(c);
      var rest := SelectDescending(store, Some(m), n - 1);
      SelectIsTop(store, Some(m), n - 1);
      TopThenRest(m, rest, store, bound, n);
    }
  }

  lemma TopThenRest(m: int, rest: seq<int>, store: set<int>, bound: Option<int>, n: nat)
    requires n > 0 && m in store && Below(m, bound) && (forall x :: x in store && Below(x, bound) ==> x <= m)
    requires IsTop(rest, store, Some(m), n - 1)
    ensures IsTop([m] + rest, store, bound, n)
  {
    var rows := [m] + rest;
    forall x | x in store && Below(x, bound) && (|rows| < n || x >= rows[|rows| - 1])
      ensures x in rows
    {
      if x != m {
        assert Below(x, Some(m));
        assert x in rest;
      }
    }
  }

  // A shorter query answers with the beginning of a longer one.
  lemma {:induction false} SelectPrefix(store: set<int>, bound: Option<int>, k: nat, n: nat)
    requires k <= n
    ensures var rows := SelectDescending(store, bound, n);
            SelectDescending(store, bound, k) == if |rows| > k then rows[..k] else rows
    decreases k
  {
    var c := Candidates(store, bound);
    if k > 0 && c != {} {
      SelectPrefix(store, Some(Maximum(c)), k - 1, n - 1);
    }
  }

  function Edges(rows: seq<int>): seq<Edge> {
    seq(|rows|, i requires 0 <= i < |rows| => Edge(rows[i], Decimal.PrintInt(rows[i])))
  }

  function Sequences(edges: seq<Edge>): seq<int> {
    seq(|edges|, i requires 0 <= i < |edges| => edges[i].sequence)
  }

  predicate CursorsName(edges: seq<Edge>) {
    forall i {:trigger edges[i].cursor} :: 0 <= i < |edges| ==> edges[i].cursor == Decimal.PrintInt(edges[i].sequence)
  }

  ghost predicate LeavesSome(rows: seq<int>, store: set<int>, bound: Option<int>) {
    exists x :: x in store && Below(x, bound) && x !in rows
  }

  lemma EdgesOfRows(rows: seq<int>)
    ensures Sequences(Edges(rows)) == rows && CursorsName(Edges(rows))
  {
  }

  // What a page shows: the highest `limit` ledgers below the bound, and whether any is left.
  ghost predicate Shows(page: Connection, store: set<int>, bound: Option<int>, limit: nat) {
    && Sequences(page.edges) == SelectDescending(store, bound, limit)
    && (page.hasNextPage <==> LeavesSome(Sequences(page.edges), store, bound))
  }

  // What a page of `limit` ledgers below the bound has to be.
  ghost predicate IsPage(page: Connection, store: set<int>, bound: Option<int>, limit: nat) {
    && Shows(page, store, bound, limit)
    && CursorsName(page.edges)
    && page.endCursor == if page.edges == [] then None else Some(page.edges[|page.edges| - 1].cursor)
  }

  // The page built from one row more than it shows.
  function PageOf(rows: seq<int>, limit: nat): Connection {
    var edges := Edges(if |rows| > limit then rows[..limit] else rows);
    Connection(edges, |rows| > limit, if |edges| > 0 then Some(edges[|edges| - 1].cursor) else None)
  }

  // One row more than the limit comes back exactly when a row is left for the next page.
  lemma OneMoreRow(store: set<int>, bound: Option<int>, limit: nat)
    ensures |SelectDescending(store, bound, limit + 1)| > limit
       <==> LeavesSome(SelectDescending(store, bound, limit), store, bound)
  {
    var rows := SelectDescending(store, bound, limit + 1);
    SelectPrefix(store, bound, limit, limit + 1);
    SelectIsTop(store, bound, limit + 1);
    if |rows| > limit {
      var x := rows[limit];
      assert x in store && Below(x, bound) && x !in rows[..limit];
    }
  }

  lemma RowsMakePage(store: set<int>, bound: Option<int>, limit: nat)
    ensures IsPage(PageOf(SelectDescending(store, bound, limit + 1), limit), store, bound, limit)
  {
    SelectPrefix(store, bound, limit, limit + 1);
    EdgesOfRows(SelectDescending(store, bound, limit));
    OneMoreRow(store, bound, limit);
  }

  // ledgers
  method Ledgers(store: set<int>, limit: Option<real>, cursor: Option<string>)
    returns (r: Result<Connection, ValidationError>)
    ensures ValidateLimit(limit).Err? ==> r == Err(InvalidLimit)
    ensures ValidateLimit(limit).Ok? && ValidateCursor(cursor).Err? ==> r == Err(InvalidCursor)
    ensures ValidateLimit(limit).Ok? && ValidateCursor(cursor).Ok? ==>
              r.Ok? && IsPage(r.value, store, Bound(cursor), ValidateLimit(limit).value)
  {
    var resolvedLimit := ValidateLimit(limit);
    if resolvedLimit.Err? {
      return Err(resolvedLimit.error);
    }
    var sequenceCursor := ValidateCursor(cursor);
    if sequenceCursor.Err? {
      return Err(sequenceCursor.error);
    }
    var n := resolvedLimit.value;
    var bound: Option<int> := None;
    if sequenceCursor.value.Some? && sequenceCursor.value.value != 0 {
      bound := sequenceCursor.value;
    }
    var rows := SelectDescending(store, bound, n + 1);
    RowsMakePage(store, bound, n);
    r := Ok(PageOf(rows, n));
  }

  // A cursor this query hands out decodes to the sequence it was made from; a negative one would be refused.
  lemma IssuedCursor(sequence: int)
    ensures ValidateCursor(Some(Decimal.PrintInt(sequence)))
         == if sequence < 0 then Err(InvalidCursor) else Ok(Some(sequence))
  {
    Decimal.ParsePrinted(sequence, []);
    assert Decimal.PrintInt(sequence) + [] == Decimal.PrintInt(sequence);
  }

  // Following an issued cursor shows exactly the ledgers below it unless the cursor is that of ledger 0, which starts
  // over.
  lemma CursorOfZeroRestarts(sequence: nat)
    ensures ValidateCursor(Some(Decimal.PrintInt(sequence))).Ok?
    ensures Bound(Some(Decimal.PrintInt(sequence))) == Some(sequence) <==> sequence != 0
    ensures sequence == 0 ==> Bound(Some(Decimal.PrintInt(sequence))) == Bound(None)
  {
    IssuedCursor(sequence);
  }

  // The table over time: page k is read from stores(k); no ledger is negative and none is ever removed.
  ghost predicate Growing(stores: nat -> set<int>) {
    && (forall i, x :: x in stores(i) ==> x >= 0)
    && (forall i, j :: i <= j ==> stores(i) <= stores(j))
  }

  // The pages a client receives that asks for `limit` at a time and follows endCursor while hasNextPage.
  ghost predicate IsWalk(pages: seq<Connection>, stores: nat -> set<int>, k: nat, limit: nat, cursor: Option<string>)
    decreases |pages|
  {
    && pages != []
    && ValidateCursor(cursor).Ok?
    && IsPage(pages[0], stores(k), Bound(cursor), limit)
    && if pages[0].hasNextPage then IsWalk(pages[1..], stores, k + 1, limit, pages[0].endCursor) else |pages| == 1
  }

  function Collect(pages: seq<Connection>): seq<int> {
    if pages == [] then [] else Sequences(pages[0].edges) + Collect(pages[1..])
  }

  function LastOf(page: Connection): Option<int> {
    if page.edges == [] then None else Some(page.edges[|page.edges| - 1].sequence)
  }

  // A page with a next one is full and ends below the bound.
  lemma FullPage(page: Connection, store: set<int>, bound: Option<int>, limit: nat)
    requires limit >= 1 && Shows(page, store, bound, limit) && page.hasNextPage
    ensures |page.edges| == limit && Below(page.edges[limit - 1].sequence, bound)
    ensures exists x :: x in store && x < page.edges[limit - 1].sequence
  {
    var rows := Sequences(page.edges);
    SelectIsTop(store, bound, limit);
    var x :| x in store && Below(x, bound) && x !in rows;
    assert |rows| == limit;
    assert rows[limit - 1] == page.edges[limit - 1].sequence && x < rows[limit - 1];
  }

  // While there is a next page its cursor is accepted and lies strictly below the page.
  lemma NextBound(page: Connection, store: set<int>, bound: Option<int>, limit: nat)
    requires limit >= 1 && (forall x :: x in store ==> x >= 0)
    requires IsPage(page, store, bound, limit) && page.hasNextPage
    ensures |page.edges| == limit && Below(page.edges[limit - 1].sequence, bound)
    ensures ValidateCursor(page.endCursor).Ok?
    ensures Bound(page.endCursor) == LastOf(page) == Some(page.edges[limit - 1].sequence)
  {
    FullPage(page, store, bound, limit);
    IssuedCursor(page.edges[limit - 1].sequence);
  }

  // The same walk in terms of bounds: every page shows what lies below the last ledger of the one before.
  ghost predicate ShowsInTurn(pages: seq<Connection>, stores: nat -> set<int>, k: nat, limit: nat, bound: Option<int>)
    decreases |pages|
  {
    && pages != []
    && Shows(pages[0], stores(k), bound, limit)
    && if pages[0].hasNextPage then ShowsInTurn(pages[1..], stores, k + 1, limit, LastOf(pages[0])) else |pages| == 1
  }

  // The rest of a walk goes on below the last ledger of its first page.
  lemma WalkGoesOn(pages: seq<Connection>, stores: nat -> set<int>, k: nat, limit: nat, cursor: Option<string>)
    requires limit >= 1 && Growing(stores) && IsWalk(pages, stores, k, limit, cursor) && pages[0].hasNextPage
    ensures IsWalk(pages[1..], stores, k + 1, limit, pages[0].endCursor)
            && Bound(pages[0].endCursor) == LastOf(pages[0])
  {
    assert forall x :: x in stores(k) ==> x >= 0;
    NextBound(pages[0], stores(k), Bound(cursor), limit);
  }

  lemma {:induction false} WalkShowsInTurn(pages: seq<Connection>, stores: nat -> set<int>, k: nat, limit: nat,
                                           cursor: Option<string>)
    requires limit >= 1 && Growing(stores) && IsWalk(pages, stores, k, limit, cursor)
    ensures ShowsInTurn(pages, stores, k, limit, Bound(cursor))
    decreases |pages|
  {
    if pages[0].hasNextPage {
      WalkGoesOn(pages, stores, k, limit, cursor);
      WalkShowsInTurn(pages[1..], stores, k + 1, limit, pages[0].endCursor);
    }
  }

  lemma {:induction false} PagesAreFull(pages: seq<Connection>, stores: nat -> set<int>, k: nat, limit: nat,
                                        bound: Option<int>)
    requires limit >= 1 && ShowsInTurn(pages, stores, k, limit, bound)
    ensures forall i :: 0 <= i < |pages| - 1 ==> |pages[i].edges| == limit && pages[i].hasNextPage
    ensures !pages[|pages| - 1].hasNextPage
    decreases |pages|
  {
    if pages[0].hasNextPage {
      var rest := pages[1..];
      FullPage(pages[0], stores(k), bound, limit);
      PagesAreFull(rest, stores, k + 1, limit, LastOf(pages[0]));
      assert pages == [pages[0]] + rest;
    }
  }

  predicate AllIn(rows: seq<int>, store: set<int>) {
    forall i :: 0 <= i < |rows| ==> rows[i] in store
  }

  lemma PageIsStored(page: Connection, store: set<int>, later: set<int>, bound: Option<int>, limit: nat)
    requires Shows(page, store, bound, limit) && store <= later
    ensures AllIn(Sequences(page.edges), later)
  {
    SelectIsTop(store, bound, limit);
  }

  lemma {:induction false} OnlyStoredAreSeen(pages: seq<Connection>, stores: nat -> set<int>, k: nat, end: nat,
                                             limit: nat, bound: Option<int>)
    requires Growing(stores) && ShowsInTurn(pages, stores, k, limit, bound) && end == k + |pages| - 1
    ensures AllIn(Collect(pages), stores(end))
    decreases |pages|
  {
    PageIsStored(pages[0], stores(k), stores(end), bound, limit);
    if pages[0].hasNextPage {
      OnlyStoredAreSeen(pages[1..], stores, k + 1, end, limit, LastOf(pages[0]));
      AllInBoth(Sequences(pages[0].edges), Collect(pages[1..]), stores(end));
    } else {
      CollectLast(pages);
    }
  }

  lemma AllInBoth(a: seq<int>, b: seq<int>, store: set<int>)
    requires AllIn(a, store) && AllIn(b, store)
    ensures AllIn(a + b, store)
  {
  }

  // The rows are descending, lie below the bound and include all that the store holds there.
  predicate CoversInOrder(rows: seq<int>, store: set<int>, bound: Option<int>) {
    && Descending(rows)
    && (forall i :: 0 <= i < |rows| ==> Below(rows[i], bound))
    && (forall x :: x in store && Below(x, bound) ==> x in rows)
  }

  lemma LastPageCovers(page: Connection, store: set<int>, bound: Option<int>, limit: nat)
    requires Shows(page, store, bound, limit) && !page.hasNextPage
    ensures CoversInOrder(Sequences(page.edges), store, bound)
  {
    SelectIsTop(store, bound, limit);
  }

  lemma {:induction false} WalkCoversInOrder(pages: seq<Connection>, stores: nat -> set<int>, k: nat, limit: nat,
                                             bound: Option<int>)
    requires limit >= 1 && Growing(stores) && ShowsInTurn(pages, stores, k, limit, bound)
    ensures CoversInOrder(Collect(pages), stores(k), bound)
    decreases |pages|
  {
    var page, rest := pages[0], pages[1..];
    if page.hasNextPage {
      FullPage(page, stores(k), bound, limit);
      WalkCoversInOrder(rest, stores, k + 1, limit, LastOf(page));
      PageThenRest(page, Collect(rest), stores(k), stores(k + 1), bound, limit);
    } else {
      LastPageCovers(page, stores(k), bound, limit);
      CollectLast(pages);
    }
  }

  lemma CollectLast(pages: seq<Connection>)
    requires |pages| == 1
    ensures Collect(pages) == Sequences(pages[0].edges)
  {
    assert pages[1..] == [];
  }

  // A full page followed by descending ledgers below its last one, among them all that the later store holds there.
  lemma PageThenRest(page: Connection, rest: seq<int>, store: set<int>, later: set<int>, bound: Option<int>, limit: nat)
    requires Shows(page, store, bound, limit) && |page.edges| == limit >= 1 && store <= later
    requires CoversInOrder(rest, later, LastOf(page))
    ensures CoversInOrder(Sequences(page.edges) + rest, store, bound)
  {
    SelectIsTop(store, bound, limit);
    RowsThenRest(Sequences(page.edges), rest, store, later, bound, limit);
  }

  lemma RowsThenRest(rows: seq<int>, rest: seq<int>, store: set<int>, later: set<int>, bound: Option<int>, limit: nat)
    requires IsTop(rows, store, bound, limit) && |rows| == limit >= 1 && store <= later
    requires CoversInOrder(rest, later, Some(rows[limit - 1]))
    ensures CoversInOrder(rows + rest, store, bound)
  {
    var last := rows[limit - 1];
    assert Below(last, bound);
    assert forall i :: 0 <= i < |rest| ==> rest[i] < last;
    assert forall i :: 0 <= i < limit ==> rows[i] >= last;
    forall x | x in store && Below(x, bound)
      ensures x in rows + rest
    {
      if x < last {
        assert x in later && Below(x, Some(last));
      }
    }
  }

  // Main result: the walk is strictly descending, returns every ledger the table held below the bound when the walk
  // began, and nothing that no page read; every page but the last is full.
  lemma WalkIsExact(pages: seq<Connection>, stores: nat -> set<int>, k: nat, limit: nat, cursor: Option<string>)
    requires limit >= 1 && Growing(stores) && IsWalk(pages, stores, k, limit, cursor)
    ensures Descending(Collect(pages))
    ensures forall x :: x in stores(k) && Below(x, Bound(cursor)) ==> x in Collect(pages)
    ensures AllIn(Collect(pages), stores(k + |pages| - 1))
    ensures forall i :: 0 <= i < |Collect(pages)| ==> Below(Collect(pages)[i], Bound(cursor))
    ensures forall i :: 0 <= i < |pages| - 1 ==> |pages[i].edges| == limit && pages[i].hasNextPage
    ensures !pages[|pages| - 1].hasNextPage
  {
    WalkShowsInTurn(pages, stores, k, limit, cursor);
    WalkCoversInOrder(pages, stores, k, limit, Bound(cursor));
    OnlyStoredAreSeen(pages, stores, k, k + |pages| - 1, limit, Bound(cursor));
    PagesAreFull(pages, stores, k, limit, Bound(cursor));
  }

  // From any accepted cursor there is a walk, and it is finite.
  lemma {:induction false} WalkEnds(stores: nat -> set<int>, k: nat, limit: nat, cursor: Option<string>)
    returns (pages: seq<Connection>)
    requires limit >= 1 && Growing(stores) && ValidateCursor(cursor).Ok?
    ensures IsWalk(pages, stores, k, limit, cursor)
    decreases Bound(cursor).None?, if Bound(cursor).None? then 0 else Bound(cursor).value
  {
    var rows := SelectDescending(stores(k), Bound(cursor), limit + 1);
    var page := PageOf(rows, limit);
    RowsMakePage(stores(k), Bound(cursor), limit);
    if page.hasNextPage {
      NextBound(page, stores(k), Bound(cursor), limit);
      var rest := WalkEnds(stores, k + 1, limit, page.endCursor);
      pages := [page] + rest;
      assert pages[1..] == rest;
    } else {
      pages := [page];
    }
  }

  // Only one sequence of rows can answer the query.
  lemma {:induction false} TopIsUnique(a: seq<int>, b: seq<int>, store: set<int>, bound: Option<int>, n: nat)
    requires IsTop(a, store, bound, n) && IsTop(b, store, bound, n)
    ensures a == b
    decreases |a|
  {
    if |a| == 0 {
      TopIsEmpty(a, b, store, bound, n);
    } else if |b| == 0 {
      TopIsEmpty(b, a, store, bound, n);
    } else {
      TopHead(a, b, store, bound, n);
      TopHead(b, a, store, bound, n);
      TopOfRest(a, store, bound, n);
      TopOfRest(b, store, bound, n);
      TopIsUnique(a[1..], b[1..], store, Some(a[0]), n - 1);
      assert a == [a[0]] + a[1..] && b == [b[0]] + b[1..];
    }
  }

  lemma TopIsEmpty(a: seq<int>, b: seq<int>, store: set<int>, bound: Option<int>, n: nat)
    requires IsTop(a, store, bound, n) && IsTop(b, store, bound, n) && |a| == 0
    ensures |b| == 0
  {
    if |b| > 0 {
      RowExists(b, store, bound, n);
      assert false;
    }
  }

  lemma RowExists(rows: seq<int>, store: set<int>, bound: Option<int>, n: nat)
    requires IsTop(rows, store, bound, n) && |rows| > 0
    ensures n > 0 && exists x :: x in store && Below(x, bound)
  {
    assert rows[0] in store;
  }

  lemma TopHead(a: seq<int>, b: seq<int>, store: set<int>, bound: Option<int>, n: nat)
    requires IsTop(a, store, bound, n) && IsTop(b, store, bound, n) && |a| > 0 && |b| > 0
    ensures b[0] <= a[0]
  {
    assert b[0] in store && Below(b[0], bound);
    assert a[|a| - 1] <= a[0];
  }

  lemma TopOfRest(rows: seq<int>, store: set<int>, bound: Option<int>, n: nat)
    requires IsTop(rows, store, bound, n) && |rows| > 0
    ensures IsTop(rows[1..], store, Some(rows[0]), n - 1)
  {
    assert Below(rows[0], bound);
    assert rows == [rows[0]] + rows[1..];
  }

  // Over a table that does not change, the pages together are the answer of one query without a limit.
  lemma WalkOfFixedStore(pages: seq<Connection>, stores: nat -> set<int>, k: nat, limit: nat, cursor: Option<string>,
                         n: nat)
    requires limit >= 1 && Growing(stores) && IsWalk(pages, stores, k, limit, cursor)
    requires stores(k + |pages| - 1) == stores(k) && n >= |Collect(pages)|
    ensures Collect(pages) == SelectDescending(stores(k), Bound(cursor), n)
  {
    WalkIsExact(pages, stores, k, limit, cursor);
    SelectIsTop(stores(k), Bound(cursor), n);
    TopIsUnique(Collect(pages), SelectDescending(stores(k), Bound(cursor), n), stores(k), Bound(cursor), n);
  }
}
