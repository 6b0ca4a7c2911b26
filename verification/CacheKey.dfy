/**
 Cache keys of packages/api/src/database/cached-query.ts: the parts of a query, sorted by name and printed as JSON.
 Every JSON text ends before the next delimiter, which is what makes the keys unambiguous.
 */
module CacheKey {
  import S = Sequences

  // A part value as JSON.stringify sees it: a number is the token it prints as, members that print as nothing are
  // gone. Undefined is possible only for a whole part.
  datatype Json =
    | Null
    | Bool(value: bool)
    | Number(token: string)
    | Str(text: string)
    | Array(items: seq<Json>)
    | Object(members: seq<Member>)
    | Undefined

  datatype Member = Member(name: string, value: Json)

  predicate IsNumberChar(c: char) {
    '0' <= c <= '9' || c == '-' || c == '+' || c == '.' || c == 'e'
  }

  predicate IsToken(s: string) {
    s != [] && ('0' <= s[0] <= '9' || s[0] == '-') && forall i :: 0 <= i < |s| ==> IsNumberChar(s[i])
  }

  predicate WellFormed(v: Json) {
    match v
    case Number(token) => IsToken(token)
    case Array(items) => forall x <- items :: WellFormed(x) && !x.Undefined?
    case Object(members) => forall m <- members :: WellFormed(m.value) && !m.value.Undefined?
    case _ => true
  }

  // ----- Printing -----

  function HexDigit(n: nat): char
    requires n < 16
  {
    "0123456789abcdef"[n]
  }

  // One character of a JSON string.
  function EscapeChar(c: char): string {
    if c == '"' then ['\\', '"']
    else if c == '\\' then ['\\', '\\']
    else if c == '\n' then ['\\', 'n']
    else if c == '\r' then ['\\', 'r']
    else if c == '\t' then ['\\', 't']
    else if c as int == 8 then ['\\', 'b']
    else if c as int == 12 then ['\\', 'f']
    else if c < ' ' then ['\\', 'u', '0', '0', HexDigit(c as int / 16), HexDigit(c as int % 16)]
    else [c]
  }

  // The functions below print a value in front of the text that follows it.

  function EscapeThen(s: string, rest: string): string {
    if s == [] then rest else EscapeChar(s[0]) + EscapeThen(s[1..], rest)
  }

  function QuoteThen(s: string, rest: string): string {
    ['"'] + EscapeThen(s, ['"'] + rest)
  }

  function PrintThen(v: Json, rest: string): string
    decreases v, 2
  {
    match v
    case Null => "null" + rest
    case Bool(b) => (if b then "true" else "false") + rest
    case Number(token) => token + rest
    case Str(text) => QuoteThen(text, rest)
    case Array(items) => ['['] + ItemsThen(items, rest)
    case Object(members) => ['{'] + MembersThen(members, rest)
    case Undefined => "undefined" + rest
  }

  function ItemsThen(items: seq<Json>, rest: string): string
    decreases items, 1
  {
    if items == [] then [']'] + rest else PrintThen(items[0], AfterItem(items, rest))
  }

  function AfterItem(items: seq<Json>, rest: string): string
    requires items != []
    decreases items, 0
  {
    if |items| == 1 then [']'] + rest else [','] + ItemsThen(items[1..], rest)
  }

  function MembersThen(members: seq<Member>, rest: string): string
    decreases members, 1
  {
    if members == [] then ['}'] + rest
    else QuoteThen(members[0].name, [':'] + PrintThen(members[0].value, AfterMember(members, rest)))
  }

  function AfterMember(members: seq<Member>, rest: string): string
    requires members != []
    decreases members, 0
  {
    if |members| == 1 then ['}'] + rest else [','] + MembersThen(members[1..], rest)
  }

  // The JSON text of a value.
  function Stringify(v: Json): string {
    PrintThen(v, [])
  }

  // ----- Self-delimiting -----

  predicate AtDelimiter(rest: string) {
    rest == [] || rest[0] == ',' || rest[0] == ']' || rest[0] == '}' || rest[0] == ':'
  }

  lemma EscapeCharUnambiguous(c: char, d: char, x: string, y: string)
    requires EscapeChar(c) + x == EscapeChar(d) + y
    ensures c == d && x == y
  {
    var p, q := EscapeChar(c), EscapeChar(d);
    assert p[0] == (p + x)[0] == (q + y)[0] == q[0];
    if |p| >= 2 && |q| >= 2 {
      assert p[1] == (p + x)[1] == (q + y)[1] == q[1];
      if |p| == 6 && |q| == 6 {
        assert p[4] == (p + x)[4] == (q + y)[4] == q[4];
        assert p[5] == (p + x)[5] == (q + y)[5] == q[5];
        HexDigitInjective(c as int / 16, d as int / 16);
        HexDigitInjective(c as int % 16, d as int % 16);
      }
    }
    assert c == d;
    assert x == (p + x)[|p|..] && y == (q + y)[|q|..];
  }

  lemma HexDigitInjective(a: nat, b: nat)
    requires a < 16 && b < 16 && HexDigit(a) == HexDigit(b)
    ensures a == b
  {
  }

  lemma {:induction false} EscapeUnambiguous(s: string, t: string, x: string, y: string)
    requires EscapeThen(s, ['"'] + x) == EscapeThen(t, ['"'] + y)
    ensures s == t && x == y
    decreases |s|
  {
    EscapeHead(s, x);
    EscapeHead(t, y);
    if s == [] {
      assert x == (['"'] + x)[1..] && y == (['"'] + y)[1..];
    } else {
      EscapeCharUnambiguous(s[0], t[0], EscapeThen(s[1..], ['"'] + x), EscapeThen(t[1..], ['"'] + y));
      EscapeUnambiguous(s[1..], t[1..], x, y);
      assert s == [s[0]] + s[1..] && t == [t[0]] + t[1..];
    }
  }

  // The closing quote comes first exactly after the last character.
  lemma EscapeHead(s: string, x: string)
    ensures EscapeThen(s, ['"'] + x) != []
    ensures EscapeThen(s, ['"'] + x)[0] == '"' <==> s == []
  {
  }

  lemma SameTail(c: char, x: string, y: string)
    requires [c] + x == [c] + y
    ensures x == y
  {
    assert x == ([c] + x)[1..] && y == ([c] + y)[1..];
  }

  lemma QuoteUnambiguous(s: string, t: string, x: string, y: string)
    requires QuoteThen(s, x) == QuoteThen(t, y)
    ensures s == t && x == y
  {
    SameTail('"', EscapeThen(s, ['"'] + x), EscapeThen(t, ['"'] + y));
    EscapeUnambiguous(s, t, x, y);
  }

  // How many characters of a number the text begins with.
  function NumberRun(text: string): nat {
    if text == [] || !IsNumberChar(text[0]) then 0 else 1 + NumberRun(text[1..])
  }

  lemma {:induction false} NumberRunOfToken(s: string, x: string)
    requires (forall i :: 0 <= i < |s| ==> IsNumberChar(s[i])) && AtDelimiter(x)
    ensures NumberRun(s + x) == |s|
    decreases |s|
  {
    if s == [] {
      assert s + x == x;
    } else {
      assert (s + x)[1..] == s[1..] + x;
      NumberRunOfToken(s[1..], x);
    }
  }

  lemma TokenUnambiguous(s: string, t: string, x: string, y: string)
    requires IsToken(s) && IsToken(t) && AtDelimiter(x) && AtDelimiter(y) && s + x == t + y
    ensures s == t && x == y
  {
    NumberRunOfToken(s, x);
    NumberRunOfToken(t, y);
    SamePrefix(s, t, x, y);
  }

  lemma SamePrefix(s: string, t: string, x: string, y: string)
    requires |s| == |t| && s + x == t + y
    ensures s == t && x == y
  {
    assert s == (s + x)[..|s|] && t == (t + y)[..|t|];
    assert x == (s + x)[|s|..] && y == (t + y)[|t|..];
  }

  // The first character tells the kind of a value.
  function Head(v: Json): char
    requires WellFormed(v)
  {
    match v
    case Null => 'n'
    case Bool(b) => if b then 't' else 'f'
    case Number(token) => token[0]
    case Str(_) => '"'
    case Array(_) => '['
    case Object(_) => '{'
    case Undefined => 'u'
  }

  lemma PrintHead(v: Json, x: string)
    requires WellFormed(v)
    ensures PrintThen(v, x) != [] && PrintThen(v, x)[0] == Head(v)
    ensures !AtDelimiter(PrintThen(v, x))
  {
  }

  // A printed value ends before the next delimiter, and no other value prints as the same text.
  lemma {:induction false} PrintUnambiguous(v: Json, w: Json, x: string, y: string)
    requires WellFormed(v) && WellFormed(w) && AtDelimiter(x) && AtDelimiter(y)
    requires PrintThen(v, x) == PrintThen(w, y)
    ensures v == w && x == y
    decreases v
  {
    PrintHead(v, x);
    PrintHead(w, y);
    match v
    case Null => SamePrefix("null", "null", x, y);
    case Bool(b) => SamePrefix(if b then "true" else "false", if b then "true" else "false", x, y);
    case Number(token) => TokenUnambiguous(token, w.token, x, y);
    case Str(text) => QuoteUnambiguous(text, w.text, x, y);
    case Array(items) =>
      SameTail('[', ItemsThen(items, x), ItemsThen(w.items, y));
      ItemsUnambiguous(items, w.items, x, y);
    case Object(members) =>
      SameTail('{', MembersThen(members, x), MembersThen(w.members, y));
      MembersUnambiguous(members, w.members, x, y);
    case Undefined => SamePrefix("undefined", "undefined", x, y);
  }

  lemma {:induction false} ItemsUnambiguous(a: seq<Json>, b: seq<Json>, x: string, y: string)
    requires (forall v <- a :: WellFormed(v)) && (forall v <- b :: WellFormed(v))
    requires ItemsThen(a, x) == ItemsThen(b, y)
    ensures a == b && x == y
    decreases a
  {
    ItemsHead(a, x);
    ItemsHead(b, y);
    if a == [] {
      SameTail(']', x, y);
    } else {
      var restA, restB := AfterItem(a, x), AfterItem(b, y);
      PrintUnambiguous(a[0], b[0], restA, restB);
      assert restA[0] == restB[0];
      if |a| == 1 {
        SameTail(']', x, y);
      } else {
        SameTail(',', ItemsThen(a[1..], x), ItemsThen(b[1..], y));
        ItemsUnambiguous(a[1..], b[1..], x, y);
      }
      assert a == [a[0]] + a[1..] && b == [b[0]] + b[1..];
    }
  }

  lemma ItemsHead(a: seq<Json>, x: string)
    requires forall v <- a :: WellFormed(v)
    ensures ItemsThen(a, x) != []
    ensures ItemsThen(a, x)[0] == ']' <==> a == []
  {
    if a != [] {
      PrintHead(a[0], AfterItem(a, x));
    }
  }

  lemma {:induction false} MembersUnambiguous(a: seq<Member>, b: seq<Member>, x: string, y: string)
    requires (forall m <- a :: WellFormed(m.value)) && (forall m <- b :: WellFormed(m.value))
    requires MembersThen(a, x) == MembersThen(b, y)
    ensures a == b && x == y
    decreases a
  {
    MembersHead(a, x);
    MembersHead(b, y);
    if a == [] {
      SameTail('}', x, y);
    } else {
      var restA, restB := AfterMember(a, x), AfterMember(b, y);
      MemberUnambiguous(a[0], b[0], restA, restB);
      assert restA[0] == restB[0];
      if |a| == 1 {
        SameTail('}', x, y);
      } else {
        SameTail(',', MembersThen(a[1..], x), MembersThen(b[1..], y));
        MembersUnambiguous(a[1..], b[1..], x, y);
      }
      assert a == [a[0]] + a[1..] && b == [b[0]] + b[1..];
    }
  }

  lemma {:induction false} MemberUnambiguous(m: Member, n: Member, x: string, y: string)
    requires WellFormed(m.value) && WellFormed(n.value) && AtDelimiter(x) && AtDelimiter(y)
    requires QuoteThen(m.name, [':'] + PrintThen(m.value, x)) == QuoteThen(n.name, [':'] + PrintThen(n.value, y))
    ensures m == n && x == y
    decreases m
  {
    var valueM, valueN := PrintThen(m.value, x), PrintThen(n.value, y);
    QuoteUnambiguous(m.name, n.name, [':'] + valueM, [':'] + valueN);
    SameTail(':', valueM, valueN);
    PrintUnambiguous(m.value, n.value, x, y);
  }

  lemma MembersHead(a: seq<Member>, x: string)
    ensures MembersThen(a, x) != []
    ensures MembersThen(a, x)[0] == '}' <==> a == []
  {
  }

  // Stringify is what PrintThen puts in front of the rest.
  lemma {:induction false} EscapeAppends(s: string, x: string, y: string)
    ensures EscapeThen(s, x + y) == EscapeThen(s, x) + y
    decreases |s|
  {
    if s != [] {
      EscapeAppends(s[1..], x, y);
    }
  }

  lemma QuoteAppends(s: string, x: string, y: string)
    ensures QuoteThen(s, x + y) == QuoteThen(s, x) + y
  {
    EscapeAppends(s, ['"'] + x, y);
    assert ['"'] + (x + y) == (['"'] + x) + y;
  }

  lemma Regroup(a: string, x: string, y: string)
    ensures a + (x + y) == (a + x) + y
  {
  }

  lemma {:induction false} PrintAppends(v: Json, x: string, y: string)
    ensures PrintThen(v, x + y) == PrintThen(v, x) + y
    decreases v
  {
    match v
    case Null => Regroup("null", x, y);
    case Bool(b) => Regroup(if b then "true" else "false", x, y);
    case Number(token) => Regroup(token, x, y);
    case Str(text) => QuoteAppends(text, x, y);
    case Array(items) =>
      ItemsAppend(items, x, y);
      Regroup(['['], ItemsThen(items, x), y);
    case Object(members) =>
      MembersAppend(members, x, y);
      Regroup(['{'], MembersThen(members, x), y);
    case Undefined => Regroup("undefined", x, y);
  }

  lemma {:induction false} ItemsAppend(items: seq<Json>, x: string, y: string)
    ensures ItemsThen(items, x + y) == ItemsThen(items, x) + y
    decreases items
  {
    assert [']'] + (x + y) == ([']'] + x) + y;
    if |items| == 1 {
      PrintAppends(items[0], [']'] + x, y);
    } else if |items| > 1 {
      ItemsAppend(items[1..], x, y);
      PrintAppends(items[0], [','] + ItemsThen(items[1..], x), y);
      assert [','] + (ItemsThen(items[1..], x) + y) == ([','] + ItemsThen(items[1..], x)) + y;
    }
  }

  lemma {:induction false} MembersAppend(members: seq<Member>, x: string, y: string)
    ensures MembersThen(members, x + y) == MembersThen(members, x) + y
    decreases members
  {
    assert ['}'] + (x + y) == (['}'] + x) + y;
    if members != [] {
      var rest := AfterMember(members, x);
      if |members| > 1 {
        MembersAppend(members[1..], x, y);
        assert [','] + (MembersThen(members[1..], x) + y) == ([','] + MembersThen(members[1..], x)) + y;
      }
      PrintAppends(members[0].value, rest, y);
      var value := PrintThen(members[0].value, rest);
      assert [':'] + (value + y) == ([':'] + value) + y;
      QuoteAppends(members[0].name, [':'] + value, y);
    }
  }

  // ----- Keys -----

  // An own property of `parts`; the names of one object are distinct.
  datatype Part = Part(name: string, value: Json)

  ghost predicate Parts(parts: seq<Part>) {
    && (forall i :: 0 <= i < |parts| ==> WellFormed(parts[i].value))
    && (forall i, j :: 0 <= i < j < |parts| ==> parts[i].name != parts[j].name)
  }

  // What String.prototype.localeCompare must be for the sort to be canonical: a total order on names.
  ghost predicate Collation(leq: (string, string) -> bool) {
    && (forall a, b :: leq(a, b) || leq(b, a))
    && (forall a, b :: leq(a, b) && leq(b, a) ==> a == b)
    && (forall a, b, c :: leq(a, b) && leq(b, c) ==> leq(a, c))
  }

  function ByName(leq: (string, string) -> bool): (Part, Part) -> bool {
    (p: Part, q: Part) => leq(p.name, q.name)
  }

  // The entries of `parts` in the order of their names.
  function Sort(parts: seq<Part>, leq: (string, string) -> bool): seq<Part> {
    S.Sort(parts, ByName(leq))
  }

  // `name=json` for each part, separated by colons.
  function Serialized(sorted: seq<Part>): string
    decreases |sorted|, 1
  {
    if sorted == [] then []
    else sorted[0].name + (['='] + PrintThen(sorted[0].value, AfterPart(sorted)))
  }

  function AfterPart(sorted: seq<Part>): string
    requires sorted != []
    decreases |sorted|, 0
  {
    if |sorted| == 1 then [] else [':'] + Serialized(sorted[1..])
  }

  function Key(prefix: string, parts: seq<Part>, leq: (string, string) -> bool): string {
    prefix + ([':'] + Serialized(Sort(parts, leq)))
  }

  // buildCacheKey
  method BuildCacheKey(prefix: string, parts: seq<Part>, leq: (string, string) -> bool) returns (key: string)
    ensures key == Key(prefix, parts, leq)
  {
    var sorted := Sort(parts, leq);
    var serialized := [];
    var i := |sorted|;
    while i > 0
      invariant 0 <= i <= |sorted| && serialized == Serialized(sorted[i..])
    {
      i := i - 1;
      var part := sorted[i].name + (['='] + Stringify(sorted[i].value));
      ghost var tail := sorted[i..];
      assert tail[1..] == sorted[i + 1..];
      PrintAppends(sorted[i].value, [], AfterPart(tail));
      assert [] + AfterPart(tail) == AfterPart(tail);
      if i == |sorted| - 1 {
        serialized := part;
        assert PrintThen(sorted[i].value, []) + [] == PrintThen(sorted[i].value, []);
      } else {
        JoinedPart(sorted[i].name, Stringify(sorted[i].value), [':'] + serialized);
        serialized := part + ([':'] + serialized);
      }
    }
    assert sorted[0..] == sorted;
    key := prefix + ([':'] + serialized);
  }

  lemma JoinedPart(name: string, json: string, rest: string)
    ensures (name + (['='] + json)) + rest == name + (['='] + (json + rest))
  {
  }

  // ----- Sorting -----

  ghost predicate Sorted(parts: seq<Part>, leq: (string, string) -> bool) {
    forall i, j :: 0 <= i < j < |parts| ==> leq(parts[i].name, parts[j].name)
  }

  lemma ByNameIsOrder(leq: (string, string) -> bool)
    requires Collation(leq)
    ensures S.IsOrder(ByName(leq))
  {
    forall p, q
      ensures ByName(leq)(p, q) || ByName(leq)(q, p)
    {
      assert leq(p.name, q.name) || leq(q.name, p.name);
    }
    forall p, q, r | ByName(leq)(p, q) && ByName(leq)(q, r)
      ensures ByName(leq)(p, r)
    {
      assert leq(p.name, q.name) && leq(q.name, r.name);
    }
  }

  lemma SortSorts(parts: seq<Part>, leq: (string, string) -> bool)
    requires Collation(leq)
    ensures Sorted(Sort(parts, leq), leq) && multiset(Sort(parts, leq)) == multiset(parts)
  {
    ByNameIsOrder(leq);
    S.SortSorts(parts, ByName(leq));
    var sorted := Sort(parts, leq);
    forall i, j | 0 <= i < j < |sorted|
      ensures leq(sorted[i].name, sorted[j].name)
    {
      assert ByName(leq)(sorted[i], sorted[j]);
    }
  }

  function Names(parts: seq<Part>): set<string> {
    set p | p in parts :: p.name
  }

  // The parts as a set: what the caller means by them.
  function Contents(parts: seq<Part>): set<Part> {
    set p | p in parts
  }

  lemma {:induction false} PartsFromContents(a: seq<Part>, b: seq<Part>)
    requires Parts(a) && multiset(a) == multiset(b)
    ensures Parts(b) && Contents(a) == Contents(b) && |a| == |b|
  {
    forall p ensures p in a <==> p in b {
      assert p in a <==> p in multiset(a);
      assert p in b <==> p in multiset(b);
    }
    assert |multiset(a)| == |a| && |multiset(b)| == |b|;
    forall i | 0 <= i < |b| ensures WellFormed(b[i].value) {
      assert b[i] in a;
    }
    forall i, j | 0 <= i < j < |b| ensures b[i].name != b[j].name {
      assert b[i] in a && b[j] in a;
      if b[i].name == b[j].name {
        var k :| 0 <= k < |a| && a[k] == b[i];
        var l :| 0 <= l < |a| && a[l] == b[j];
        CountedTwice(b, i, j);
        CountedOnce(a, k);
      }
    }
  }

  lemma CountedTwice(b: seq<Part>, i: nat, j: nat)
    requires i < j < |b| && b[i] == b[j]
    ensures multiset(b)[b[i]] >= 2
  {
    assert b == b[..i] + [b[i]] + b[i + 1..j] + [b[j]] + b[j + 1..];
  }

  lemma CountedOnce(a: seq<Part>, k: nat)
    requires Parts(a) && k < |a|
    ensures multiset(a)[a[k]] == 1
  {
    assert a == a[..k] + [a[k]] + a[k + 1..];
    assert a[k] !in a[..k] && a[k] !in a[k + 1..];
    assert a[k] !in multiset(a[..k]) && a[k] !in multiset(a[k + 1..]);
  }

  // Sorted parts are determined by their contents.
  lemma {:induction false} SortedUnique(a: seq<Part>, b: seq<Part>, leq: (string, string) -> bool)
    requires Collation(leq) && Parts(a) && Parts(b) && Sorted(a, leq) && Sorted(b, leq)
    requires Contents(a) == Contents(b)
    ensures a == b
    decreases |a|
  {
    NoContents(a);
    NoContents(b);
    if a != [] {
      assert a[0] in Contents(b) && b[0] in Contents(a);
      assert leq(a[0].name, b[0].name) && leq(b[0].name, a[0].name);
      assert a[0] == b[0];
      TailContents(a);
      TailContents(b);
      SortedUnique(a[1..], b[1..], leq);
      assert a == [a[0]] + a[1..] && b == [b[0]] + b[1..];
    }
  }

  lemma NoContents(a: seq<Part>)
    ensures Contents(a) == {} <==> a == []
  {
    if a != [] {
      assert a[0] in Contents(a);
    }
  }

  lemma TailContents(a: seq<Part>)
    requires Parts(a) && a != []
    ensures Contents(a[1..]) == Contents(a) - {a[0]}
  {
    forall p ensures p in a[1..] <==> p in a && p != a[0] {
      if p in a && p != a[0] {
        var k :| 0 <= k < |a| && a[k] == p;
        assert a[1..][k - 1] == p;
      }
    }
  }

  // ----- Keys identify parts -----

  // Either both calls use the same names, or no name contains an equals sign.
  ghost predicate Comparable(a: seq<Part>, b: seq<Part>) {
    Names(a) == Names(b) || ((forall p <- a :: '=' !in p.name) && (forall p <- b :: '=' !in p.name))
  }

  // Names in step: position by position the same, or free of equals signs.
  ghost predicate InStep(a: seq<Part>, b: seq<Part>) {
    || (|a| == |b| && forall i :: 0 <= i < |a| ==> a[i].name == b[i].name)
    || ((forall i :: 0 <= i < |a| ==> '=' !in a[i].name) && (forall i :: 0 <= i < |b| ==> '=' !in b[i].name))
  }

  function NameRun(text: string): nat {
    if text == [] || text[0] == '=' then 0 else 1 + NameRun(text[1..])
  }

  lemma {:induction false} NameRunOf(name: string, rest: string)
    requires '=' !in name && rest != [] && rest[0] == '='
    ensures NameRun(name + rest) == |name|
    decreases |name|
  {
    if name == [] {
      assert name + rest == rest;
    } else {
      assert (name + rest)[1..] == name[1..] + rest;
      NameRunOf(name[1..], rest);
    }
  }

  lemma NameUnambiguous(a: string, b: string, x: string, y: string)
    requires a == b || ('=' !in a && '=' !in b)
    requires a + (['='] + x) == b + (['='] + y)
    ensures a == b && x == y
  {
    if a != b {
      NameRunOf(a, ['='] + x);
      NameRunOf(b, ['='] + y);
    }
    SamePrefix(a, b, ['='] + x, ['='] + y);
    SameTail('=', x, y);
  }

  lemma {:induction false} SerializedUnambiguous(a: seq<Part>, b: seq<Part>)
    requires Parts(a) && Parts(b) && InStep(a, b)
    requires Serialized(a) == Serialized(b)
    ensures a == b
    decreases |a|
  {
    SerializedEmpty(a);
    SerializedEmpty(b);
    if a != [] {
      var restA, restB := AfterPart(a), AfterPart(b);
      NameUnambiguous(a[0].name, b[0].name, PrintThen(a[0].value, restA), PrintThen(b[0].value, restB));
      PrintUnambiguous(a[0].value, b[0].value, restA, restB);
      if |a| > 1 {
        SameTail(':', Serialized(a[1..]), Serialized(b[1..]));
        SerializedUnambiguous(a[1..], b[1..]);
      }
      assert a == [a[0]] + a[1..] && b == [b[0]] + b[1..];
    }
  }

  lemma SerializedEmpty(a: seq<Part>)
    ensures Serialized(a) == [] <==> a == []
  {
  }

  // The names of sorted parts with the same names agree position by position.
  lemma {:induction false} SortedNamesAgree(a: seq<Part>, b: seq<Part>, leq: (string, string) -> bool)
    requires Collation(leq) && Parts(a) && Parts(b) && Sorted(a, leq) && Sorted(b, leq)
    requires Names(a) == Names(b)
    ensures |a| == |b| && forall i :: 0 <= i < |a| ==> a[i].name == b[i].name
    decreases |a|
  {
    NoNames(a);
    NoNames(b);
    if a != [] {
      assert a[0] in a && b[0] in b;
      assert a[0].name in Names(b) && b[0].name in Names(a);
      assert leq(a[0].name, b[0].name) && leq(b[0].name, a[0].name);
      TailNames(a);
      TailNames(b);
      SortedNamesAgree(a[1..], b[1..], leq);
      forall i | 0 <= i < |a| ensures a[i].name == b[i].name {
        assert i > 0 ==> a[1..][i - 1].name == b[1..][i - 1].name;
      }
    }
  }

  lemma NoNames(a: seq<Part>)
    ensures Names(a) == {} <==> a == []
  {
    if a != [] {
      assert a[0] in a;
      assert a[0].name in Names(a);
    }
  }

  lemma TailNames(a: seq<Part>)
    requires Parts(a) && a != []
    ensures Names(a[1..]) == Names(a) - {a[0].name}
  {
    forall n ensures n in Names(a[1..]) <==> n in Names(a) && n != a[0].name {
      if n in Names(a) && n != a[0].name {
        var p :| p in a && p.name == n;
        var k :| 0 <= k < |a| && a[k] == p;
        assert a[1..][k - 1] == p;
      }
    }
  }

  lemma SortKeepsParts(parts: seq<Part>, leq: (string, string) -> bool)
    requires Collation(leq) && Parts(parts)
    ensures Parts(Sort(parts, leq)) && Sorted(Sort(parts, leq), leq)
    ensures Contents(Sort(parts, leq)) == Contents(parts) && Names(Sort(parts, leq)) == Names(parts)
    ensures forall p :: p in Sort(parts, leq) <==> p in parts
  {
    SortSorts(parts, leq);
    PartsFromContents(parts, Sort(parts, leq));
    forall p ensures p in Sort(parts, leq) <==> p in parts {
      assert p in Contents(parts) <==> p in Contents(Sort(parts, leq));
    }
  }

  // Main result: a key does not depend on the order of the parts, and two calls with comparable names get the same
  // key exactly if they give the same parts.
  lemma KeyIdentifiesParts(prefix: string, a: seq<Part>, b: seq<Part>, leq: (string, string) -> bool)
    requires Collation(leq) && Parts(a) && Parts(b) && Comparable(a, b)
    ensures Key(prefix, a, leq) == Key(prefix, b, leq) <==> Contents(a) == Contents(b)
  {
    var x, y := Sort(a, leq), Sort(b, leq);
    SortKeepsParts(a, leq);
    SortKeepsParts(b, leq);
    if Contents(a) == Contents(b) {
      SortedUnique(x, y, leq);
    }
    if Key(prefix, a, leq) == Key(prefix, b, leq) {
      SamePrefix(prefix, prefix, [':'] + Serialized(x), [':'] + Serialized(y));
      SameTail(':', Serialized(x), Serialized(y));
      if Names(a) == Names(b) {
        SortedNamesAgree(x, y, leq);
      }
      SerializedUnambiguous(x, y);
    }
  }

  // Names with equals signs can collide: a name may hold the end of one part and the beginning of another, so that
  // { "m=1:n": w } and { m: 1, n: w } get one key, whatever the two names and the two values are.
  lemma EqualsSignsCollide(prefix: string, m: string, v: Json, n: string, w: Json, leq: (string, string) -> bool)
    requires Collation(leq) && WellFormed(v) && WellFormed(w) && leq(m, n) && m != n
    ensures var a := [Part(m + (['='] + PrintThen(v, [':'] + n)), w)]; var b := [Part(m, v), Part(n, w)];
            Parts(a) && Parts(b) && Contents(a) != Contents(b) && Key(prefix, a, leq) == Key(prefix, b, leq)
  {
    var p, q, r := Part(m + (['='] + PrintThen(v, [':'] + n)), w), Part(m, v), Part(n, w);
    assert q in Contents([q, r]) && |p.name| > |q.name|;
    assert q !in Contents([p]);
    OnePartSerialized(p, leq);
    TwoPartsSorted(q, r, leq);
    TwoPartsSerialized(q, r, p);
  }

  lemma TwoPartsSerialized(q: Part, r: Part, p: Part)
    requires p == Part(q.name + (['='] + PrintThen(q.value, [':'] + r.name)), r.value)
    ensures Serialized([q, r]) == p.name + (['='] + PrintThen(p.value, []))
  {
    var tail := ['='] + PrintThen(r.value, []);
    assert [q, r][1..] == [r];
    assert Serialized([r]) == r.name + tail;
    assert Serialized([q, r]) == q.name + (['='] + PrintThen(q.value, [':'] + (r.name + tail)));
    Regroup([':'], r.name, tail);
    PrintAppends(q.value, [':'] + r.name, tail);
    Regroup(['='], PrintThen(q.value, [':'] + r.name), tail);
    Regroup(q.name, ['='] + PrintThen(q.value, [':'] + r.name), tail);
  }

  lemma OnePartSerialized(p: Part, leq: (string, string) -> bool)
    ensures Sort([p], leq) == [p] && Serialized([p]) == p.name + (['='] + PrintThen(p.value, []))
  {
    assert [p][1..] == [];
    assert S.Sort([p], ByName(leq)) == S.Insert(p, [], ByName(leq)) == [p] + [];
  }

  lemma TwoPartsSorted(p: Part, q: Part, leq: (string, string) -> bool)
    requires leq(p.name, q.name)
    ensures Sort([p, q], leq) == [p, q]
  {
    assert [p, q][1..] == [q] && [q][1..] == [];
    assert S.Sort([q], ByName(leq)) == [q];
  }

  // ----- The cache -----

  // An answer remembers the parts it was fetched for.
  datatype Answer = Answer(askedFor: set<Part>, payload: string)

  class ResultCache {
    var entries: map<string, Answer>
    const prefix: string
    const names: set<string>
    const leq: (string, string) -> bool

    constructor (prefix: string, names: set<string>, leq: (string, string) -> bool)
      requires Collation(leq)
      ensures Valid() && this.prefix == prefix && this.names == names && this.leq == leq
    {
      this.prefix := prefix;
      this.names := names;
      this.leq := leq;
      entries := map[];
    }

    // Every entry was fetched for parts that have its key.
    ghost predicate Valid()
      reads this
    {
      Collation(leq) && forall key :: key in entries ==> Stems(key, entries[key])
    }

    ghost predicate Stems(key: string, answer: Answer) {
      exists parts ::
        Parts(parts) && Names(parts) == names && key == Key(prefix, parts, leq) && answer.askedFor == Contents(parts)
    }

    // cachedQuery on the key of `parts`: a hit returns what is stored; a miss fetches and stores. While the fetch is
    // under way other calls may store and entries may expire, so that it ends on `meanwhile`. Either way the answer was
    // fetched for exactly these parts.
    method CachedQuery(parts: seq<Part>, fetcher: set<Part> -> string, meanwhile: map<string, Answer>)
      returns (answer: Answer)
      requires Valid() && Parts(parts) && Names(parts) == names
      requires forall key :: key in meanwhile ==> Stems(key, meanwhile[key])
      modifies this
      ensures Valid() && answer.askedFor == Contents(parts)
      ensures var key := Key(prefix, parts, leq);
              && (key in old(entries) ==> answer == old(entries)[key] && entries == old(entries))
              && (key !in old(entries) ==>
                    answer.payload == fetcher(Contents(parts)) && entries == meanwhile[key := answer])
    {
      var key := BuildCacheKey(prefix, parts, leq);
      if key in entries {
        answer := entries[key];
        assert Stems(key, answer);
        ghost var other :|
          Parts(other) && Names(other) == names && key == Key(prefix, other, leq) && answer.askedFor == Contents(other);
        KeyIdentifiesParts(prefix, parts, other, leq);
        return;
      }
      answer := Answer(Contents(parts), fetcher(Contents(parts)));
      assert Stems(key, answer);
      entries := meanwhile[key := answer];
    }

    // The time to live of some entries runs out.
    method Expire(keys: set<string>)
      requires Valid()
      modifies this
      ensures Valid() && entries == old(entries) - keys
    {
      entries := entries - keys;
    }
  }
}
