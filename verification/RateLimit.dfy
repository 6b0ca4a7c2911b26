/**
 Fixed-window rate limiting: api/src/rateLimit.ts (memory and Postgres stores) and the subscription limits of
 packages/api/src/pubsub.ts. The clock is a parameter; times never run backwards.
 */
module RateLimit {
  import opened Wrappers

  // One counter: how many requests its window has seen, and the first time that no longer belongs to it.
  datatype Window = Window(count: nat, resetAt: int)

  // MemoryRateLimitStore.increment on the record of one key.
  function Increment(record: Option<Window>, now: int, windowMs: int): Window {
    if record.None? || now >= record.value.resetAt then Window(1, now + windowMs)
    else record.value.(count := record.value.count + 1)
  }

  class MemoryRateLimitStore {
    var records: map<string, Window>

    constructor ()
      ensures records == map[]
    {
      records := map[];
    }

    function RecordOf(key: string): Option<Window>
      reads this
    {
      if key in records then Some(records[key]) else None
    }

    method IncrementKey(key: string, now: int, windowMs: int) returns (r: Window)
      modifies this
      ensures r == Increment(old(RecordOf(key)), now, windowMs)
      ensures records == old(records)[key := r]
    {
      if key !in records || now >= records[key].resetAt {
        var first := Window(1, now + windowMs);
        records := records[key := first];
        return first;
      }
      records := records[key := Window(records[key].count + 1, records[key].resetAt)];
      r := records[key];
    }

    // Every record is looked at once, and deleted if its window has ended.
    method Prune(now: int)
      modifies this
      ensures records == Pruned(old(records), now)
    {
      var keys := records.Keys;
      ghost var before := records;
      while keys != {}
        invariant keys <= before.Keys
        invariant forall key :: key in records <==> key in before && (key in keys || now < before[key].resetAt)
        invariant forall key :: key in records ==> records[key] == before[key]
        decreases |keys|
      {
        var key :| key in keys;
        if now >= records[key].resetAt {
          records := records - {key};
        }
        keys := keys - {key};
      }
    }
  }

  function Pruned(records: map<string, Window>, now: int): map<string, Window> {
    map key | key in records && now < records[key].resetAt :: records[key]
  }

  // The upsert of PostgresRateLimitStore: an insert, or two CASE expressions over the row that is there.
  function Upsert(row: Option<Window>, now: int, windowMs: int): Window {
    var excluded := Window(1, now + windowMs);
    match row
    case None => excluded
    case Some(r) =>
      Window(if r.resetAt <= now then 1 else r.count + 1, if r.resetAt <= now then excluded.resetAt else r.resetAt)
  }

  class PostgresRateLimitStore {
    var rows: map<string, Window>

    constructor ()
      ensures rows == map[]
    {
      rows := map[];
    }

    // Row by row the memory store's rule.
    method IncrementKey(key: string, now: int, windowMs: int) returns (r: Window)
      modifies this
      ensures r == Increment(if key in old(rows) then Some(old(rows)[key]) else None, now, windowMs)
      ensures rows == old(rows)[key := r]
    {
      r := Upsert(if key in rows then Some(rows[key]) else None, now, windowMs);
      rows := rows[key := r];
    }

    method Prune(now: int)
      modifies this
      ensures rows == Pruned(old(rows), now)
    {
      rows := map key | key in rows && !(rows[key].resetAt <= now) :: rows[key];
    }
  }

  datatype RateLimitResult = RateLimitResult(allowed: bool, limit: int, remaining: int, resetAt: int)

  // checkRateLimit, given what the store answered.
  function Check(w: Window, max: int): RateLimitResult {
    RateLimitResult(w.count <= max, max, Max(0, max - w.count), w.resetAt)
  }

  // Either store behind the one interface.
  datatype Store = Memory(memory: MemoryRateLimitStore) | Shared(shared: PostgresRateLimitStore) {
    ghost function Footprint(): set<object> {
      if Memory? then {memory} else {shared}
    }

    ghost function Windows(): map<string, Window>
      reads Footprint()
    {
      if Memory? then memory.records else shared.rows
    }

    ghost function WindowOf(key: string): Option<Window>
      reads Footprint()
    {
      if key in Windows() then Some(Windows()[key]) else None
    }
  }

  method CheckRateLimit(store: Store, key: string, now: int, max: int, windowMs: int) returns (r: RateLimitResult)
    modifies store.Footprint()
    ensures r == Check(Increment(old(store.WindowOf(key)), now, windowMs), max)
    ensures store.Windows() == old(store.Windows())[key := Increment(old(store.WindowOf(key)), now, windowMs)]
  {
    var w: Window;
    match store {
      case Memory(memory) => w := memory.IncrementKey(key, now, windowMs);
      case Shared(shared) => w := shared.IncrementKey(key, now, windowMs);
    }
    r := RateLimitResult(w.count <= max, max, Max(0, max - w.count), w.resetAt);
  }

  // ----- Request traces -----

  datatype Event = Request(key: string, time: int) | Prune(time: int)

  ghost predicate Chronological(events: seq<Event>) {
    forall i, j :: 0 <= i < j < |events| ==> events[i].time <= events[j].time
  }

  function Handle(records: map<string, Window>, e: Event, windowMs: int): map<string, Window> {
    match e
    case Request(key, time) =>
      records[key := Increment(if key in records then Some(records[key]) else None, time, windowMs)]
    case Prune(time) => Pruned(records, time)
  }

  // Whether each request of a trace is allowed.
  function Decisions(records: map<string, Window>, events: seq<Event>, max: int, windowMs: int): seq<bool>
    decreases |events|
  {
    if events == [] then []
    else
      var next := Handle(records, events[0], windowMs);
      (if events[0].Request? then [Check(next[events[0].key], max).allowed] else [])
      + Decisions(next, events[1..], max, windowMs)
  }

  // How many requests of a key are allowed in the half-open interval [from, to).
  function AllowedWithin(records: map<string, Window>, events: seq<Event>, key: string, from: int, to: int, max: int,
                         windowMs: int): nat
    decreases |events|
  {
    if events == [] then 0
    else
      var next := Handle(records, events[0], windowMs);
      (if events[0].Request? && events[0].key == key && from <= events[0].time < to
        && next[key].count <= max then 1 else 0)
      + AllowedWithin(next, events[1..], key, from, to, max, windowMs)
  }

  ghost predicate Counting(records: map<string, Window>) {
    forall key :: key in records ==> records[key].count >= 1
  }

  lemma ChronologicalTail(events: seq<Event>)
    requires Chronological(events) && events != []
    ensures Chronological(events[1..])
  {
  }

  // What a window that is still open can still allow.
  function Left(records: map<string, Window>, key: string, max: int): nat {
    if key in records then Max(0, max - records[key].count) else Max(0, max)
  }

  // While one window stays open it allows no more than what is left of it.
  lemma {:induction false} OneWindow(records: map<string, Window>, events: seq<Event>, key: string, from: int, to: int,
                                     max: int, windowMs: int)
    requires Chronological(events)
    requires key in records && records[key].resetAt >= to
    ensures AllowedWithin(records, events, key, from, to, max, windowMs) <= Left(records, key, max)
    decreases |events|
  {
    if events != [] {
      ChronologicalTail(events);
      var next := Handle(records, events[0], windowMs);
      if events[0].time >= to {
        NothingLater(next, events[1..], key, from, to, max, windowMs);
      } else {
        OneWindow(next, events[1..], key, from, to, max, windowMs);
      }
    }
  }

  lemma {:induction false} NothingLater(records: map<string, Window>, events: seq<Event>, key: string, from: int,
                                        to: int, max: int, windowMs: int)
    requires forall i :: 0 <= i < |events| ==> events[i].time >= to
    ensures AllowedWithin(records, events, key, from, to, max, windowMs) == 0
    decreases |events|
  {
    if events != [] {
      NothingLater(Handle(records, events[0], windowMs), events[1..], key, from, to, max, windowMs);
    }
  }

  // The requests of a key before a time.
  function AskedBefore(events: seq<Event>, key: string, to: int): nat {
    if events == [] then 0
    else (if events[0].Request? && events[0].key == key && events[0].time < to then 1 else 0)
         + AskedBefore(events[1..], key, to)
  }

  lemma {:induction false} NothingAsked(events: seq<Event>, key: string, to: int)
    requires forall i :: 0 <= i < |events| ==> events[i].time >= to
    ensures AskedBefore(events, key, to) == 0
    decreases |events|
  {
    if events != [] {
      NothingAsked(events[1..], key, to);
    }
  }

  // Main result: `remaining` and `resetAt` of an answer are exact: of the key's further requests before resetAt the
  // first `remaining` are allowed and no others, whatever other keys and prunings do.
  lemma {:induction false} RemainingIsExact(records: map<string, Window>, events: seq<Event>, key: string, from: int,
                                            max: int, windowMs: int)
    requires Chronological(events) && key in records && forall i :: 0 <= i < |events| ==> events[i].time >= from
    ensures Check(records[key], max).limit == max
    ensures AllowedWithin(records, events, key, from, Check(records[key], max).resetAt, max, windowMs)
            == Min(Check(records[key], max).remaining, AskedBefore(events, key, Check(records[key], max).resetAt))
    decreases |events|
  {
    var to := records[key].resetAt;
    if events != [] {
      ChronologicalTail(events);
      var next := Handle(records, events[0], windowMs);
      if events[0].time >= to {
        NothingLater(next, events[1..], key, from, to, max, windowMs);
        NothingAsked(events[1..], key, to);
      } else {
        RemainingIsExact(next, events[1..], key, from, max, windowMs);
      }
    }
  }

  // From inside an interval no longer than a window: the rest of one window and at most one fresh one.
  lemma {:induction false} TwoWindows(records: map<string, Window>, events: seq<Event>, key: string, from: int,
                                      to: int, max: int, windowMs: int)
    requires Chronological(events) && to <= from + windowMs
    requires forall i :: 0 <= i < |events| ==> events[i].time >= from
    ensures AllowedWithin(records, events, key, from, to, max, windowMs)
            <= Max(0, max) + (if key in records then Left(records, key, max) else 0)
    decreases |events|
  {
    if events != [] {
      ChronologicalTail(events);
      var e := events[0];
      var next := Handle(records, e, windowMs);
      if e.time >= to {
        NothingLater(next, events[1..], key, from, to, max, windowMs);
      } else if e.Request? && e.key == key && next[key] == Window(1, e.time + windowMs) {
        OneWindow(next, events[1..], key, from, to, max, windowMs);
      } else {
        TwoWindows(next, events[1..], key, from, to, max, windowMs);
      }
    }
  }

  lemma {:induction false} AnyInterval(records: map<string, Window>, events: seq<Event>, key: string, from: int,
                                       to: int, max: int, windowMs: int)
    requires Chronological(events) && Counting(records) && to <= from + windowMs
    ensures AllowedWithin(records, events, key, from, to, max, windowMs) <= Max(0, 2 * max - 1)
    decreases |events|
  {
    if events != [] {
      if events[0].time >= from {
        TwoWindows(records, events, key, from, to, max, windowMs);
      } else {
        ChronologicalTail(events);
        AnyInterval(Handle(records, events[0], windowMs), events[1..], key, from, to, max, windowMs);
      }
    }
  }

  // Main result: no half-open interval of the length of a window sees more than 2 * max - 1 allowed requests of a
  // key, whatever the trace, other keys and prunings included.
  lemma FewerThanTwiceTheLimit(events: seq<Event>, key: string, from: int, max: int, windowMs: int)
    requires Chronological(events)
    ensures AllowedWithin(map[], events, key, from, from + windowMs, max, windowMs) <= Max(0, 2 * max - 1)
  {
    AnyInterval(map[], events, key, from, from + windowMs, max, windowMs);
  }

  // ----- The bound is met -----

  // `n` requests of a key at one time.
  function Burst(key: string, time: int, n: nat): seq<Event> {
    seq(n, _ => Request(key, time))
  }

  lemma {:induction false} BurstAllowed(records: map<string, Window>, key: string, time: int, n: nat, rest: seq<Event>,
                                        from: int, to: int, max: int, windowMs: int)
    returns (after: map<string, Window>)
    requires key in records && time < records[key].resetAt && records[key].count + n <= max && from <= time < to
    ensures AllowedWithin(records, Burst(key, time, n) + rest, key, from, to, max, windowMs)
            == n + AllowedWithin(after, rest, key, from, to, max, windowMs)
    ensures key in after && after[key].resetAt == records[key].resetAt
    decreases n
  {
    var events := Burst(key, time, n) + rest;
    if n == 0 {
      after := records;
      assert events == rest;
    } else {
      assert events[1..] == Burst(key, time, n - 1) + rest;
      after := BurstAllowed(Handle(records, events[0], windowMs), key, time, n - 1, rest, from, to, max, windowMs);
    }
  }

  // One request opens a window; the rest of its limit comes at its end, and a full limit right after it.
  function Straddle(key: string, max: nat, windowMs: nat): seq<Event>
    requires max >= 1 && windowMs >= 2
  {
    [Request(key, 0)] + (Burst(key, windowMs - 1, max - 1) + ([Request(key, windowMs)] + Burst(key, windowMs, max - 1)))
  }

  lemma StraddleChronological(key: string, max: nat, windowMs: nat)
    requires max >= 1 && windowMs >= 2
    ensures Chronological(Straddle(key, max, windowMs))
  {
    var events := Straddle(key, max, windowMs);
    forall i | 0 <= i < |events|
      ensures events[i].time == if i == 0 then 0 else if i < max then windowMs - 1 else windowMs
    {
    }
  }

  // A full limit right after the old window ended.
  lemma FullWindow(records: map<string, Window>, key: string, time: int, from: int, to: int, max: nat, windowMs: nat)
    requires max >= 1 && windowMs >= 1 && from <= time < to
    requires key in records && time >= records[key].resetAt
    ensures AllowedWithin(records, [Request(key, time)] + Burst(key, time, max - 1), key, from, to, max, windowMs) ==
            max
  {
    var burst := Burst(key, time, max - 1);
    var events := [Request(key, time)] + burst;
    assert events[1..] == burst == burst + [];
    var end := BurstAllowed(Handle(records, events[0], windowMs), key, time, max - 1, [], from, to, max, windowMs);
  }

  // Main result: the bound of FewerThanTwiceTheLimit is met for every limit and every window of two units or more.
  lemma BoundIsMet(key: string, max: nat, windowMs: nat)
    requires max >= 1 && windowMs >= 2
    ensures Chronological(Straddle(key, max, windowMs))
    ensures AllowedWithin(map[], Straddle(key, max, windowMs), key, windowMs - 1, 2 * windowMs - 1, max, windowMs)
            == 2 * max - 1
  {
    StraddleChronological(key, max, windowMs);
    var from, to := windowMs - 1, windowMs - 1 + windowMs;
    var rest := [Request(key, windowMs)] + Burst(key, windowMs, max - 1);
    var events := Straddle(key, max, windowMs);
    assert events[1..] == Burst(key, windowMs - 1, max - 1) + rest;
    var after := BurstAllowed(Handle(map[], events[0], windowMs), key, windowMs - 1, max - 1, rest, from, to, max,
      windowMs);
    FullWindow(after, key, windowMs, from, to, max, windowMs);
  }

  // ----- Pruning changes no decision -----

  // The same windows, up to expired ones.
  ghost predicate SameOpen(a: map<string, Window>, b: map<string, Window>, now: int) {
    forall key :: (key in a && now < a[key].resetAt) || (key in b && now < b[key].resetAt) ==>
      key in a && key in b && a[key] == b[key]
  }

  function WithoutPrunes(events: seq<Event>): seq<Event> {
    if events == [] then []
    else (if events[0].Request? then [events[0]] else []) + WithoutPrunes(events[1..])
  }

  lemma {:induction false} SameDecisions(a: map<string, Window>, b: map<string, Window>, now: int, events: seq<Event>,
                                         max: int, windowMs: int)
    requires Chronological(events) && SameOpen(a, b, now) && forall i :: 0 <= i < |events| ==> now <= events[i].time
    ensures Decisions(a, events, max, windowMs) == Decisions(b, WithoutPrunes(events), max, windowMs)
    decreases |events|
  {
    if events != [] {
      ChronologicalTail(events);
      var e := events[0];
      var a' := Handle(a, e, windowMs);
      if e.Request? {
        var b' := Handle(b, e, windowMs);
        assert a'[e.key] == b'[e.key];
        SameDecisions(a', b', e.time, events[1..], max, windowMs);
        assert WithoutPrunes(events)[0] == e && WithoutPrunes(events)[1..] == WithoutPrunes(events[1..]);
      } else {
        SameDecisions(a', b, e.time, events[1..], max, windowMs);
        assert WithoutPrunes(events) == WithoutPrunes(events[1..]);
      }
    }
  }

  // Main result: prunings may happen at any moment without changing a later decision.
  lemma PruningIsInvisible(events: seq<Event>, max: int, windowMs: int)
    requires Chronological(events)
    ensures Decisions(map[], events, max, windowMs) == Decisions(map[], WithoutPrunes(events), max, windowMs)
  {
    if events != [] {
      SameDecisions(map[], map[], events[0].time, events, max, windowMs);
    }
  }

  // The records after a trace.
  function After(records: map<string, Window>, events: seq<Event>, windowMs: int): map<string, Window>
    decreases |events|
  {
    if events == [] then records
    else Handle(After(records, events[..|events| - 1], windowMs), events[|events| - 1], windowMs)
  }

  predicate Opens(e: Event, key: string, resetAt: int, windowMs: int) {
    e.Request? && e.key == key && e.time + windowMs == resetAt
  }

  lemma {:induction false} OpenedByRequest(events: seq<Event>, windowMs: int, key: string)
    requires key in After(map[], events, windowMs)
    ensures exists i ::
              0 <= i < |events| && Opens(events[i], key, After(map[], events, windowMs)[key].resetAt, windowMs)
    decreases |events|
  {
    if events != [] {
      var before, e := events[..|events| - 1], events[|events| - 1];
      var records := After(map[], before, windowMs);
      if key in records && (e.Prune? || e.key != key || e.time < records[key].resetAt) {
        OpenedByRequest(before, windowMs, key);
        var i :| 0 <= i < |before| && Opens(before[i], key, records[key].resetAt, windowMs);
        assert Opens(events[i], key, After(map[], events, windowMs)[key].resetAt, windowMs);
      } else {
        assert Opens(e, key, After(map[], events, windowMs)[key].resetAt, windowMs);
      }
    }
  }

  // Pruning bounds the store: afterwards it holds only keys that were requested less than a window ago.
  lemma PrunedAreRecent(events: seq<Event>, now: int, windowMs: int, key: string)
    requires key in After(map[], events + [Prune(now)], windowMs)
    ensures exists i :: 0 <= i < |events| && events[i].Request? && events[i].key == key
                        && now < events[i].time + windowMs
  {
    assert (events + [Prune(now)])[..|events|] == events;
    OpenedByRequest(events, windowMs, key);
    var i :| 0 <= i < |events| && Opens(events[i], key, After(map[], events, windowMs)[key].resetAt, windowMs);
    assert events[i].Request?;
  }

  // ----- The subscription limits -----

  datatype Limit = Limit(count: nat, resetTime: int)

  function NextLimit(limit: Option<Limit>, now: int, max: nat, windowMs: int): Limit {
    if limit.None? || now > limit.value.resetTime then Limit(1, now + windowMs)
    else if limit.value.count >= max then limit.value
    else limit.value.(count := limit.value.count + 1)
  }

  predicate Admits(limit: Option<Limit>, now: int, max: nat) {
    limit.None? || now > limit.value.resetTime || limit.value.count < max
  }

  // cleanupRateLimits on one of the two maps.
  function CleanedUp(limits: map<string, Limit>, now: int): map<string, Limit> {
    map ip | ip in limits && !(now > limits[ip].resetTime) :: limits[ip]
  }

  // The module keeps one such map for subscriptions and one for events.
  class SubscriptionLimits {
    var limits: map<string, Limit>

    constructor ()
      ensures limits == map[]
    {
      limits := map[];
    }

    function LimitOf(ip: string): Option<Limit>
      reads this
    {
      if ip in limits then Some(limits[ip]) else None
    }

    // checkSubscriptionRateLimit and checkEventRateLimit: a window stays open through its reset time, and the
    // count stops at the limit.
    method Check(ip: string, now: int, max: nat, windowMs: int) returns (allowed: bool)
      modifies this
      ensures limits == old(limits)[ip := NextLimit(old(LimitOf(ip)), now, max, windowMs)]
      ensures allowed == Admits(old(LimitOf(ip)), now, max)
    {
      if ip !in limits || now > limits[ip].resetTime {
        limits := limits[ip := Limit(1, now + windowMs)];
        return true;
      }
      if limits[ip].count >= max {
        assert limits == limits[ip := limits[ip]];
        return false;
      }
      limits := limits[ip := limits[ip].(count := limits[ip].count + 1)];
      return true;
    }

    method Cleanup(now: int)
      modifies this
      ensures limits == CleanedUp(old(limits), now)
    {
      var ips := limits.Keys;
      ghost var before := limits;
      while ips != {}
        invariant ips <= before.Keys
        invariant forall ip :: ip in limits <==> ip in before && (ip in ips || !(now > before[ip].resetTime))
        invariant forall ip :: ip in limits ==> limits[ip] == before[ip]
        decreases |ips|
      {
        var ip :| ip in ips;
        if now > limits[ip].resetTime {
          limits := limits - {ip};
        }
        ips := ips - {ip};
      }
    }
  }

  function HandleLimit(limits: map<string, Limit>, e: Event, max: nat, windowMs: int): map<string, Limit> {
    match e
    case Request(ip, time) =>
      limits[ip := NextLimit(if ip in limits then Some(limits[ip]) else None, time, max, windowMs)]
    case Prune(time) => CleanedUp(limits, time)
  }

  function LimitDecisions(limits: map<string, Limit>, events: seq<Event>, max: nat, windowMs: int): seq<bool>
    decreases |events|
  {
    if events == [] then []
    else
      (if events[0].Request?
       then [Admits(if events[0].key in limits then Some(limits[events[0].key]) else None, events[0].time, max)]
         else [])
      + LimitDecisions(HandleLimit(limits, events[0], max, windowMs), events[1..], max, windowMs)
  }

  // A saturating counter with an inclusive end is a plain counter with a window one unit longer.
  ghost predicate Mirrors(limits: map<string, Limit>, records: map<string, Window>, max: nat) {
    limits.Keys == records.Keys && forall ip :: ip in limits ==>
      limits[ip].resetTime + 1 == records[ip].resetAt && records[ip].count >= 1
        && limits[ip].count == Min(records[ip].count, max)
  }

  // How many requests of an address are admitted in the half-open interval [from, to).
  function AdmittedWithin(limits: map<string, Limit>, events: seq<Event>, ip: string, from: int, to: int, max: nat,
                          windowMs: int): nat
    decreases |events|
  {
    if events == [] then 0
    else
      (if events[0].Request? && events[0].key == ip && from <= events[0].time < to
          && Admits(if ip in limits then Some(limits[ip]) else None, events[0].time, max) then 1 else 0)
      + AdmittedWithin(HandleLimit(limits, events[0], max, windowMs), events[1..], ip, from, to, max, windowMs)
  }

  // The subscription limits decide as the request limits do with windows one unit longer.
  lemma {:induction false} LimitsAreWindows(limits: map<string, Limit>, records: map<string, Window>,
                                            events: seq<Event>, ip: string, from: int, to: int, max: nat, windowMs: int)
    requires max >= 1 && Mirrors(limits, records, max)
    ensures LimitDecisions(limits, events, max, windowMs) == Decisions(records, events, max, windowMs + 1)
    ensures AdmittedWithin(limits, events, ip, from, to, max, windowMs) ==
            AllowedWithin(records, events, ip, from, to, max, windowMs + 1)
    decreases |events|
  {
    if events != [] {
      var limits' := HandleLimit(limits, events[0], max, windowMs);
      var records' := Handle(records, events[0], windowMs + 1);
      assert limits'.Keys == records'.Keys;
      LimitsAreWindows(limits', records', events[1..], ip, from, to, max, windowMs);
    }
  }

  // Main result: so even an interval of windowMs + 1 sees at most 2 * max - 1 admissions of an address, and cleaning
  // up changes no decision.
  lemma SubscriptionBound(events: seq<Event>, ip: string, from: int, max: nat, windowMs: int)
    requires Chronological(events) && max >= 1
    ensures AdmittedWithin(map[], events, ip, from, from + windowMs + 1, max, windowMs) <= 2 * max - 1
    ensures LimitDecisions(map[], events, max, windowMs) == LimitDecisions(map[], WithoutPrunes(events), max, windowMs)
  {
    LimitsAreWindows(map[], map[], events, ip, from, from + windowMs + 1, max, windowMs);
    LimitsAreWindows(map[], map[], WithoutPrunes(events), ip, from, from + windowMs + 1, max, windowMs);
    FewerThanTwiceTheLimit(events, ip, from, max, windowMs + 1);
    PruningIsInvisible(events, max, windowMs + 1);
  }
}
