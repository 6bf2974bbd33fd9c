/**
The two-tier response cache: a memory tier that keeps entries for a fixed day whatever their own
lifetime, over a table with an expiry per row. Reads try the memory tier first and refill it.
 */
module TieredKv {
  import opened Common

  type Value = seq<int>

  const DAY_MS := 24 * 3600 * 1000

  datatype Hot = Hot(value: Value, insertedAt: int)

  datatype Row = Row(value: Value, expiresAt: int)

  datatype Store = Store(l1: map<string, Hot>, l2: map<string, Row>)

  /** 64-bit two's complement. */
  function Wrap64(n: int): (r: I64)
    ensures I64_MIN <= n <= I64_MAX ==> r == n
  {
    var m := n % 0x1_0000_0000_0000_0000;
    if m > I64_MAX then m - 0x1_0000_0000_0000_0000 else m
  }

  function ExpiresAt(now: I64, ttl: nat): I64 {
    Wrap64(now + Min(ttl, I64_MAX))
  }

  predicate InL1(s: Store, key: string, now: int) {
    key in s.l1 && now < s.l1[key].insertedAt + DAY_MS
  }

  predicate InL2(s: Store, key: string, now: int) {
    key in s.l2 && now <= s.l2[key].expiresAt
  }

  // ---- Steps ----

  /** An expired row is dropped when it is met; a live one goes back into the memory tier. */
  function Read(s: Store, key: string, now: I64): (Store, Option<Value>) {
    if InL1(s, key, now) then (s, Some(s.l1[key].value))
    else if key !in s.l2 then (s, None)
    else if s.l2[key].expiresAt < now then (s.(l2 := s.l2 - {key}), None)
    else (s.(l1 := s.l1[key := Hot(s.l2[key].value, now)]), Some(s.l2[key].value))
  }

  function Write(s: Store, key: string, value: Value, ttl: nat, now: I64): Store {
    Store(s.l1[key := Hot(value, now)], s.l2[key := Row(value, ExpiresAt(now, ttl))])
  }

  function Remove(s: Store, key: string): Store {
    Store(s.l1 - {key}, s.l2 - {key})
  }

  class SqliteKvStore {
    var l1: map<string, Hot>
    var l2: map<string, Row>

    ghost function View(): Store
      reads this
    {
      Store(l1, l2)
    }

    constructor ()
      ensures View() == Store(map[], map[])
    {
      l1, l2 := map[], map[];
    }

    method Get(key: string, now: I64) returns (r: Option<Value>)
      modifies this
      ensures (View(), r) == Read(old(View()), key, now)
      ensures !InL1(old(View()), key, now) ==> (r.Some? <==> InL2(old(View()), key, now))
    {
      if key in l1 && now < l1[key].insertedAt + DAY_MS {
        return Some(l1[key].value);
      }
      if key !in l2 {
        return None;
      }
      var row := l2[key];
      if row.expiresAt < now {
        l2 := l2 - {key};
        return None;
      }
      l1 := l1[key := Hot(row.value, now)];
      return Some(row.value);
    }

    method Put(key: string, value: Value, ttl: nat, now: I64)
      modifies this
      ensures View() == Write(old(View()), key, value, ttl, now)
    {
      var expiresAt := Wrap64(now + Min(ttl, I64_MAX));
      l1 := l1[key := Hot(value, now)];
      l2 := l2[key := Row(value, expiresAt)];
    }

    method Delete(key: string)
      modifies this
      ensures View() == Remove(old(View()), key)
    {
      l1 := l1 - {key};
      l2 := l2 - {key};
    }

    /** One round of the evictor: some expired rows, at most 5000, go. */
    method EvictExpired(now: I64) returns (ghost gone: set<string>)
      modifies this
      ensures View() == old(View()).(l2 := old(l2) - gone)
      ensures |gone| <= 5000 && forall key :: key in gone ==> key in old(l2) && old(l2)[key].expiresAt < now
      ensures |gone| < 5000 ==> forall key :: key in l2 ==> l2[key].expiresAt >= now
    {
      ghost var before := l2;
      gone := {};
      var expired := set key | key in l2 && l2[key].expiresAt < now :: key;
      var n := 0;
      while n < 5000 && expired != {}
        invariant l1 == old(l1) && n <= 5000 && |gone| == n && expired !! gone
        invariant l2 == before - gone
        invariant forall key :: key in before && before[key].expiresAt < now <==> key in expired || key in gone
        decreases |expired|
      {
        var key :| key in expired;
        l2 := l2 - {key};
        expired := expired - {key};
        gone := gone + {key};
        n := n + 1;
      }
    }
  }

  // ---- Runs ----

  datatype Put = Put(value: Value, at: I64, ttl: nat)

  /** The store, the time, and for each key its latest put unless it was deleted since. */
  datatype World = World(store: Store, now: I64, latest: map<string, Put>)

  datatype Event =
    | DoClock(now: I64)
    | DoGet(key: string)
    | DoPut(key: string, value: Value, ttl: nat)
    | DoDelete(key: string)
    | DoEvictL1(key: string)
    | DoEvictL2(gone: set<string>)

  predicate Enabled(w: World, e: Event) {
    match e
    case DoClock(now) => now >= w.now
    case DoEvictL2(gone) => forall key :: key in gone ==> key in w.store.l2 && w.store.l2[key].expiresAt < w.now
    case _ => true
  }

  function Next(w: World, e: Event): World {
    match e
    case DoClock(now) => w.(now := now)
    case DoGet(key) => w.(store := Read(w.store, key, w.now).0)
    case DoPut(key, value, ttl) =>
      w.(store := Write(w.store, key, value, ttl, w.now), latest := w.latest[key := Put(value, w.now, ttl)])
    case DoDelete(key) => w.(store := Remove(w.store, key), latest := w.latest - {key})
    case DoEvictL1(key) => w.(store := w.store.(l1 := w.store.l1 - {key}))
    case DoEvictL2(gone) => w.(store := w.store.(l2 := w.store.l2 - gone))
  }

  ghost predicate IsRun(run: seq<World>, events: seq<Event>) {
    && |run| == |events| + 1
    && run[0].store == Store(map[], map[]) && run[0].latest == map[]
    && forall i :: 0 <= i < |events| ==> Enabled(run[i], events[i]) && run[i + 1] == Next(run[i], events[i])
  }

  /** When the table lets go of a put. */
  function Expiry(p: Put): I64 {
    ExpiresAt(p.at, p.ttl)
  }

  /** Put time plus lifetime, the lifetime clamped to 64 bits. */
  function EndOfLife(p: Put): int {
    p.at + Min(p.ttl, I64_MAX)
  }

  ghost predicate L1Agrees(w: World, key: string) {
    key in w.store.l1 ==>
      && key in w.latest && w.store.l1[key].value == w.latest[key].value
      && (w.store.l1[key].insertedAt == w.latest[key].at || w.store.l1[key].insertedAt <= Expiry(w.latest[key]))
  }

  ghost predicate L2Agrees(w: World, key: string) {
    && (key in w.store.l2 ==> key in w.latest && w.store.l2[key] == Row(w.latest[key].value, Expiry(w.latest[key])))
    && (key in w.latest && w.now <= Expiry(w.latest[key]) ==> key in w.store.l2)
  }

  lemma StepAgrees(w: World, e: Event, key: string)
    requires Enabled(w, e) && L1Agrees(w, key) && L2Agrees(w, key)
    ensures L1Agrees(Next(w, e), key) && L2Agrees(Next(w, e), key)
  {
  }

  lemma {:induction false} RunAgrees(run: seq<World>, events: seq<Event>, n: nat, key: string)
    requires IsRun(run, events) && n < |run|
    ensures L1Agrees(run[n], key) && L2Agrees(run[n], key)
  {
    if n > 0 {
      RunAgrees(run, events, n - 1, key);
      assert Enabled(run[n - 1], events[n - 1]) && run[n] == Next(run[n - 1], events[n - 1]);
      StepAgrees(run[n - 1], events[n - 1], key);
    }
  }

  /** In every run a read returns nothing or the value of the latest put that was not deleted since, never a day
      or more after that put's lifetime, and always while the lifetime lasts. */
  lemma ReadIsLatest(run: seq<World>, events: seq<Event>, n: nat, key: string)
    requires IsRun(run, events) && n < |run|
    ensures
      var w := run[n];
      var r := Read(w.store, key, w.now).1;
      && (r.Some? ==> key in w.latest && r == Some(w.latest[key].value))
      && (r.Some? ==> w.now < w.latest[key].at + w.latest[key].ttl + DAY_MS)
      && (key in w.latest && w.now <= EndOfLife(w.latest[key]) <= I64_MAX ==> r == Some(w.latest[key].value))
  {
    RunAgrees(run, events, n, key);
    if key in run[n].latest {
      ExpiryBound(run[n].latest[key]);
    }
  }

  /** The stored expiry is put time plus lifetime, except that a sum beyond 64 bits wraps into the past. */
  lemma ExpiryBound(p: Put)
    ensures Expiry(p) <= p.at + p.ttl
    ensures EndOfLife(p) <= I64_MAX ==> Expiry(p) == EndOfLife(p)
    ensures p.at >= 0 && EndOfLife(p) > I64_MAX ==> Expiry(p) < 0
  {
  }

  /** An entry whose end of life does not fit 64 bits is in the table only as an expired row: a read returns it
      exactly while the memory tier holds it. */
  lemma OverflowedLife(run: seq<World>, events: seq<Event>, n: nat, key: string)
    requires IsRun(run, events) && n < |run| && key in run[n].latest && run[n].now >= 0
    requires run[n].latest[key].at >= 0 && EndOfLife(run[n].latest[key]) > I64_MAX
    ensures
      var w := run[n];
      Read(w.store, key, w.now).1 == if InL1(w.store, key, w.now) then Some(w.latest[key].value) else None
  {
    RunAgrees(run, events, n, key);
    ExpiryBound(run[n].latest[key]);
  }

  /** Past its life a put is returned exactly while the memory tier holds it: for a day after the put or after its
      last refill, however short the life was. */
  lemma PastLife(run: seq<World>, events: seq<Event>, n: nat, key: string)
    requires IsRun(run, events) && n < |run| && key in run[n].latest && run[n].now > EndOfLife(run[n].latest[key])
    ensures
      var w := run[n];
      Read(w.store, key, w.now).1 == if InL1(w.store, key, w.now) then Some(w.latest[key].value) else None
  {
    RunAgrees(run, events, n, key);
    ExpiryBound(run[n].latest[key]);
  }

  /** Without an eviction that day starts at the put: a read a day less a millisecond later returns the value
      whatever its lifetime. */
  lemma ServedForADay(key: string, value: Value, ttl: nat, at: I64, later: I64)
    requires at <= later < at + 86_400_000
    ensures Read(Write(Store(map[], map[]), key, value, ttl, at), key, later).1 == Some(value)
  {
  }

  /** In every run, while `p` is the latest put of its key and alive, a read returns it. */
  ghost predicate Guaranteed(key: string, p: Put) {
    forall run: seq<World>, events: seq<Event>, n: nat :: IsRun(run, events) && n < |run| && IsAlive(run[n], key, p) ==>
      Read(run[n].store, key, run[n].now).1 == Some(p.value)
  }

  ghost predicate IsAlive(w: World, key: string, p: Put) {
    key in w.latest && w.latest[key] == p && w.now <= EndOfLife(p)
  }

  /** A put right before the memory tier drops its entry. */
  lemma LostAtOnce(key: string, p: Put) returns (run: seq<World>, events: seq<Event>)
    requires p.at >= 0 && EndOfLife(p) > I64_MAX
    ensures IsRun(run, events) && |run| == 3 && IsAlive(run[2], key, p)
    ensures Read(run[2].store, key, run[2].now).1 == None
  {
    var start := World(Store(map[], map[]), p.at, map[]);
    events := [DoPut(key, p.value, p.ttl), DoEvictL1(key)];
    var put := Next(start, events[0]);
    run := [start, put, Next(put, events[1])];
    ExpiryBound(p);
  }

  /** A put is sure to be readable for its whole life if and only if its end of life fits 64 bits. */
  lemma LifeGuaranteedExactly(key: string, p: Put)
    requires p.at >= 0
    ensures Guaranteed(key, p) <==> EndOfLife(p) <= I64_MAX
  {
    if EndOfLife(p) <= I64_MAX {
      forall run: seq<World>, events: seq<Event>, n: nat | IsRun(run, events) && n < |run| && IsAlive(run[n], key, p)
        ensures Read(run[n].store, key, run[n].now).1 == Some(p.value)
      {
        ReadIsLatest(run, events, n, key);
      }
    } else {
      var run, events := LostAtOnce(key, p);
      assert IsRun(run, events) && IsAlive(run[2], key, p);
    }
  }

  /** The bound is sharp: a read just before the lifetime ends puts the value back for one more day. */
  lemma StaleForADay(key: string, value: Value, ttl: nat, at: I64)
    requires 0 <= at && at + ttl + DAY_MS <= I64_MAX
    ensures
      var put := Write(Store(map[], map[]), key, value, ttl, at);
      var cooled := put.(l1 := put.l1 - {key});
      var refilled := Read(cooled, key, at + ttl).0;
      Read(refilled, key, at + ttl + DAY_MS - 1).1 == Some(value)
  {
  }
}
