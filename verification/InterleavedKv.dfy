/**
Operations of the two-tier cache that overlap. A put or delete changes the memory tier first and the
table later, once it has the write lock; a read that misses the memory tier fetches the table row and
later puts what it fetched into the memory tier; a read that meets an expired row deletes the row of
its key later. Other steps fall in between freely.

A write is known by the position in the schedule at which it begins. What a reader should see is the
write of its key that began last.
 */
module InterleavedKv {
  import opened Common
  import TieredKv

  type Value = TieredKv.Value

  /** A written value and the event that began the write. */
  datatype Copy = Copy(value: Value, stamp: nat)

  datatype HotCopy = HotCopy(copy: Copy, insertedAt: int)

  datatype RowCopy = RowCopy(copy: Copy, expiresAt: int)

  /** A write whose table half is still to come: the row to store, or none to delete it. */
  datatype Pending = Pending(key: string, stamp: nat, row: Option<RowCopy>)

  datatype Fetch = Fetch(key: string, copy: Copy)

  datatype World = World(
    l1: map<string, HotCopy>, l2: map<string, RowCopy>, now: I64, steps: nat,
    pending: map<nat, Pending>,        // by writer
    fetches: map<nat, Fetch>,          // by reader: the table row is read, the refill to come
    met: map<nat, string>)             // by reader: the row was expired, its deletion to come

  datatype Event =
    | DoClock(now: I64)
    | BeginPut(writer: nat, key: string, value: Value, ttl: nat)
    | BeginDelete(writer: nat, key: string)
    | Land(writer: nat)
    | DoFetch(reader: nat, key: string)
    | DoRefill(reader: nat)
    | MeetExpired(reader: nat, key: string)
    | DropExpired(reader: nat)
    | DoEvictL1(key: string)
    | DoEvictL2(key: string)

  predicate Hot(w: World, key: string) {
    key in w.l1 && w.now < w.l1[key].insertedAt + TieredKv.DAY_MS
  }

  predicate Enabled(w: World, e: Event) {
    match e
    case DoClock(now) => now >= w.now
    case BeginPut(writer, _, _, _) => writer !in w.pending
    case BeginDelete(writer, _) => writer !in w.pending
    case Land(writer) => writer in w.pending
    case DoFetch(reader, key) => reader !in w.fetches && !Hot(w, key) && key in w.l2 && w.now <= w.l2[key].expiresAt
    case DoRefill(reader) => reader in w.fetches
    case MeetExpired(reader, key) => reader !in w.met && !Hot(w, key) && key in w.l2 && w.l2[key].expiresAt < w.now
    case DropExpired(reader) => reader in w.met
    case DoEvictL1(_) => true
    case DoEvictL2(key) => key in w.l2 && w.l2[key].expiresAt < w.now
  }

  function Effect(w: World, e: Event): World
    requires Enabled(w, e)
  {
    match e
    case DoClock(now) => w.(now := now)
    case BeginPut(writer, key, value, ttl) =>
      var copy := Copy(value, w.steps);
      var row := RowCopy(copy, TieredKv.ExpiresAt(w.now, ttl));
      w.(l1 := w.l1[key := HotCopy(copy, w.now)], pending := w.pending[writer := Pending(key, w.steps, Some(row))])
    case BeginDelete(writer, key) =>
      w.(l1 := w.l1 - {key}, pending := w.pending[writer := Pending(key, w.steps, None)])
    case Land(writer) =>
      var p := w.pending[writer];
      w.(l2 := if p.row.Some? then w.l2[p.key := p.row.value] else w.l2 - {p.key}, pending := w.pending - {writer})
    case DoFetch(reader, key) => w.(fetches := w.fetches[reader := Fetch(key, w.l2[key].copy)])
    case DoRefill(reader) =>
      var f := w.fetches[reader];
      w.(l1 := w.l1[f.key := HotCopy(f.copy, w.now)], fetches := w.fetches - {reader})
    case MeetExpired(reader, key) => w.(met := w.met[reader := key])
    case DropExpired(reader) => w.(l2 := w.l2 - {w.met[reader]}, met := w.met - {reader})
    case DoEvictL1(key) => w.(l1 := w.l1 - {key})
    case DoEvictL2(key) => w.(l2 := w.l2 - {key})
  }

  function Next(w: World, e: Event): World
    requires Enabled(w, e)
  {
    Effect(w, e).(steps := w.steps + 1)
  }

  function Start(now: I64): World {
    World(map[], map[], now, 0, map[], map[], map[])
  }

  ghost predicate IsStep(run: seq<World>, events: seq<Event>, i: nat)
    requires |run| == |events| + 1 && i < |events|
  {
    Enabled(run[i], events[i]) && run[i + 1] == Next(run[i], events[i])
  }

  ghost predicate IsRun(run: seq<World>, events: seq<Event>) {
    && |run| == |events| + 1
    && run[0] == Start(run[0].now)
    && forall i :: 0 <= i < |events| ==> IsStep(run, events, i)
  }

  // ---- Reading the schedule ----

  predicate Begins(e: Event, key: string) {
    (e.BeginPut? || e.BeginDelete?) && e.key == key
  }

  /** The write of `key` that began last among the first `n` events. */
  function LastBegun(events: seq<Event>, n: nat, key: string): (s: Option<nat>)
    requires n <= |events|
    ensures s.Some? ==> s.value < n && Begins(events[s.value], key)
  {
    if n == 0 then None
    else if Begins(events[n - 1], key) then Some(n - 1)
    else LastBegun(events, n - 1, key)
  }

  /** The write that `writer` began last. */
  function BeginOf(events: seq<Event>, n: nat, writer: nat): (s: Option<nat>)
    requires n <= |events|
    ensures s.Some? ==> s.value < n
  {
    if n == 0 then None
    else if (events[n - 1].BeginPut? || events[n - 1].BeginDelete?) && events[n - 1].writer == writer then Some(n - 1)
    else BeginOf(events, n - 1, writer)
  }

  /** The event lands the table half of a write of `key`. */
  predicate Lands(events: seq<Event>, i: nat, key: string)
    requires i < |events|
  {
    && events[i].Land? && BeginOf(events, i, events[i].writer).Some?
    && Begins(events[BeginOf(events, i, events[i].writer).value], key)
  }

  /** The write of `key` that landed last among the first `n` events. */
  function LastLanded(events: seq<Event>, n: nat, key: string): (s: Option<nat>)
    requires n <= |events|
    ensures s.Some? ==> s.value < n && Begins(events[s.value], key)
  {
    if n == 0 then None
    else if Lands(events, n - 1, key) then BeginOf(events, n - 1, events[n - 1].writer)
    else LastLanded(events, n - 1, key)
  }

  /** The fetch that a reader's refill belongs to. */
  function FetchOf(events: seq<Event>, n: nat, reader: nat): (j: Option<nat>)
    requires n <= |events|
    ensures j.Some? ==> j.value < n && events[j.value].DoFetch?
  {
    if n == 0 then None
    else if events[n - 1].DoFetch? && events[n - 1].reader == reader then Some(n - 1)
    else FetchOf(events, n - 1, reader)
  }

  /** The meeting with an expired row that a reader's deletion belongs to. */
  function MeetOf(events: seq<Event>, n: nat, reader: nat): (j: Option<nat>)
    requires n <= |events|
    ensures j.Some? ==> j.value < n && events[j.value].MeetExpired?
  {
    if n == 0 then None
    else if events[n - 1].MeetExpired? && events[n - 1].reader == reader then Some(n - 1)
    else MeetOf(events, n - 1, reader)
  }

  // ---- What the state knows about the schedule ----

  /** `copy` is what the put of `key` at its stamp wrote. */
  ghost predicate Authentic(events: seq<Event>, n: nat, key: string, copy: Copy) {
    && copy.stamp < n <= |events| && events[copy.stamp].BeginPut?
    && events[copy.stamp].key == key && events[copy.stamp].value == copy.value
  }

  /** When the table lets go of the put at `s`. */
  ghost function ExpiryAt(run: seq<World>, events: seq<Event>, s: nat): int
    requires s < |run| && s < |events| && events[s].BeginPut?
  {
    TieredKv.ExpiresAt(run[s].now, events[s].ttl)
  }

  ghost predicate RowOk(run: seq<World>, events: seq<Event>, n: nat, key: string, row: RowCopy) {
    && Authentic(events, n, key, row.copy) && n < |run|
    && row.expiresAt == ExpiryAt(run, events, row.copy.stamp)
  }

  ghost predicate PendingOk(run: seq<World>, events: seq<Event>, n: nat, writer: nat)
    requires n < |run| && n <= |events|
  {
    writer in run[n].pending ==>
      var p := run[n].pending[writer];
      && BeginOf(events, n, writer) == Some(p.stamp) && p.stamp < n && Begins(events[p.stamp], p.key)
      && (p.row.Some? <==> events[p.stamp].BeginPut?)
      && (p.row.Some? ==> p.row.value.copy.stamp == p.stamp && RowOk(run, events, n, p.key, p.row.value))
  }

  lemma {:induction false} StepsCount(run: seq<World>, events: seq<Event>, n: nat)
    requires IsRun(run, events) && n < |run|
    ensures run[n].steps == n
  {
    if n > 0 {
      StepsCount(run, events, n - 1);
      assert IsStep(run, events, n - 1);
    }
  }

  lemma {:induction false} PendingKnown(run: seq<World>, events: seq<Event>, n: nat, writer: nat)
    requires IsRun(run, events) && n < |run|
    ensures PendingOk(run, events, n, writer)
  {
    if n > 0 {
      PendingKnown(run, events, n - 1, writer);
      StepsCount(run, events, n - 1);
      assert IsStep(run, events, n - 1);
    }
  }

  /** The table holds the write of a key that landed last. */
  ghost predicate TableOk(run: seq<World>, events: seq<Event>, n: nat, key: string)
    requires n < |run| && n <= |events|
  {
    key in run[n].l2 ==>
      LastLanded(events, n, key) == Some(run[n].l2[key].copy.stamp) && RowOk(run, events, n, key, run[n].l2[key])
  }

  lemma {:induction false} TableIsLastLanded(run: seq<World>, events: seq<Event>, n: nat, key: string)
    requires IsRun(run, events) && n < |run|
    ensures TableOk(run, events, n, key)
  {
    if n > 0 {
      TableIsLastLanded(run, events, n - 1, key);
      assert IsStep(run, events, n - 1);
      if events[n - 1].Land? {
        PendingKnown(run, events, n - 1, events[n - 1].writer);
      }
    }
  }

  ghost predicate FetchOk(run: seq<World>, events: seq<Event>, n: nat, reader: nat)
    requires n < |run| && n <= |events|
  {
    reader in run[n].fetches ==>
      var f, j := run[n].fetches[reader], FetchOf(events, n, reader);
      && j.Some? && events[j.value].key == f.key
      && LastLanded(events, j.value, f.key) == Some(f.copy.stamp) && Authentic(events, n, f.key, f.copy)
  }

  lemma {:induction false} FetchKnown(run: seq<World>, events: seq<Event>, n: nat, reader: nat)
    requires IsRun(run, events) && n < |run|
    ensures FetchOk(run, events, n, reader)
  {
    if n > 0 {
      FetchKnown(run, events, n - 1, reader);
      assert IsStep(run, events, n - 1);
      if events[n - 1].DoFetch? {
        TableIsLastLanded(run, events, n - 1, events[n - 1].key);
      }
    }
  }

  // ---- Fresh reads ----

  /** What the memory tier holds under `key` is the write that began last, a put. */
  ghost predicate Fresh(events: seq<Event>, w: World, n: nat, key: string)
    requires n <= |events|
  {
    key in w.l1 ==> LastBegun(events, n, key) == Some(w.l1[key].copy.stamp) && Authentic(events, n, key, w.l1[key].copy)
  }

  /** If the `i`-th event is a refill: the last write of its key to land before its fetch is the last one to begin
      before the refill. */
  ghost predicate Prompt(events: seq<Event>, i: nat)
    requires i < |events|
  {
    events[i].DoRefill? ==>
      var j := FetchOf(events, i, events[i].reader);
      j.Some? ==> LastLanded(events, j.value, events[j.value].key) == LastBegun(events, i, events[j.value].key)
  }

  lemma {:induction false} FreshSoFar(run: seq<World>, events: seq<Event>, n: nat, key: string)
    requires IsRun(run, events) && n < |run|
    requires forall i :: 0 <= i < n ==> Prompt(events, i)
    ensures Fresh(events, run[n], n, key)
  {
    if n > 0 {
      FreshSoFar(run, events, n - 1, key);
      StepsCount(run, events, n - 1);
      assert IsStep(run, events, n - 1);
      if events[n - 1].DoRefill? {
        assert Prompt(events, n - 1);
        FetchKnown(run, events, n - 1, events[n - 1].reader);
      }
    }
  }

  /** A refill that is not prompt leaves an overtaken write in the memory tier. */
  lemma NotPromptIsStale(run: seq<World>, events: seq<Event>, i: nat) returns (key: string)
    requires IsRun(run, events) && i < |events| && !Prompt(events, i)
    ensures !Fresh(events, run[i + 1], i + 1, key)
  {
    assert IsStep(run, events, i);
    FetchKnown(run, events, i, events[i].reader);
    key := run[i].fetches[events[i].reader].key;
  }

  /** In a run the memory tier only ever holds the put of a key that began last, if and only if before every refill's
      fetch the last write of its key to land is the last one to begin before the refill. */
  lemma FreshExactly(run: seq<World>, events: seq<Event>)
    requires IsRun(run, events)
    ensures (forall n, key :: 0 <= n < |run| ==> Fresh(events, run[n], n, key)) <==>
            (forall i :: 0 <= i < |events| ==> Prompt(events, i))
  {
    if i :| 0 <= i < |events| && !Prompt(events, i) {
      var key := NotPromptIsStale(run, events, i);
      assert !Fresh(events, run[i + 1], i + 1, key);
    } else {
      forall n, key | 0 <= n < |run| ensures Fresh(events, run[n], n, key) { FreshSoFar(run, events, n, key); }
    }
  }

  // ---- Live rows ----

  /** The write of `key` that landed last is a put within its life. */
  ghost predicate LandedAlive(run: seq<World>, events: seq<Event>, n: nat, key: string)
    requires n < |run| && n <= |events|
  {
    var s := LastLanded(events, n, key);
    && s.Some? && events[s.value].BeginPut?
    && run[n].now <= ExpiryAt(run, events, s.value)
  }

  /** Such a row is in the table. */
  ghost predicate RowKept(run: seq<World>, events: seq<Event>, n: nat, key: string)
    requires n < |run| && n <= |events|
  {
    LandedAlive(run, events, n, key) ==> key in run[n].l2
  }

  /** If the `i`-th event deletes the row that a reader met expired: no other write of its key has landed since, or
      the last one to land is not alive. */
  ghost predicate HarmlessDrop(run: seq<World>, events: seq<Event>, i: nat)
    requires i < |events| && i < |run|
  {
    events[i].DropExpired? ==>
      var j := MeetOf(events, i, events[i].reader);
      j.Some? ==>
        var key := events[j.value].key;
        LastLanded(events, i, key) == LastLanded(events, j.value, key) || !LandedAlive(run, events, i, key)
  }

  ghost predicate MetOk(run: seq<World>, events: seq<Event>, n: nat, reader: nat)
    requires n < |run| && n <= |events|
  {
    reader in run[n].met ==>
      var j := MeetOf(events, n, reader);
      && j.Some? && events[j.value].key == run[n].met[reader] && run[j.value].now <= run[n].now
      && !LandedAlive(run, events, j.value, events[j.value].key)
  }

  lemma {:induction false} MetKnown(run: seq<World>, events: seq<Event>, n: nat, reader: nat)
    requires IsRun(run, events) && n < |run|
    ensures MetOk(run, events, n, reader)
  {
    if n > 0 {
      MetKnown(run, events, n - 1, reader);
      assert IsStep(run, events, n - 1);
      if events[n - 1].MeetExpired? {
        TableIsLastLanded(run, events, n - 1, events[n - 1].key);
      }
    }
  }

  lemma {:induction false} RowsKeptSoFar(run: seq<World>, events: seq<Event>, n: nat, key: string)
    requires IsRun(run, events) && n < |run|
    requires forall i :: 0 <= i < n ==> HarmlessDrop(run, events, i)
    ensures RowKept(run, events, n, key)
  {
    if n > 0 {
      RowsKeptSoFar(run, events, n - 1, key);
      assert IsStep(run, events, n - 1);
      TableIsLastLanded(run, events, n - 1, key);
      match events[n - 1]
      case Land(writer) => PendingKnown(run, events, n - 1, writer);
      case DropExpired(reader) =>
        assert HarmlessDrop(run, events, n - 1);
        MetKnown(run, events, n - 1, reader);
      case _ =>
    }
  }

  lemma HarmfulDropLoses(run: seq<World>, events: seq<Event>, i: nat) returns (key: string)
    requires IsRun(run, events) && i < |events| && !HarmlessDrop(run, events, i)
    ensures !RowKept(run, events, i + 1, key)
  {
    assert IsStep(run, events, i);
    MetKnown(run, events, i, events[i].reader);
    key := run[i].met[events[i].reader];
  }

  /** In a run a put that landed last stays in the table for its life, if and only if no read deletes the row of a
      live put that landed after the read met an expired one. */
  lemma RowsKeptExactly(run: seq<World>, events: seq<Event>)
    requires IsRun(run, events)
    ensures (forall n, key :: 0 <= n < |run| ==> RowKept(run, events, n, key)) <==>
            (forall i :: 0 <= i < |events| ==> HarmlessDrop(run, events, i))
  {
    if i :| 0 <= i < |events| && !HarmlessDrop(run, events, i) {
      var key := HarmfulDropLoses(run, events, i);
      assert !RowKept(run, events, i + 1, key);
    } else {
      forall n, key | 0 <= n < |run| ensures RowKept(run, events, n, key) { RowsKeptSoFar(run, events, n, key); }
    }
  }

  // ---- The failing runs ----

  lemma {:induction false} BegunAt(events: seq<Event>, k: nat, n: nat, key: string)
    requires k < n <= |events| && Begins(events[k], key)
    requires forall i :: k < i < n ==> !Begins(events[i], key)
    ensures LastBegun(events, n, key) == Some(k)
  {
    if k < n - 1 {
      BegunAt(events, k, n - 1, key);
    }
  }

  lemma {:induction false} BegunBy(events: seq<Event>, k: nat, n: nat, writer: nat)
    requires k < n <= |events| && (events[k].BeginPut? || events[k].BeginDelete?) && events[k].writer == writer
    requires forall i :: k < i < n ==> !events[i].BeginPut? && !events[i].BeginDelete?
    ensures BeginOf(events, n, writer) == Some(k)
  {
    if k < n - 1 {
      BegunBy(events, k, n - 1, writer);
    }
  }

  /** The write begun at `k` lands at `m` and no other lands until `n`. */
  lemma {:induction false} LandedAt(events: seq<Event>, k: nat, m: nat, n: nat, key: string)
    requires k < m < n <= |events| && Begins(events[k], key)
    requires events[m].Land? && BeginOf(events, m, events[m].writer) == Some(k)
    requires forall i :: m < i < n ==> !events[i].Land?
    ensures LastLanded(events, n, key) == Some(k)
  {
    if m < n - 1 {
      LandedAt(events, k, m, n - 1, key);
    }
  }

  /** A read served by the memory tier. */
  function HotRead(w: World, key: string): Option<Value> {
    if Hot(w, key) then Some(w.l1[key].copy.value) else None
  }

  /** The worlds a schedule goes through. */
  ghost predicate Follows(run: seq<World>, events: seq<Event>, at: I64) {
    IsRun(run, events) && run[0] == Start(at)
  }

  lemma Extend(run: seq<World>, events: seq<Event>, at: I64, e: Event) returns (run': seq<World>, events': seq<Event>)
    requires Follows(run, events, at) && Enabled(run[|events|], e)
    ensures events' == events + [e] && run' == run + [Next(run[|events|], e)] && Follows(run', events', at)
  {
    events', run' := events + [e], run + [Next(run[|events|], e)];
    forall i | 0 <= i < |events'| ensures IsStep(run', events', i) {
      assert i < |events| ==> IsStep(run, events, i);
    }
  }

  /** A value is put and has left the memory tier again. */
  lemma PutAndCooled(key: string, value: Value, ttl: nat, at: I64) returns (run: seq<World>, events: seq<Event>)
    requires 0 <= at && at + ttl <= I64_MAX
    ensures events == [BeginPut(0, key, value, ttl), Land(0), DoEvictL1(key)] && Follows(run, events, at)
    ensures run[3] == Start(at).(l2 := map[key := RowCopy(Copy(value, 0), at + ttl)], steps := 3)
  {
    run, events := [Start(at)], [];
    run, events := Extend(run, events, at, BeginPut(0, key, value, ttl));
    run, events := Extend(run, events, at, Land(0));
    run, events := Extend(run, events, at, DoEvictL1(key));
  }

  function StaleSchedule(key: string, value: Value, ttl: nat, write: Event, later: I64): seq<Event> {
    [BeginPut(0, key, value, ttl), Land(0), DoEvictL1(key), DoFetch(0, key), write, DoRefill(0), DoClock(later)]
  }

  /** A reader fetches a value, a put or delete of the key begins, the reader refills: for almost a day reads return
      the old value. */
  lemma StaleAfterRefill(key: string, value: Value, ttl: nat, write: Event, at: I64, later: I64)
    returns (run: seq<World>, events: seq<Event>)
    requires 0 <= at && at + ttl <= I64_MAX && at <= later < at + TieredKv.DAY_MS && Begins(write, key)
    ensures events == StaleSchedule(key, value, ttl, write, later) && Follows(run, events, at)
    ensures LastBegun(events, 7, key) == Some(4) && HotRead(run[7], key) == Some(value)
  {
    run, events := PutAndCooled(key, value, ttl, at);
    run, events := Extend(run, events, at, DoFetch(0, key));
    run, events := Extend(run, events, at, write);
    run, events := Extend(run, events, at, DoRefill(0));
    run, events := Extend(run, events, at, DoClock(later));
    assert events == StaleSchedule(key, value, ttl, write, later);
    BegunAt(events, 4, 7, key);
  }

  function CrossedSchedule(key: string, value: Value, ttl: nat, value': Value, ttl': nat, later: I64): seq<Event> {
    [BeginPut(0, key, value, ttl), Land(0), DoEvictL1(key), BeginPut(1, key, value', ttl'), DoEvictL1(key),
     DoFetch(0, key), DoRefill(0), Land(1), DoClock(later)]
  }

  lemma CrossedWrites(key: string, value: Value, ttl: nat, value': Value, ttl': nat, later: I64)
    ensures
      var events := CrossedSchedule(key, value, ttl, value', ttl', later);
      LastBegun(events, 9, key) == Some(3) && LastLanded(events, 9, key) == Some(3)
  {
    var events := CrossedSchedule(key, value, ttl, value', ttl', later);
    BegunAt(events, 3, 9, key);
    BegunBy(events, 3, 7, 1);
    LandedAt(events, 3, 7, 9, key);
  }

  lemma CrossedStart(key: string, value: Value, ttl: nat, value': Value, ttl': nat, at: I64)
    returns (run: seq<World>, events: seq<Event>)
    requires 0 <= at && at + ttl <= I64_MAX
    ensures events ==
            [BeginPut(0, key, value, ttl), Land(0), DoEvictL1(key), BeginPut(1, key, value', ttl'), DoEvictL1(key)]
    ensures Follows(run, events, at) && run[5].l1 == map[] && run[5].now == at && run[5].fetches == map[]
    ensures run[5].l2 == map[key := RowCopy(Copy(value, 0), at + ttl)] && 1 in run[5].pending
  {
    run, events := PutAndCooled(key, value, ttl, at);
    run, events := Extend(run, events, at, BeginPut(1, key, value', ttl'));
    run, events := Extend(run, events, at, DoEvictL1(key));
  }

  /** The same without any write between fetch and refill: a second put has done its memory half and left the memory
      tier, and its row is still to come, while a whole read takes place. */
  lemma StaleBeforeRow(key: string, value: Value, ttl: nat, value': Value, ttl': nat, at: I64, later: I64)
    returns (run: seq<World>, events: seq<Event>)
    requires 0 <= at && at + ttl <= I64_MAX && at <= later < at + TieredKv.DAY_MS
    ensures events == CrossedSchedule(key, value, ttl, value', ttl', later) && Follows(run, events, at)
    ensures HotRead(run[9], key) == Some(value)
    ensures LastBegun(events, 9, key) == Some(3) && LastLanded(events, 9, key) == Some(3)
  {
    run, events := CrossedStart(key, value, ttl, value', ttl', at);
    run, events := Extend(run, events, at, DoFetch(0, key));
    run, events := Extend(run, events, at, DoRefill(0));
    run, events := Extend(run, events, at, Land(1));
    run, events := Extend(run, events, at, DoClock(later));
    assert events == CrossedSchedule(key, value, ttl, value', ttl', later);
    CrossedWrites(key, value, ttl, value', ttl', later);
  }

  function LosingSchedule(key: string, stale: Value, value: Value, ttl: nat, later: I64): seq<Event> {
    [BeginPut(0, key, stale, 0), Land(0), DoEvictL1(key), DoClock(later), MeetExpired(0, key),
     BeginPut(1, key, value, ttl), Land(1), DropExpired(0), DoEvictL1(key)]
  }

  lemma LosingWrites(key: string, stale: Value, value: Value, ttl: nat, later: I64)
    ensures
      var events := LosingSchedule(key, stale, value, ttl, later);
      LastBegun(events, 9, key) == Some(5) && LastLanded(events, 9, key) == Some(5)
  {
    var events := LosingSchedule(key, stale, value, ttl, later);
    BegunAt(events, 5, 9, key);
    BegunBy(events, 5, 6, 1);
    LandedAt(events, 5, 6, 9, key);
  }

  lemma LosingStart(key: string, stale: Value, at: I64, later: I64) returns (run: seq<World>, events: seq<Event>)
    requires 0 <= at < later
    ensures events == [BeginPut(0, key, stale, 0), Land(0), DoEvictL1(key), DoClock(later), MeetExpired(0, key)]
    ensures Follows(run, events, at) && run[5].l1 == map[] && run[5].now == later
    ensures run[5].met == map[0 := key] && run[5].pending == map[]
  {
    run, events := PutAndCooled(key, stale, 0, at);
    run, events := Extend(run, events, at, DoClock(later));
    run, events := Extend(run, events, at, MeetExpired(0, key));
  }

  /** A read meets an expired row, a new put of the key completes, the read deletes the new row: once the memory tier
      lets go of it, a put within its life is in neither tier. */
  lemma LostToExpiredRead(key: string, stale: Value, value: Value, ttl: nat, at: I64, later: I64)
    returns (run: seq<World>, events: seq<Event>)
    requires 0 <= at < later && later + ttl <= I64_MAX
    ensures events == LosingSchedule(key, stale, value, ttl, later) && Follows(run, events, at)
    ensures LastBegun(events, 9, key) == Some(5) && LandedAlive(run, events, 9, key)
    ensures key !in run[9].l1 && key !in run[9].l2
  {
    run, events := LosingStart(key, stale, at, later);
    run, events := Extend(run, events, at, BeginPut(1, key, value, ttl));
    run, events := Extend(run, events, at, Land(1));
    run, events := Extend(run, events, at, DropExpired(0));
    run, events := Extend(run, events, at, DoEvictL1(key));
    assert events == LosingSchedule(key, stale, value, ttl, later);
    LosingWrites(key, stale, value, ttl, later);
    assert run[5].now == later == run[9].now;
  }

  /** The memory tier serves an entry for the 24 hours after it was put there, as in the serial model. */
  lemma HotForADay(w: World, key: string)
    requires key in w.l1
    ensures Hot(w, key) <==> w.now - w.l1[key].insertedAt < 86_400_000
    ensures
      var hot := TieredKv.Hot(w.l1[key].copy.value, w.l1[key].insertedAt);
      Hot(w, key) <==> TieredKv.InL1(TieredKv.Store(map[key := hot], map[]), key, w.now)
  {
  }
}
