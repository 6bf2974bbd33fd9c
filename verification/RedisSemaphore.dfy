/**
The Redis-backed concurrency counter. A call to `try_acquire_concurrency` is not atomic:
it INCRs the shared key, compares the returned value, and DECRs again when it was over the
cap; a dropped permit DECRs later from a spawned task. Every Redis command is one atomic
step here, and the steps of many calls interleave freely.

A *slot* is one of the `n` places in which a call can be in progress; a slot that finished
a call can start the next one, so runs are unbounded while at most `n` calls overlap.
 */
module RedisSemaphore {
  import MemoryCounters

  const U32_RANGE: nat := 0x1_0000_0000

  /** `v as u32`: the low 32 bits. */
  function AsU32(v: int): int {
    v % U32_RANGE
  }

  datatype Phase =
    | Idle
    | Counted(seen: int) // INCR returned `seen`, comparison still to come
    | RollingBack        // denied, rollback DECR still to come
    | Holding            // permit handed out
    | Releasing          // permit dropped, release DECR still to come

  datatype State = State(counter: int, calls: seq<Phase>)

  datatype Event =
    | Incr(i: nat)
    | Decide(i: nat)
    | RollBack(i: nat)
    | DropPermit(i: nat)
    | Release(i: nat)

  ghost predicate Enabled(s: State, e: Event) {
    && e.i < |s.calls|
    && match e
       case Incr(i) => s.calls[i].Idle?
       case Decide(i) => s.calls[i].Counted?
       case RollBack(i) => s.calls[i].RollingBack?
       case DropPermit(i) => s.calls[i].Holding?
       case Release(i) => s.calls[i].Releasing?
  }

  function Next(max: nat, s: State, e: Event): State
    requires e.i < |s.calls|
  {
    match e
    case Incr(i) => State(s.counter + 1, s.calls[i := Counted(s.counter + 1)])
    case Decide(i) =>
      var denied := s.calls[i].Counted? && AsU32(s.calls[i].seen) > max;
      s.(calls := s.calls[i := if denied then RollingBack else Holding])
    case RollBack(i) => State(s.counter - 1, s.calls[i := Idle])
    case DropPermit(i) => s.(calls := s.calls[i := Releasing])
    case Release(i) => State(s.counter - 1, s.calls[i := Idle])
  }

  function Init(n: nat): State {
    State(0, seq(n, _ => Idle))
  }

  ghost predicate Legal(max: nat, s: State, events: seq<Event>)
    decreases |events|
  {
    events == [] || (Enabled(s, events[0]) && Legal(max, Next(max, s, events[0]), events[1..]))
  }

  ghost function Exec(max: nat, s: State, events: seq<Event>): State
    requires Legal(max, s, events)
    decreases |events|
  {
    if events == [] then s else Exec(max, Next(max, s, events[0]), events[1..])
  }

  /** The shared key and the client calls on it, as one client runs them. */
  class RedisKey {
    var value: int

    constructor ()
      ensures value == 0
    {
      value := 0;
    }

    method Add(delta: int) returns (v: int)
      modifies this
      ensures v == value == old(value) + delta
    {
      value := value + delta;
      v := value;
    }

    /** Undisturbed, a call is the steps of one slot: INCR, comparison, and the rollback when denied. */
    method TryAcquireConcurrency(max: nat) returns (granted: bool)
      modifies this
      ensures granted <==> AsU32(old(value) + 1) <= max
      ensures
        var decided := Next(max, Next(max, State(old(value), [Idle]), Incr(0)), Decide(0));
        if granted then State(value, [Holding]) == decided
        else State(value, [Idle]) == Next(max, decided, RollBack(0))
      ensures value == if granted then old(value) + 1 else old(value)
    {
      var v := Add(1);
      if AsU32(v) > max {
        var _ := Add(-1);
        return false;
      }
      granted := true;
    }

    /** What a dropped permit's task does. */
    method ReleasePermit()
      modifies this
      ensures State(value, [Idle]) == Next(0, State(old(value), [Releasing]), Release(0))
    {
      var _ := Add(-1);
    }
  }

  /** The classes of calls the theorems count. */
  datatype Kind = Busy | Granted | Held | Undecided | Denied | Unreleased

  predicate Is(max: nat, kind: Kind, p: Phase) {
    match kind
    case Busy => !p.Idle?
    case Granted => p.Holding? || (p.Counted? && AsU32(p.seen) <= max)
    case Held => p.Holding?
    case Undecided => p.Counted?
    case Denied => p.RollingBack?
    case Unreleased => p.Releasing?
  }

  function Tally(max: nat, kind: Kind, calls: seq<Phase>): nat {
    if calls == [] then 0
    else (if Is(max, kind, calls[0]) then 1 else 0) + Tally(max, kind, calls[1..])
  }

  lemma {:induction false} TallyUpdate(max: nat, kind: Kind, calls: seq<Phase>, i: nat, p: Phase)
    requires i < |calls|
    ensures Tally(max, kind, calls[i := p]) + (if Is(max, kind, calls[i]) then 1 else 0)
         == Tally(max, kind, calls) + (if Is(max, kind, p) then 1 else 0)
  {
    if i == 0 {
      assert calls[0 := p][1..] == calls[1..];
    } else {
      TallyUpdate(max, kind, calls[1..], i - 1, p);
      assert calls[i := p][1..] == calls[1..][i - 1 := p];
    }
  }

  lemma {:induction false} TallyFacts(max: nat, calls: seq<Phase>)
    ensures Tally(max, Held, calls) <= Tally(max, Granted, calls) <= Tally(max, Busy, calls) <= |calls|
    ensures Tally(max, Busy, calls) == Tally(max, Held, calls) + Tally(max, Undecided, calls)
                                     + Tally(max, Denied, calls) + Tally(max, Unreleased, calls)
  {
    if calls != [] {
      TallyFacts(max, calls[1..]);
    }
  }

  lemma {:induction false} TallyNone(max: nat, kind: Kind, calls: seq<Phase>)
    requires forall i :: 0 <= i < |calls| ==> !Is(max, kind, calls[i])
    ensures Tally(max, kind, calls) == 0
  {
    if calls != [] {
      TallyNone(max, kind, calls[1..]);
    }
  }

  ghost predicate Invariant(max: nat, s: State) {
    && s.counter == Tally(max, Busy, s.calls)
    && Tally(max, Granted, s.calls) <= max
  }

  lemma InitInvariant(max: nat, n: nat)
    ensures Invariant(max, Init(n))
  {
    TallyNone(max, Busy, Init(n).calls);
    TallyNone(max, Granted, Init(n).calls);
  }

  lemma StepKeepsInvariant(max: nat, s: State, e: Event)
    requires Invariant(max, s) && Enabled(s, e) && |s.calls| < U32_RANGE
    ensures Invariant(max, Next(max, s, e))
  {
    var s' := Next(max, s, e);
    TallyUpdate(max, Busy, s.calls, e.i, s'.calls[e.i]);
    TallyUpdate(max, Granted, s.calls, e.i, s'.calls[e.i]);
    TallyFacts(max, s'.calls);
  }

  /** The memory store's slot counter as a one-field semaphore, which the Redis protocol is compared with. */
  datatype Action = Grant | Deny | Return | Stutter

  ghost predicate SemaphoreStep(max: nat, held: nat, a: Action, held': nat) {
    var st := MemoryCounters.Store(map[], map["k" := held]);
    match a
    case Grant => MemoryCounters.CanAcquire(st, "k", max)
                  && held' == MemoryCounters.Acquired(st, "k", max).Slots("k")
    case Deny => held' == held // also allowed below the cap: a spurious rejection
    case Return => held > 0 && held' == MemoryCounters.Released(st, "k").Slots("k")
    case Stutter => held' == held
  }

  /** The call's fate is sealed by its INCR: it will be granted exactly when that value passes the comparison. */
  function ActionOf(max: nat, s: State, e: Event): Action {
    match e
    case Incr(_) => if AsU32(s.counter + 1) <= max then Grant else Deny
    case DropPermit(_) => Return
    case _ => Stutter
  }

  ghost function Abstract(max: nat, s: State): nat {
    Tally(max, Granted, s.calls)
  }

  /** Every protocol step is a step of the memory semaphore: a grant is one it would make too. */
  lemma StepRefinesSemaphore(max: nat, s: State, e: Event)
    requires Invariant(max, s) && Enabled(s, e) && |s.calls| < U32_RANGE
    ensures SemaphoreStep(max, Abstract(max, s), ActionOf(max, s, e), Abstract(max, Next(max, s, e)))
  {
    var s' := Next(max, s, e);
    StepKeepsInvariant(max, s, e);
    TallyUpdate(max, Granted, s.calls, e.i, s'.calls[e.i]);
    if e.Incr? {
      TallyUpdate(max, Busy, s.calls, e.i, s'.calls[e.i]);
      TallyFacts(max, s'.calls);
    }
  }

  /** A denial is one the memory store would make too, unless something is counted that holds no permit. */
  lemma DenialIsGenuine(max: nat, s: State, i: nat)
    requires Invariant(max, s) && Enabled(s, Incr(i)) && |s.calls| < U32_RANGE
    requires Tally(max, Busy, s.calls) == Tally(max, Held, s.calls)
    ensures ActionOf(max, s, Incr(i)) == Deny <==> Tally(max, Held, s.calls) >= max
  {
    TallyUpdate(max, Busy, s.calls, i, Counted(s.counter + 1));
    TallyFacts(max, s.calls[i := Counted(s.counter + 1)]);
  }

  ghost predicate SemaphoreRun(max: nat, held: nat, actions: seq<Action>, held': nat)
    decreases |actions|
  {
    if actions == [] then held == held'
    else exists mid: nat :: SemaphoreStep(max, held, actions[0], mid) && SemaphoreRun(max, mid, actions[1..], held')
  }

  ghost function Actions(max: nat, s: State, events: seq<Event>): seq<Action>
    requires Legal(max, s, events)
    decreases |events|
  {
    if events == [] then [] else [ActionOf(max, s, events[0])] + Actions(max, Next(max, s, events[0]), events[1..])
  }

  lemma {:induction false} RunFrom(max: nat, s: State, events: seq<Event>)
    requires Invariant(max, s) && |s.calls| < U32_RANGE && Legal(max, s, events)
    ensures Invariant(max, Exec(max, s, events))
    ensures SemaphoreRun(max, Abstract(max, s), Actions(max, s, events), Abstract(max, Exec(max, s, events)))
    ensures |Exec(max, s, events).calls| == |s.calls|
    decreases |events|
  {
    if events != [] {
      var s' := Next(max, s, events[0]);
      StepKeepsInvariant(max, s, events[0]);
      StepRefinesSemaphore(max, s, events[0]);
      RunFrom(max, s', events[1..]);
      var acts := Actions(max, s, events);
      assert acts[1..] == Actions(max, s', events[1..]);
      assert SemaphoreStep(max, Abstract(max, s), acts[0], Abstract(max, s'));
    }
  }

  /**
  Over every interleaving of fewer than 2^32 overlapping calls: the key counts exactly the permits out,
  the undecided calls, the rejections not yet rolled back and the releases not yet applied; never more
  than `max` permits are out; the whole run is a run of the memory semaphore with spurious denials; and
  when nothing is in progress the key is back to zero.
   */
  lemma ProtocolSafety(max: nat, n: nat, events: seq<Event>)
    requires n < U32_RANGE && Legal(max, Init(n), events)
    ensures
      var s := Exec(max, Init(n), events);
      && s.counter == Tally(max, Held, s.calls) + Tally(max, Undecided, s.calls)
                    + Tally(max, Denied, s.calls) + Tally(max, Unreleased, s.calls)
      && Tally(max, Held, s.calls) <= max
      && SemaphoreRun(max, 0, Actions(max, Init(n), events), Abstract(max, s))
      && ((forall i :: 0 <= i < |s.calls| ==> s.calls[i].Idle?) ==> s.counter == 0)
  {
    InitInvariant(max, n);
    TallyNone(max, Granted, Init(n).calls);
    RunFrom(max, Init(n), events);
    var s := Exec(max, Init(n), events);
    TallyFacts(max, s.calls);
    if forall i :: 0 <= i < |s.calls| ==> s.calls[i].Idle? {
      TallyNone(max, Busy, s.calls);
    }
  }

  // ---- The 32-bit comparison: with 2^32 overlapping calls the cap is lost ----

  lemma {:induction false} ExecAppend(max: nat, s: State, events: seq<Event>, e: Event)
    requires Legal(max, s, events) && Enabled(Exec(max, s, events), e)
    ensures Legal(max, s, events + [e])
    ensures Exec(max, s, events + [e]) == Next(max, Exec(max, s, events), e)
    decreases |events|
  {
    if events == [] {
      assert events + [e] == [e];
    } else {
      ExecAppend(max, Next(max, s, events[0]), events[1..], e);
      assert (events + [e])[1..] == events[1..] + [e];
    }
  }

  /** The first `h` slots hold permits, slots up to `k` have counted in order, the others are idle. */
  ghost function Flooded(n: nat, h: nat, k: nat): State {
    State(k, seq(n, i => if i < h then Holding else if i < k then Counted(i + 1) else Idle))
  }

  lemma {:induction false} FloodCount(max: nat, n: nat, k: nat) returns (events: seq<Event>)
    requires k <= n
    ensures Legal(max, Init(n), events) && Exec(max, Init(n), events) == Flooded(n, 0, k)
  {
    if k == 0 {
      events := [];
      assert Init(n).calls == Flooded(n, 0, 0).calls;
    } else {
      var prefix := FloodCount(max, n, k - 1);
      ExecAppend(max, Init(n), prefix, Incr(k - 1));
      events := prefix + [Incr(k - 1)];
      assert Next(max, Flooded(n, 0, k - 1), Incr(k - 1)).calls == Flooded(n, 0, k).calls;
    }
  }

  lemma {:induction false} FloodGrant(max: nat, n: nat, h: nat, k: nat) returns (events: seq<Event>)
    requires h <= k <= n && h <= max < U32_RANGE
    ensures Legal(max, Init(n), events) && Exec(max, Init(n), events) == Flooded(n, h, k)
  {
    if h == 0 {
      events := FloodCount(max, n, k);
    } else {
      var prefix := FloodGrant(max, n, h - 1, k);
      ExecAppend(max, Init(n), prefix, Decide(h - 1));
      events := prefix + [Decide(h - 1)];
      assert Next(max, Flooded(n, h - 1, k), Decide(h - 1)).calls == Flooded(n, h, k).calls;
    }
  }

  lemma {:induction false} TallyFlooded(max: nat, calls: seq<Phase>, h: nat)
    requires h <= |calls|
    requires forall i :: 0 <= i < |calls| ==> (calls[i].Holding? <==> i < h)
    ensures Tally(max, Held, calls) == h
  {
    if calls != [] {
      TallyFlooded(max, calls[1..], if h == 0 then 0 else h - 1);
    }
  }

  lemma WrapAround(max: nat, n: nat) returns (events: seq<Event>)
    requires max < U32_RANGE <= n
    ensures Legal(max, Init(n), events)
    ensures Tally(max, Held, Exec(max, Init(n), events).calls) == max + 1
  {
    var last := U32_RANGE - 1;
    var prefix := FloodGrant(max, n, max, U32_RANGE);
    var s := Flooded(n, max, U32_RANGE);
    ExecAppend(max, Init(n), prefix, Decide(last));
    TallyFlooded(max, s.calls, max);
    TallyUpdate(max, Held, s.calls, last, Holding);
    events := prefix + [Decide(last)];
  }

  /** For every 32-bit cap: the cap holds in all runs exactly when fewer than 2^32 calls can overlap. */
  lemma CapHoldsExactly(max: nat, n: nat)
    requires max < U32_RANGE
    ensures (forall events :: Legal(max, Init(n), events) ==>
               Tally(max, Held, Exec(max, Init(n), events).calls) <= max)
            <==> n < U32_RANGE
  {
    if n < U32_RANGE {
      forall events | Legal(max, Init(n), events)
        ensures Tally(max, Held, Exec(max, Init(n), events).calls) <= max
      {
        ProtocolSafety(max, n, events);
      }
    } else {
      var _ := WrapAround(max, n);
    }
  }
}
