/**
Admission control over the memory counter store: `check_limits`, `reconcile_tokens` and the
dropping of permits. One request is a small program whose every step makes at most one store
call; `World` interleaves the steps of arbitrarily many requests, with the clock read anew at
each call.
 */
module Admission {
  import opened Common
  import opened MemoryCounters

  const WINDOW_MS: nat := 60_000
  const DEFAULT_TOKEN_PREDEDUCT: int := 1024

  datatype LimitConfig = LimitConfig(
    kind: string, id: Option<string>, rpm: Option<nat>, tpm: Option<nat>, concurrency: Option<nat>)

  /** `count as u64` on a 64-bit count: a negative count becomes huge. */
  function AsU64(v: int): int {
    if v < 0 then v + 0x1_0000_0000_0000_0000 else v
  }

  function ScopeOf(limit: LimitConfig, keyId: string, projectId: string): Option<string> {
    var pattern := limit.id.UnwrapOr("*");
    if limit.kind == "key" then
      if pattern != "*" && pattern != keyId then None else Some("key:" + keyId)
    else if limit.kind == "project" then
      if pattern != "*" && pattern != projectId then None else Some("project:" + projectId)
    else if limit.kind == "global" then Some("global")
    else None
  }

  /** Two checks share a counter only within one kind of limit, and for keys and projects only for the same id:
      no choice of ids makes the counters of different callers or kinds collide. */
  lemma ScopesSeparate(a: LimitConfig, keyA: string, projectA: string, b: LimitConfig, keyB: string, projectB: string)
    requires ScopeOf(a, keyA, projectA).Some? && ScopeOf(b, keyB, projectB).Some?
    ensures ScopeOf(a, keyA, projectA) == ScopeOf(b, keyB, projectB) <==>
            a.kind == b.kind && (a.kind == "key" ==> keyA == keyB) && (a.kind == "project" ==> projectA == projectB)
  {
    var x, y := ScopeOf(a, keyA, projectA).value, ScopeOf(b, keyB, projectB).value;
    assert a.kind == "key" ==> x[0] == 'k' && x[4..] == keyA;
    assert a.kind == "project" ==> x[0] == 'p' && x[8..] == projectA;
    assert b.kind == "key" ==> y[0] == 'k' && y[4..] == keyB;
    assert b.kind == "project" ==> y[0] == 'p' && y[8..] == projectB;
    assert "global"[0] == 'g';
  }

  datatype Stage = AtRpm | AtTpm | AtConcurrency

  datatype Phase =
    | Checking(limit: nat, stage: Stage)
    | RollingBack(key: string)              // over the TPM cap, pre-deduction not yet given back
    | Admitted
    | Reconciling(next: nat, actual: int)
    | Dropping(admitted: bool)              // permits are being dropped, one release at a time
    | Done(admitted: bool)

  /** A TPM reservation; `settled` is the token count it was reconciled to. */
  datatype Reservation = Reservation(key: string, settled: Option<int>)

  datatype Request = Request(
    keyId: string, projectId: string, phase: Phase, permits: seq<string>, reservations: seq<Reservation>)

  function Arrive(keyId: string, projectId: string): Request {
    Request(keyId, projectId, Checking(0, AtRpm), [], [])
  }

  function RpmStep(limit: LimitConfig, scope: string, i: nat, q: Request, st: Store, now: nat): (Request, Store) {
    if limit.rpm.None? then (q.(phase := Checking(i, AtTpm)), st) else
    var st' := Incremented(st, "rpm:" + scope, WINDOW_MS, now, 1);
    var count := st'.Window(("rpm:" + scope, WINDOW_MS, Bucket(now, WINDOW_MS)));
    (q.(phase := if AsU64(count) > limit.rpm.value then Dropping(false) else Checking(i, AtTpm)), st')
  }

  function TpmStep(limit: LimitConfig, scope: string, i: nat, q: Request, st: Store, now: nat): (Request, Store) {
    if limit.tpm.None? then (q.(phase := Checking(i, AtConcurrency)), st) else
    var key := "tpm:" + scope;
    var st' := Incremented(st, key, WINDOW_MS, now, DEFAULT_TOKEN_PREDEDUCT);
    var count := st'.Window((key, WINDOW_MS, Bucket(now, WINDOW_MS)));
    if AsU64(count) > limit.tpm.value then (q.(phase := RollingBack(key)), st')
    else (q.(phase := Checking(i, AtConcurrency), reservations := q.reservations + [Reservation(key, None)]), st')
  }

  function ConcurrencyStep(limit: LimitConfig, scope: string, i: nat, q: Request, st: Store): (Request, Store) {
    if limit.concurrency.None? then (q.(phase := Checking(i + 1, AtRpm)), st) else
    var key := "conc:" + scope;
    var st' := Acquired(st, key, limit.concurrency.value);
    if CanAcquire(st, key, limit.concurrency.value) then
      (q.(phase := Checking(i + 1, AtRpm), permits := q.permits + [key]), st')
    else
      (q.(phase := Dropping(false)), st')
  }

  function DropStep(admitted: bool, q: Request, st: Store): (Request, Store) {
    if q.permits == [] then (q.(phase := Done(admitted)), st)
    else (q.(permits := q.permits[1..]), Released(st, q.permits[0]))
  }

  function ReconcileStep(next: nat, actual: int, q: Request, st: Store, now: nat): (Request, Store) {
    if next >= |q.reservations| then (q.(phase := Dropping(true)), st) else
    var r := q.reservations[next];
    var delta := actual - DEFAULT_TOKEN_PREDEDUCT;
    (q.(phase := Reconciling(next + 1, actual), reservations := q.reservations[next := r.(settled := Some(actual))]),
     if delta == 0 then st else Incremented(st, r.key, WINDOW_MS, now, delta))
  }

  /** One step of one request. An admitted request waits for its response. */
  function Step(limits: seq<LimitConfig>, q: Request, st: Store, now: nat): (Request, Store) {
    match q.phase
    case Checking(i, stage) =>
      if i >= |limits| then (q.(phase := Admitted), st) else
      (match ScopeOf(limits[i], q.keyId, q.projectId)
       case None => (q.(phase := Checking(i + 1, AtRpm)), st)
       case Some(scope) =>
         match stage
         case AtRpm => RpmStep(limits[i], scope, i, q, st, now)
         case AtTpm => TpmStep(limits[i], scope, i, q, st, now)
         case AtConcurrency => ConcurrencyStep(limits[i], scope, i, q, st))
    case RollingBack(key) =>
      (q.(phase := Dropping(false)), Incremented(st, key, WINDOW_MS, now, -DEFAULT_TOKEN_PREDEDUCT))
    case Reconciling(next, actual) => ReconcileStep(next, actual, q, st, now)
    case Dropping(admitted) => DropStep(admitted, q, st)
    case _ => (q, st)
  }

  // ---- The interleaving ----

  datatype RpmCheck = RpmCheck(key: string, at: nat, passed: bool)

  datatype World = World(store: Store, requests: seq<Request>, rpmLog: seq<RpmCheck>)

  datatype Event =
    | Advance(r: nat, now: nat)
    | Reconcile(r: nat, actual: int) // the response ended; `actual` tokens were used
    | Abandon(r: nat)                // the permit is dropped without reconciliation

  /** The RPM check a step is about to make, if any: its counter key and whether it passes. */
  function RpmCheckOf(limits: seq<LimitConfig>, q: Request, st: Store, now: nat): Option<RpmCheck> {
    if q.phase.Checking? && q.phase.stage == AtRpm && q.phase.limit < |limits| then
      var limit := limits[q.phase.limit];
      var scope := ScopeOf(limit, q.keyId, q.projectId);
      if scope.Some? && limit.rpm.Some? then
        Some(RpmCheck("rpm:" + scope.value, now, Step(limits, q, st, now).0.phase.Checking?))
      else None
    else None
  }

  function Next(limits: seq<LimitConfig>, w: World, e: Event): World {
    if e.r >= |w.requests| then w else
    var q := w.requests[e.r];
    match e
    case Advance(r, now) =>
      var (q', st') := Step(limits, q, w.store, now);
      var check := RpmCheckOf(limits, q, w.store, now);
      World(st', w.requests[r := q'], if check.Some? then w.rpmLog + [check.value] else w.rpmLog)
    case Reconcile(r, actual) =>
      if q.phase.Admitted? then w.(requests := w.requests[r := q.(phase := Reconciling(0, actual))]) else w
    case Abandon(r) =>
      if q.phase.Admitted? then w.(requests := w.requests[r := q.(phase := Dropping(true))]) else w
  }

  function Run(limits: seq<LimitConfig>, w: World, events: seq<Event>): World {
    if events == [] then w else Next(limits, Run(limits, w, events[..|events| - 1]), events[|events| - 1])
  }

  /** Any number of requests about to be checked, on an empty store. */
  ghost predicate Initial(w: World) {
    && w.store == EMPTY && w.rpmLog == []
    && forall i :: 0 <= i < |w.requests| ==>
         w.requests[i] == Arrive(w.requests[i].keyId, w.requests[i].projectId)
  }

  // ---- Concurrency slots ----

  function PermitsHeld(requests: seq<Request>, key: string): nat {
    if requests == [] then 0 else multiset(requests[0].permits)[key] + PermitsHeld(requests[1..], key)
  }

  lemma {:induction false} PermitsUpdate(requests: seq<Request>, i: nat, q: Request, key: string)
    requires i < |requests|
    ensures PermitsHeld(requests[i := q], key) + multiset(requests[i].permits)[key]
         == PermitsHeld(requests, key) + multiset(q.permits)[key]
  {
    if i == 0 {
      assert requests[0 := q][1..] == requests[1..];
    } else {
      PermitsUpdate(requests[1..], i - 1, q, key);
      assert requests[i := q][1..] == requests[1..][i - 1 := q];
    }
  }

  lemma {:induction false} NoPermits(requests: seq<Request>, key: string)
    requires forall i :: 0 <= i < |requests| ==> requests[i].permits == []
    ensures PermitsHeld(requests, key) == 0
  {
    if requests != [] {
      NoPermits(requests[1..], key);
    }
  }

  /** `cap` bounds every concurrency limit that can apply to the slot counter `key`. */
  ghost predicate SlotCap(limits: seq<LimitConfig>, key: string, cap: nat) {
    forall i, k, p :: 0 <= i < |limits| && ScopeOf(limits[i], k, p).Some? && limits[i].concurrency.Some?
                      && "conc:" + ScopeOf(limits[i], k, p).value == key
                      ==> limits[i].concurrency.value <= cap
  }

  ghost predicate SlotInvariant(w: World, key: string, cap: nat) {
    w.store.Slots(key) == PermitsHeld(w.requests, key) <= cap
  }

  lemma DropsFirst(permits: seq<string>)
    requires permits != []
    ensures multiset(permits) == multiset{permits[0]} + multiset(permits[1..])
  {
    assert permits == [permits[0]] + permits[1..];
  }

  /** The request and the slot counter after a step moved together, and the counter is within the cap. */
  ghost predicate MovesSlots(q: Request, st: Store, next: (Request, Store), key: string, cap: nat) {
    && next.1.Slots(key) + multiset(q.permits)[key] == st.Slots(key) + multiset(next.0.permits)[key]
    && next.1.Slots(key) <= cap
  }

  lemma ConcurrencyStepMovesSlots(
      limit: LimitConfig, scope: string, i: nat, q: Request, st: Store, key: string, cap: nat)
    requires limit.concurrency.Some? && "conc:" + scope == key ==> limit.concurrency.value <= cap
    requires st.Slots(key) <= cap
    ensures MovesSlots(q, st, ConcurrencyStep(limit, scope, i, q, st), key, cap)
  {
    var k := "conc:" + scope;
    assert multiset(q.permits + [k]) == multiset(q.permits) + multiset{k};
  }

  lemma DropStepMovesSlots(admitted: bool, q: Request, st: Store, key: string, cap: nat)
    requires multiset(q.permits)[key] <= st.Slots(key) <= cap
    ensures MovesSlots(q, st, DropStep(admitted, q, st), key, cap)
  {
    if q.permits != [] {
      DropsFirst(q.permits);
    }
  }

  lemma StepMovesSlots(limits: seq<LimitConfig>, q: Request, st: Store, now: nat, key: string, cap: nat)
    requires SlotCap(limits, key, cap)
    requires multiset(q.permits)[key] <= st.Slots(key) <= cap
    ensures MovesSlots(q, st, Step(limits, q, st, now), key, cap)
  {
    match q.phase {
      case Checking(i, stage) =>
        if i < |limits| && stage == AtConcurrency && ScopeOf(limits[i], q.keyId, q.projectId).Some? {
          ConcurrencyStepMovesSlots(limits[i], ScopeOf(limits[i], q.keyId, q.projectId).value, i, q, st, key, cap);
        }
      case Dropping(admitted) => DropStepMovesSlots(admitted, q, st, key, cap);
      case _ =>
    }
  }

  lemma {:induction false} PermitsPart(requests: seq<Request>, i: nat, key: string)
    requires i < |requests|
    ensures multiset(requests[i].permits)[key] <= PermitsHeld(requests, key)
  {
    if i > 0 {
      PermitsPart(requests[1..], i - 1, key);
    }
  }

  lemma SlotStep(limits: seq<LimitConfig>, w: World, e: Event, key: string, cap: nat)
    requires SlotCap(limits, key, cap) && SlotInvariant(w, key, cap)
    ensures SlotInvariant(Next(limits, w, e), key, cap)
  {
    if e.r < |w.requests| {
      var q := w.requests[e.r];
      PermitsPart(w.requests, e.r, key);
      if e.Advance? {
        StepMovesSlots(limits, q, w.store, e.now, key, cap);
      }
      PermitsUpdate(w.requests, e.r, Next(limits, w, e).requests[e.r], key);
    }
  }

  /**
  In every interleaved run the slot counter of a scope equals the permits its requests hold and never
  exceeds the cap, so a release never saturates; a request that finished, rejected or served, holds none.
   */
  lemma {:induction false} SlotSafety(limits: seq<LimitConfig>, w: World, events: seq<Event>, key: string, cap: nat)
    requires Initial(w) && SlotCap(limits, key, cap)
    ensures SlotInvariant(Run(limits, w, events), key, cap)
    decreases |events|
  {
    if events == [] {
      NoPermits(w.requests, key);
    } else {
      SlotSafety(limits, w, events[..|events| - 1], key, cap);
      SlotStep(limits, Run(limits, w, events[..|events| - 1]), events[|events| - 1], key, cap);
    }
  }

  ghost predicate Clean(q: Request) {
    q.phase.Done? ==> q.permits == []
  }

  lemma StepKeepsClean(limits: seq<LimitConfig>, q: Request, st: Store, now: nat)
    requires Clean(q)
    ensures Clean(Step(limits, q, st, now).0)
  {
    match q.phase {
      case Checking(i, stage) =>
      case _ =>
    }
  }

  lemma {:induction false} FinishedHoldNothing(limits: seq<LimitConfig>, w: World, events: seq<Event>, i: nat)
    requires Initial(w) && i < |w.requests|
    ensures
      var w' := Run(limits, w, events);
      |w'.requests| == |w.requests| && Clean(w'.requests[i])
    decreases |events|
  {
    if events != [] {
      var before := events[..|events| - 1];
      FinishedHoldNothing(limits, w, before, i);
      var mid, e := Run(limits, w, before), events[|events| - 1];
      if e.Advance? {
        StepKeepsClean(limits, mid.requests[i], mid.store, e.now);
      }
    }
  }

  /** When every request has been rejected or has finished, all slots of every scope are free again. */
  lemma AllSlotsReturned(limits: seq<LimitConfig>, w: World, events: seq<Event>, key: string, cap: nat)
    requires Initial(w) && SlotCap(limits, key, cap)
    requires
      var w' := Run(limits, w, events);
      forall i :: 0 <= i < |w'.requests| ==> w'.requests[i].phase.Done?
    ensures Run(limits, w, events).store.Slots(key) == 0
  {
    var w' := Run(limits, w, events);
    SlotSafety(limits, w, events, key, cap);
    if |w.requests| > 0 {
      FinishedHoldNothing(limits, w, events, 0);
      forall i | 0 <= i < |w.requests| ensures w'.requests[i].permits == [] {
        FinishedHoldNothing(limits, w, events, i);
      }
    } else {
      RequestCount(limits, w, events);
    }
    NoPermits(w'.requests, key);
  }

  lemma {:induction false} RequestCount(limits: seq<LimitConfig>, w: World, events: seq<Event>)
    ensures |Run(limits, w, events).requests| == |w.requests|
    decreases |events|
  {
    if events != [] {
      RequestCount(limits, w, events[..|events| - 1]);
    }
  }
}
