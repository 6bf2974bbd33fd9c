/**
`check_limits` and `reconcile_tokens` as the code runs them: loops over limits and reservations
that update the shared store. Each is proved to be the uninterrupted run of one request of the
interleaved model, so the theorems about all interleavings speak about this code.
 */
module CheckLimits {
  import opened Common
  import opened MemoryCounters
  import opened Admission

  datatype RatePermit = RatePermit(permits: seq<ConcurrencyPermit>, tpmReservations: seq<string>)

  /** The slots that permits stand for. */
  function KeysOf(permits: seq<ConcurrencyPermit>): (keys: seq<string>)
    ensures |keys| == |permits|
    ensures forall i :: 0 <= i < |permits| ==> keys[i] == permits[i].key
  {
    seq(|permits|, i requires 0 <= i < |permits| => permits[i].key)
  }

  /** Different permits of one store, none of them dropped yet. */
  ghost predicate Held(store: MemoryCounterStore, permits: seq<ConcurrencyPermit>)
    reads permits
  {
    && (forall p :: p in permits ==> p.store == store && p.armed)
    && forall i, j :: 0 <= i < j < |permits| ==> permits[i] != permits[j]
  }

  predicate Resting(p: Phase) {
    p.Admitted? || p.Done?
  }

  /** An upper bound on the steps a request can take before it rests. */
  function Remaining(limits: seq<LimitConfig>, q: Request): nat {
    |q.permits| + match q.phase
    case Checking(i, stage) =>
      4 + (if i < |limits| then 5 * (|limits| - i) else 0)
      + (match stage case AtRpm => 2 case AtTpm => 1 case AtConcurrency => 0)
    case Reconciling(next, _) => 2 + if next < |q.reservations| then |q.reservations| - next else 0
    case RollingBack(_) => 2
    case Dropping(_) => 1
    case _ => 0
  }

  lemma StepProgress(limits: seq<LimitConfig>, q: Request, st: Store, now: nat)
    requires !Resting(q.phase)
    ensures Remaining(limits, Step(limits, q, st, now).0) < Remaining(limits, q)
  {
    match q.phase {
      case Checking(i, stage) =>
      case _ =>
    }
  }

  /** One request stepping alone until it waits or ends; `clock(k)` is what the clock shows at its k-th step. */
  function Alone(limits: seq<LimitConfig>, q: Request, st: Store, clock: nat -> nat, k: nat): (Request, Store)
    decreases Remaining(limits, q)
  {
    if Resting(q.phase) then (q, st)
    else
      var (q', st') := Step(limits, q, st, clock(k));
      Alone(limits, q', st', clock, k + 1)
  }

  /** Unsettled reservations on the given counter keys. */
  function Open(keys: seq<string>): (rs: seq<Reservation>)
    ensures |rs| == |keys|
    ensures forall i :: 0 <= i < |keys| ==> rs[i] == Reservation(keys[i], None)
  {
    seq(|keys|, i requires 0 <= i < |keys| => Reservation(keys[i], None))
  }

  /** Dropping the permit vector drops each permit once, front to back, which releases its slot. */
  method DropPermits(store: MemoryCounterStore, permits: seq<ConcurrencyPermit>,
                     ghost limits: seq<LimitConfig>, ghost q: Request, ghost clock: nat -> nat, ghost k: nat)
    requires Held(store, permits) && q.phase.Dropping? && q.permits == KeysOf(permits)
    modifies store, permits
    ensures store.State() == Alone(limits, q, old(store.State()), clock, k).1
    ensures Alone(limits, q, old(store.State()), clock, k).0 == q.(permits := [], phase := Done(q.phase.admitted))
    ensures forall p :: p in permits ==> !p.armed
  {
    ghost var start, keys := store.State(), KeysOf(permits);
    assert keys[0..] == keys;
    for i := 0 to |permits|
      invariant Alone(limits, q, start, clock, k) ==
                Alone(limits, q.(permits := keys[i..]), store.State(), clock, k + i)
      invariant forall j :: 0 <= j < i ==> !permits[j].armed
      invariant forall j :: i <= j < |permits| ==> permits[j].armed
    {
      permits[i].Drop();
      assert keys[i..][1..] == keys[i + 1..];
    }
    assert keys[|permits|..] == [];
  }

  method CheckRpm(
      store: MemoryCounterStore, limit: LimitConfig, scope: string, now: nat, ghost i: nat, ghost q: Request)
    returns (ok: bool)
    modifies store
    ensures RpmStep(limit, scope, i, q, old(store.State()), now)
         == (q.(phase := if ok then Checking(i, AtTpm) else Dropping(false)), store.State())
  {
    ok := true;
    if limit.rpm.Some? {
      var count := store.IncrWindow("rpm:" + scope, WINDOW_MS, now, 1);
      ok := AsU64(count) <= limit.rpm.value;
    }
  }

  /** `reserved` is the counter key charged, when there is a TPM cap. */
  method CheckTpm(
      store: MemoryCounterStore, limit: LimitConfig, scope: string, now: nat, ghost i: nat, ghost q: Request)
    returns (ok: bool, reserved: seq<string>)
    modifies store
    ensures TpmStep(limit, scope, i, q, old(store.State()), now)
         == (if ok then q.(phase := Checking(i, AtConcurrency), reservations := q.reservations + Open(reserved))
             else q.(phase := RollingBack("tpm:" + scope)), store.State())
  {
    ok, reserved := true, [];
    assert q.reservations + Open(reserved) == q.reservations;
    if limit.tpm.Some? {
      var key := "tpm:" + scope;
      var count := store.IncrWindow(key, WINDOW_MS, now, DEFAULT_TOKEN_PREDEDUCT);
      if AsU64(count) > limit.tpm.value {
        ok := false;
      } else {
        reserved := [key];
        assert Open(reserved) == [Reservation(key, None)];
      }
    }
  }

  method CheckConcurrency(store: MemoryCounterStore, limit: LimitConfig, scope: string, ghost i: nat, ghost q: Request)
    returns (ok: bool, taken: seq<ConcurrencyPermit>)
    modifies store
    ensures ConcurrencyStep(limit, scope, i, q, old(store.State()))
         == (if ok then q.(phase := Checking(i + 1, AtRpm), permits := q.permits + KeysOf(taken))
             else q.(phase := Dropping(false)), store.State())
    ensures Held(store, taken) && fresh(taken)
  {
    ok, taken := true, [];
    assert q.permits + KeysOf(taken) == q.permits;
    if limit.concurrency.Some? {
      var permit := store.TryAcquireConcurrency("conc:" + scope, limit.concurrency.value);
      if permit.None? {
        return false, [];
      }
      taken := [permit.value];
      assert KeysOf(taken) == ["conc:" + scope];
    }
  }

  lemma Unfold(limits: seq<LimitConfig>, q: Request, st: Store, clock: nat -> nat, k: nat)
    requires !Resting(q.phase)
    ensures
      var (q', st') := Step(limits, q, st, clock(k));
      Alone(limits, q, st, clock, k) == Alone(limits, q', st', clock, k + 1)
  {
  }

  /** Over the TPM cap: give the pre-deduction back so that the bucket is not locked, then drop the permits. */
  method RollBackTpm(
      store: MemoryCounterStore, permits: seq<ConcurrencyPermit>, scope: string, clock: nat -> nat, k: nat,
      ghost limits: seq<LimitConfig>, ghost q: Request)
    requires Held(store, permits) && q.phase == RollingBack("tpm:" + scope) && q.permits == KeysOf(permits)
    modifies store, permits
    ensures
      var before := Alone(limits, q, old(store.State()), clock, k);
      before.0.phase == Done(false) && before.1 == store.State()
    ensures forall p :: p in permits ==> !p.armed
  {
    Unfold(limits, q, store.State(), clock, k);
    var _ := store.IncrWindow("tpm:" + scope, WINDOW_MS, clock(k), -DEFAULT_TOKEN_PREDEDUCT);
    DropPermits(store, permits, limits, q.(phase := Dropping(false)), clock, k + 1);
  }

  /** A request in the middle of its checks. */
  function Underway(
      keyId: string, projectId: string, i: nat, stage: Stage, permits: seq<ConcurrencyPermit>,
          keys: seq<string>): Request {
    Request(keyId, projectId, Checking(i, stage), KeysOf(permits), Open(keys))
  }

  /** The concurrency limit of entry `i`, the last one of the entry. */
  method CheckSlot(store: MemoryCounterStore, limits: seq<LimitConfig>, i: nat, scope: string, ghost q: Request,
                   permits: seq<ConcurrencyPermit>, ghost clock: nat -> nat, ghost k: nat)
    returns (ok: bool, permits': seq<ConcurrencyPermit>)
    requires i < |limits| && Held(store, permits) && q.permits == KeysOf(permits)
    requires q.phase == Checking(i, AtConcurrency) && ScopeOf(limits[i], q.keyId, q.projectId) == Some(scope)
    modifies store, permits
    ensures
      var before := Alone(limits, q, old(store.State()), clock, k);
      var after := q.(phase := Checking(i + 1, AtRpm), permits := KeysOf(permits'));
      if ok then before == Alone(limits, after, store.State(), clock, k + 1)
      else before.0.phase == Done(false) && before.1 == store.State()
    ensures ok ==> Held(store, permits')
    ensures ok ==> forall j :: 0 <= j < |permits'| ==> permits'[j] in permits || fresh(permits'[j])
    ensures !ok ==> forall p :: p in permits ==> !p.armed
  {
    permits' := permits;
    Unfold(limits, q, store.State(), clock, k);
    var taken;
    ok, taken := CheckConcurrency(store, limits[i], scope, i, q);
    if !ok {
      DropPermits(store, permits, limits, q.(phase := Dropping(false)), clock, k + 1);
      return;
    }
    permits' := permits + taken;
    assert KeysOf(permits') == KeysOf(permits) + KeysOf(taken);
  }

  /** All the limits of one configured entry, in order: RPM, TPM, concurrency. */
  method CheckOne(store: MemoryCounterStore, limits: seq<LimitConfig>, i: nat, keyId: string, projectId: string,
                  permits: seq<ConcurrencyPermit>, keys: seq<string>, clock: nat -> nat, k: nat)
    returns (ok: bool, permits': seq<ConcurrencyPermit>, keys': seq<string>, k': nat)
    requires i < |limits| && Held(store, permits)
    modifies store, permits
    ensures
      var before := Alone(limits, Underway(keyId, projectId, i, AtRpm, permits, keys), old(store.State()), clock, k);
      var after := Underway(keyId, projectId, i + 1, AtRpm, permits', keys');
      if ok then before == Alone(limits, after, store.State(), clock, k')
      else before.0.phase == Done(false) && before.1 == store.State()
    ensures ok ==> Held(store, permits')
    ensures ok ==> forall j :: 0 <= j < |permits'| ==> permits'[j] in permits || fresh(permits'[j])
    ensures !ok ==> forall p :: p in permits ==> !p.armed
  {
    var limit, scope := limits[i], ScopeOf(limits[i], keyId, projectId);
    ghost var q := Underway(keyId, projectId, i, AtRpm, permits, keys);
    permits', keys' := permits, keys;
    Unfold(limits, q, store.State(), clock, k);
    if scope.None? {
      return true, permits, keys, k + 1;
    }
    ok := CheckRpm(store, limit, scope.value, clock(k), i, q);
    k' := k + 1;
    if !ok {
      DropPermits(store, permits, limits, q.(phase := Dropping(false)), clock, k');
      return;
    }
    q := q.(phase := Checking(i, AtTpm));
    Unfold(limits, q, store.State(), clock, k');
    var reserved;
    ok, reserved := CheckTpm(store, limit, scope.value, clock(k'), i, q);
    k' := k' + 1;
    if !ok {
      RollBackTpm(store, permits, scope.value, clock, k', limits, q.(phase := RollingBack("tpm:" + scope.value)));
      return;
    }
    keys' := keys + reserved;
    assert Open(keys') == Open(keys) + Open(reserved);
    q := Underway(keyId, projectId, i, AtConcurrency, permits, keys');
    ok, permits' := CheckSlot(store, limits, i, scope.value, q, permits, clock, k');
    k' := k' + 1;
  }

  method CheckLimits(
      store: MemoryCounterStore, limits: seq<LimitConfig>, keyId: string, projectId: string, clock: nat -> nat)
    returns (result: Option<RatePermit>)
    modifies store
    ensures
      var (q, st) := Alone(limits, Arrive(keyId, projectId), old(store.State()), clock, 0);
      && store.State() == st
      && (if result.Some?
          then q == Request(keyId, projectId, Admitted, KeysOf(result.value.permits),
              Open(result.value.tpmReservations))
          else q.phase == Done(false))
    ensures result.Some? ==> Held(store, result.value.permits)
    ensures result.Some? ==> forall p :: p in result.value.permits ==> fresh(p)
  {
    ghost var goal := Alone(limits, Arrive(keyId, projectId), store.State(), clock, 0);
    var permits: seq<ConcurrencyPermit>, keys: seq<string>, k := [], [], 0;
    assert KeysOf(permits) == [] && Open(keys) == [];
    for i := 0 to |limits|
      invariant goal == Alone(limits, Underway(keyId, projectId, i, AtRpm, permits, keys), store.State(), clock, k)
      invariant Held(store, permits) && forall j :: 0 <= j < |permits| ==> fresh(permits[j])
    {
      var ok;
      ok, permits, keys, k := CheckOne(store, limits, i, keyId, projectId, permits, keys, clock, k);
      if !ok {
        return None;
      }
    }
    result := Some(RatePermit(permits, keys));
  }

  lemma {:induction false} RunPrepend(limits: seq<LimitConfig>, w: World, e: Event, events: seq<Event>)
    ensures Run(limits, w, [e] + events) == Run(limits, Next(limits, w, e), events)
    decreases |events|
  {
    var all := [e] + events;
    if events == [] {
      assert all[..|all| - 1] == [];
    } else {
      RunPrepend(limits, w, e, events[..|events| - 1]);
      assert all[..|all| - 1] == [e] + events[..|events| - 1];
    }
  }

  /** What one request does alone is one of the interleaved runs: the one that advances only that request. */
  lemma {:induction false} AloneIsRun(limits: seq<LimitConfig>, w: World, r: nat, clock: nat -> nat, k: nat)
    returns (events: seq<Event>)
    requires r < |w.requests|
    ensures
      var w' := Run(limits, w, events);
      && |w'.requests| == |w.requests|
      && (w'.requests[r], w'.store) == Alone(limits, w.requests[r], w.store, clock, k)
      && (forall i :: 0 <= i < |w.requests| && i != r ==> w'.requests[i] == w.requests[i])
    decreases Remaining(limits, w.requests[r])
  {
    if Resting(w.requests[r].phase) {
      events := [];
    } else {
      var e := Advance(r, clock(k));
      var rest := AloneIsRun(limits, Next(limits, w, e), r, clock, k + 1);
      RunPrepend(limits, w, e, rest);
      events := [e] + rest;
    }
  }

  /** A check that ends in rejection leaves every slot count where it found it,
      and one that admits has added exactly the permits it carries. */
  lemma {:induction false} SlotsAfterCheck(
      limits: seq<LimitConfig>, q: Request, st: Store, clock: nat -> nat, k: nat, key: string, cap: nat)
    requires SlotCap(limits, key, cap) && Clean(q)
    requires multiset(q.permits)[key] <= st.Slots(key) <= cap
    ensures MovesSlots(q, st, Alone(limits, q, st, clock, k), key, cap)
    ensures Clean(Alone(limits, q, st, clock, k).0)
    decreases Remaining(limits, q)
  {
    if !Resting(q.phase) {
      var (q', st') := Step(limits, q, st, clock(k));
      StepProgress(limits, q, st, clock(k));
      StepMovesSlots(limits, q, st, clock(k), key, cap);
      StepKeepsClean(limits, q, st, clock(k));
      SlotsAfterCheck(limits, q', st', clock, k + 1, key, cap);
    }
  }

  /** The reconciliation of one reservation. */
  method Settle(store: MemoryCounterStore, key: string, actual: int, now: nat, ghost q: Request)
    requires q.phase.Reconciling? && q.phase.actual == actual
    requires q.phase.next < |q.reservations| && q.reservations[q.phase.next].key == key
    modifies store
    ensures store.State() == Step([], q, old(store.State()), now).1
  {
    var delta := actual - DEFAULT_TOKEN_PREDEDUCT;
    if delta != 0 {
      var _ := store.IncrWindow(key, WINDOW_MS, now, delta);
    }
  }

  /** The request that holds `permit`, about to settle its `i`-th reservation. */
  ghost predicate Settling(q: Request, permit: RatePermit, i: nat, actual: int) {
    && q.phase == Reconciling(i, actual) && q.permits == KeysOf(permit.permits)
    && |q.reservations| == |permit.tpmReservations|
    && forall j :: 0 <= j < |q.reservations| ==> q.reservations[j].key == permit.tpmReservations[j]
  }

  lemma SettleStep(q: Request, permit: RatePermit, i: nat, actual: int, st: Store, now: nat)
    requires Settling(q, permit, i, actual) && i < |q.reservations|
    ensures Settling(Step([], q, st, now).0, permit, i + 1, actual)
  {
  }

  /** Settle every reservation to the actual token count, then drop the permits. */
  method ReconcileTokens(store: MemoryCounterStore, permit: RatePermit, actual: int, clock: nat -> nat)
    requires Held(store, permit.permits)
    modifies store, permit.permits
    ensures
      var q := Request("", "", Reconciling(0, actual), KeysOf(permit.permits), Open(permit.tpmReservations));
      store.State() == Alone([], q, old(store.State()), clock, 0).1
    ensures forall p :: p in permit.permits ==> !p.armed
  {
    ghost var q := Request("", "", Reconciling(0, actual), KeysOf(permit.permits), Open(permit.tpmReservations));
    ghost var goal := Alone([], q, store.State(), clock, 0);
    for i := 0 to |permit.tpmReservations|
      invariant Held(store, permit.permits) && Settling(q, permit, i, actual)
      invariant goal == Alone([], q, store.State(), clock, i)
    {
      ghost var before := q;
      SettleStep(q, permit, i, actual, store.State(), clock(i));
      Unfold([], q, store.State(), clock, i);
      q := Step([], q, store.State(), clock(i)).0;
      Settle(store, permit.tpmReservations[i], actual, clock(i), before);
    }
    ghost var n := |permit.tpmReservations|;
    Unfold([], q, store.State(), clock, n);
    DropPermits(store, permit.permits, [], q.(phase := Dropping(true)), clock, n + 1);
  }
}
