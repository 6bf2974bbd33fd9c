/**
Tokens-per-minute accounting. Reserve, rollback and reconcile may each land in a different
window bucket, so a single bucket can go below zero; what is kept is the sum over all buckets.
 */
module TokenConservation {
  import opened Common
  import opened MemoryCounters
  import opened Admission

  // ---- Sums over finite maps ----

  ghost function Pick<K>(m: map<K, int>): K
    requires m != map[]
  {
    var k :| k in m; k
  }

  ghost function Sum<K>(m: map<K, int>): int
    decreases |m|
  {
    if m == map[] then 0 else var k := Pick(m); m[k] + Sum(m - {k})
  }

  lemma {:induction false} SumRemove<K>(m: map<K, int>, k: K)
    requires k in m
    ensures Sum(m) == m[k] + Sum(m - {k})
    decreases |m|
  {
    var p := Pick(m);
    if p != k {
      SumRemove(m - {p}, k);
      SumRemove(m - {k}, p);
      assert m - {p} - {k} == m - {k} - {p};
    }
  }

  /** Everything the store holds under `key`, over all windows and buckets. */
  ghost function Balance(st: Store, key: string): int {
    Sum(map k | k in st.windows && k.0 == key :: st.windows[k])
  }

  lemma BalanceIncremented(st: Store, key: string, windowMs: nat, now: nat, amount: int, other: string)
    ensures Balance(Incremented(st, key, windowMs, now, amount), other)
         == Balance(st, other) + if other == key then amount else 0
  {
    var k: WindowKey := (key, windowMs, Bucket(now, windowMs));
    var before := map x | x in st.windows && x.0 == other :: st.windows[x];
    var st' := Incremented(st, key, windowMs, now, amount);
    var after := map x | x in st'.windows && x.0 == other :: st'.windows[x];
    if other == key {
      SumRemove(after, k);
      assert after - {k} == before - {k};
      if k in before {
        SumRemove(before, k);
      } else {
        assert before - {k} == before;
      }
    } else {
      assert after == before;
    }
  }

  // ---- What the requests owe ----

  /** Tokens one reservation stands for: its reconciled count, or the pre-deduction while it is live,
      after it was dropped unreconciled, or after the request was rejected by a later limit. */
  function Weight(r: Reservation, key: string): int {
    if r.key == key then r.settled.UnwrapOr(DEFAULT_TOKEN_PREDEDUCT) else 0
  }

  function ReservedBy(rs: seq<Reservation>, key: string): int {
    if rs == [] then 0 else ReservedBy(rs[..|rs| - 1], key) + Weight(rs[|rs| - 1], key)
  }

  function Owed(q: Request, key: string): int {
    ReservedBy(q.reservations, key) + if q.phase == RollingBack(key) then DEFAULT_TOKEN_PREDEDUCT else 0
  }

  function TotalOwed(requests: seq<Request>, key: string): int {
    if requests == [] then 0 else Owed(requests[0], key) + TotalOwed(requests[1..], key)
  }

  lemma {:induction false} ReservedUpdate(rs: seq<Reservation>, i: nat, r: Reservation, key: string)
    requires i < |rs|
    ensures ReservedBy(rs[i := r], key) == ReservedBy(rs, key) - Weight(rs[i], key) + Weight(r, key)
  {
    var n := |rs| - 1;
    if i == n {
      assert rs[i := r][..n] == rs[..n];
    } else {
      ReservedUpdate(rs[..n], i, r, key);
      assert rs[i := r][..n] == rs[..n][i := r];
    }
  }

  lemma {:induction false} TotalUpdate(requests: seq<Request>, i: nat, q: Request, key: string)
    requires i < |requests|
    ensures TotalOwed(requests[i := q], key) == TotalOwed(requests, key) - Owed(requests[i], key) + Owed(q, key)
  {
    if i == 0 {
      assert requests[0 := q][1..] == requests[1..];
    } else {
      TotalUpdate(requests[1..], i - 1, q, key);
      assert requests[i := q][1..] == requests[1..][i - 1 := q];
    }
  }

  lemma {:induction false} NothingOwed(requests: seq<Request>, key: string)
    requires forall i :: 0 <= i < |requests| ==> Owed(requests[i], key) == 0
    ensures TotalOwed(requests, key) == 0
  {
    if requests != [] {
      NothingOwed(requests[1..], key);
    }
  }

  /** Reconciliation walks the reservations in order, so those from `next` on are still unsettled. */
  ghost predicate Unsettled(q: Request) {
    var from := if q.phase.Reconciling? then q.phase.next
                else if q.phase.Dropping? || q.phase.Done? then |q.reservations| else 0;
    forall i :: from <= i < |q.reservations| ==> q.reservations[i].settled.None?
  }

  /** The request and store after a step moved the same number of tokens under `key`. */
  ghost predicate Balances(q: Request, st: Store, next: (Request, Store), key: string) {
    && Unsettled(next.0)
    && Balance(next.1, key) - Balance(st, key) == Owed(next.0, key) - Owed(q, key)
  }

  lemma TpmStepBalances(limit: LimitConfig, scope: string, i: nat, q: Request, st: Store, now: nat, key: string)
    requires Unsettled(q) && q.phase.Checking?
    ensures Balances(q, st, TpmStep(limit, scope, i, q, st, now), key)
  {
    BalanceIncremented(st, "tpm:" + scope, WINDOW_MS, now, DEFAULT_TOKEN_PREDEDUCT, key);
    var rs := q.reservations + [Reservation("tpm:" + scope, None)];
    assert rs[..|rs| - 1] == q.reservations;
  }

  lemma ReconcileStepBalances(q: Request, st: Store, now: nat, key: string)
    requires Unsettled(q) && q.phase.Reconciling?
    ensures Balances(q, st, ReconcileStep(q.phase.next, q.phase.actual, q, st, now), key)
  {
    var next, actual := q.phase.next, q.phase.actual;
    if next < |q.reservations| {
      var r := q.reservations[next];
      BalanceIncremented(st, r.key, WINDOW_MS, now, actual - DEFAULT_TOKEN_PREDEDUCT, key);
      ReservedUpdate(q.reservations, next, r.(settled := Some(actual)), key);
    }
  }

  lemma StepBalances(limits: seq<LimitConfig>, q: Request, st: Store, now: nat, scope: string)
    requires Unsettled(q)
    ensures Balances(q, st, Step(limits, q, st, now), "tpm:" + scope)
  {
    var key := "tpm:" + scope;
    match q.phase {
      case Checking(i, stage) =>
        if i < |limits| && ScopeOf(limits[i], q.keyId, q.projectId).Some? {
          var sc := ScopeOf(limits[i], q.keyId, q.projectId).value;
          if stage == AtRpm {
            assert ("rpm:" + sc)[0] != key[0];
            BalanceIncremented(st, "rpm:" + sc, WINDOW_MS, now, 1, key);
          } else if stage == AtTpm {
            TpmStepBalances(limits[i], sc, i, q, st, now, key);
          }
        }
      case RollingBack(k) => BalanceIncremented(st, k, WINDOW_MS, now, -DEFAULT_TOKEN_PREDEDUCT, key);
      case Reconciling(_, _) => ReconcileStepBalances(q, st, now, key);
      case _ =>
    }
  }

  ghost predicate AllUnsettled(w: World) {
    forall i :: 0 <= i < |w.requests| ==> Unsettled(w.requests[i])
  }

  lemma WorldStepBalances(limits: seq<LimitConfig>, w: World, e: Event, scope: string)
    requires AllUnsettled(w)
    ensures
      var w' := Next(limits, w, e);
      && AllUnsettled(w')
      && Balance(w'.store, "tpm:" + scope) - TotalOwed(w'.requests, "tpm:" + scope)
      == Balance(w.store, "tpm:" + scope) - TotalOwed(w.requests, "tpm:" + scope)
  {
    if e.r < |w.requests| {
      if e.Advance? {
        StepBalances(limits, w.requests[e.r], w.store, e.now, scope);
      }
      TotalUpdate(w.requests, e.r, Next(limits, w, e).requests[e.r], "tpm:" + scope);
    }
  }

  /**
  In every interleaved run and for every clock, the sum over all buckets of a TPM counter is the actual
  tokens of the reconciled reservations plus 1024 for each live, dropped or abandoned one and for each
  pending rollback.
   */
  lemma {:induction false} TokensConserved(limits: seq<LimitConfig>, w: World, events: seq<Event>, scope: string)
    requires Initial(w)
    ensures
      var w' := Run(limits, w, events);
      AllUnsettled(w') && Balance(w'.store, "tpm:" + scope) == TotalOwed(w'.requests, "tpm:" + scope)
    decreases |events|
  {
    if events == [] {
      NothingOwed(w.requests, "tpm:" + scope);
    } else {
      var before := events[..|events| - 1];
      TokensConserved(limits, w, before, scope);
      WorldStepBalances(limits, Run(limits, w, before), events[|events| - 1], scope);
    }
  }
}
