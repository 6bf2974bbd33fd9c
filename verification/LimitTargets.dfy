/**
Whom a limit applies to and when it rejects, seen from outside: what `check_limits` answers for a
configuration of one limit.
 */
module LimitTargets {
  import opened Common
  import opened MemoryCounters
  import opened Admission
  import opened CheckLimits
  import opened AbandonedTokens

  /** The verdict on a request that is checked alone. */
  predicate Rejected(limits: seq<LimitConfig>, keyId: string, projectId: string, st: Store, clock: nat -> nat) {
    Alone(limits, Arrive(keyId, projectId), st, clock, 0).0.phase == Done(false)
  }

  /** `check_limits` answers with that verdict. */
  method Verdict(
      store: MemoryCounterStore, limits: seq<LimitConfig>, keyId: string, projectId: string, clock: nat -> nat)
    returns (ok: bool)
    modifies store
    ensures ok <==> !Rejected(limits, keyId, projectId, old(store.State()), clock)
  {
    var permit := CheckLimits.CheckLimits(store, limits, keyId, projectId, clock);
    ok := permit.Some?;
  }

  lemma {:induction false} OnlyLimit(c: Caller)
    requires |c.limits| == 1
    ensures Place(c, 0) == (0, AtRpm)
    ensures c.Scope(0).Some? ==> Place(c, 1) == (0, AtTpm) && Place(c, 2) == (0, AtConcurrency)
    ensures c.Scope(0).Some? ==> Place(c, 3) == (1, AtRpm)
    ensures c.Scope(0).None? ==> Place(c, 1) == (1, AtRpm)
  {
    assert Place(c, 0) == (0, AtRpm);
    if c.Scope(0).Some? {
      assert Place(c, 1) == (0, AtTpm);
      assert Place(c, 2) == (0, AtConcurrency);
    }
  }

  /** One limit rejects exactly when its scope exists and one of its three checks fails, each on the store as the
      ones before it left it. */
  lemma {:induction false} OneLimit(c: Caller, st: Store, clock: nat -> nat)
    requires |c.limits| == 1
    ensures Rejected(c.limits, c.keyId, c.projectId, st, clock) <==>
            c.Scope(0).Some? && exists n :: 0 <= n < 3 && !PassesAt(c, st, clock, n)
                                            && forall k :: 0 <= k < n ==> PassesAt(c, st, clock, k)
  {
    OnlyLimit(c);
    assert RequestAt(c, 0) == Arrive(c.keyId, c.projectId) && Before(c, st, clock, 0) == st;
    CheckedIs(c, st, clock, 0);
    if b :| Refusal(c, st, clock, 0) == Some(b) {
      RefusalMeans(c, st, clock, 0, b);
      if b >= 3 {
        assert Checks(c, b);
        PlacesBefore(c, 3, b);
      }
    }
    if c.Scope(0).Some? {
      forall n | 0 <= n < 3 && !PassesAt(c, st, clock, n) && forall k :: 0 <= k < n ==> PassesAt(c, st, clock, k)
        ensures Refusal(c, st, clock, 0) == Some(n)
      {
        forall k | 0 <= k <= n ensures Checks(c, k) {
          assert k == 0 || k == 1 || k == 2;
        }
        RefusalReached(c, st, clock, 0, n);
      }
    }
  }

  // ---- Whom a limit applies to ----

  lemma {:induction false} OnlyRpm(c: Caller, st: Store, clock: nat -> nat)
    requires |c.limits| == 1 && c.limits[0].rpm.Some? && c.limits[0].tpm.None? && c.limits[0].concurrency.None?
    ensures Rejected(c.limits, c.keyId, c.projectId, st, clock) <==> c.Scope(0).Some? && !Passes(c, st, clock(0), 0)
  {
    OneLimit(c, st, clock);
    OnlyLimit(c);
    assert Before(c, st, clock, 0) == st;
    if c.Scope(0).Some? {
      assert CheckAt(c, 1) == None && CheckAt(c, 2) == None;
      assert PassesAt(c, st, clock, 1) && PassesAt(c, st, clock, 2);
      assert PassesAt(c, st, clock, 0) <==> Passes(c, st, clock(0), 0);
    }
  }

  /** A limit that lets nobody through rejects exactly those it applies to: a key limit the callers with its key and a
      project limit those of its project, all of them when it names none or `*`, a global limit everybody, and a limit
      of another kind nobody. */
  lemma {:induction false} AppliesExactly(
      kind: string, id: Option<string>, keyId: string, projectId: string, st: Store, clock: nat -> nat)
    requires Sound(st)
    ensures
      var rejected := Rejected([LimitConfig(kind, id, Some(0), None, None)], keyId, projectId, st, clock);
      && (kind == "key" ==> (rejected <==> id == None || id == Some("*") || id == Some(keyId)))
      && (kind == "project" ==> (rejected <==> id == None || id == Some("*") || id == Some(projectId)))
      && (kind == "global" ==> rejected)
      && (kind != "key" && kind != "project" && kind != "global" ==> !rejected)
  {
    var c := Caller([LimitConfig(kind, id, Some(0), None, None)], keyId, projectId);
    OnlyRpm(c, st, clock);
    OnlyLimit(c);
    if c.Scope(0).Some? {
      var scope := c.Scope(0).value;
      assert CheckAt(c, 0) == Some(Rpm(scope, 0));
      assert st.Window(("rpm:" + scope, WINDOW_MS, Bucket(clock(0), WINDOW_MS))) >= 0;
    }
  }

  // ---- When a limit that applies rejects ----

  const EVERYBODY := LimitConfig("global", None, None, None, None)

  /** A request limit rejects exactly when the current window already has as many requests as it allows. */
  lemma {:induction false} RpmExactly(cap: nat, keyId: string, projectId: string, st: Store, clock: nat -> nat)
    requires st.Window(("rpm:global", 60_000, clock(0) / 60_000)) >= 0
    ensures Rejected([EVERYBODY.(rpm := Some(cap))], keyId, projectId, st, clock) <==>
            st.Window(("rpm:global", 60_000, clock(0) / 60_000)) >= cap
  {
    var c := Caller([EVERYBODY.(rpm := Some(cap))], keyId, projectId);
    OnlyRpm(c, st, clock);
    OnlyLimit(c);
    assert c.Scope(0) == Some("global") && "rpm:" + "global" == "rpm:global";
    assert CheckAt(c, 0) == Some(Rpm("global", cap));
  }

  /** A token limit rejects exactly when 1024 more tokens do not fit into the current window, or when the window's
      count is so far below zero that it reads as a huge one. */
  lemma {:induction false} TpmExactly(cap: nat, keyId: string, projectId: string, st: Store, clock: nat -> nat)
    requires cap < 0x8000_0000_0000_0000
    requires -0x8000_0000_0000_0000 <= st.Window(("tpm:global", 60_000, clock(1) / 60_000))
    ensures
      var v := st.Window(("tpm:global", 60_000, clock(1) / 60_000));
      Rejected([EVERYBODY.(tpm := Some(cap))], keyId, projectId, st, clock) <==> v > cap - 1024 || v < -1024
  {
    var c := Caller([EVERYBODY.(tpm := Some(cap))], keyId, projectId);
    OneLimit(c, st, clock);
    OnlyLimit(c);
    assert c.Scope(0) == Some("global") && "tpm:" + "global" == "tpm:global";
    assert CheckAt(c, 0) == None && CheckAt(c, 1) == Some(Tpm("global", cap)) && CheckAt(c, 2) == None;
    assert Before(c, st, clock, 0) == st;
    assert Before(c, st, clock, 1) == st;
    assert PassesAt(c, st, clock, 0) && PassesAt(c, st, clock, 2);
    assert PassesAt(c, st, clock, 1) <==> Passes(c, st, clock(1), 1);
  }

  /** A slot limit rejects exactly when all its slots are taken. */
  lemma {:induction false} SlotsExactly(cap: nat, keyId: string, projectId: string, st: Store, clock: nat -> nat)
    ensures Rejected([EVERYBODY.(concurrency := Some(cap))], keyId, projectId, st, clock) <==>
            st.Slots("conc:global") >= cap
  {
    var c := Caller([EVERYBODY.(concurrency := Some(cap))], keyId, projectId);
    OneLimit(c, st, clock);
    OnlyLimit(c);
    assert c.Scope(0) == Some("global") && "conc:" + "global" == "conc:global";
    assert CheckAt(c, 0) == None && CheckAt(c, 1) == None && CheckAt(c, 2) == Some(Slot("global", cap));
    assert Before(c, st, clock, 0) == st;
    assert Before(c, st, clock, 1) == st;
    assert Before(c, st, clock, 2) == st;
    assert PassesAt(c, st, clock, 0) && PassesAt(c, st, clock, 1);
    assert PassesAt(c, st, clock, 2) <==> Passes(c, st, clock(2), 2);
  }
}
