/**
Token reservations left behind when requests interleave. Between two checks of a request others can
take slots that they could not have taken before, so a slot limit that is never the first to fail when
a request is checked alone can still reject it. What is needed in every run is only that a check
follows the token limit and that the checks before it can be passed.
 */
module OvertakenCheck {
  import opened Common
  import opened MemoryCounters
  import opened Admission
  import opened CheckLimits
  import opened AbandonedTokens
  import RequestRate

  const FEW := LimitConfig("global", None, None, None, Some(2))
  const MORE := LimitConfig("global", None, None, Some(2000), Some(3))

  ghost predicate TwoSlots(c: Caller) {
    c.limits == [FEW, MORE]
  }

  lemma {:induction false} Places(c: Caller)
    requires TwoSlots(c)
    ensures Place(c, 0) == (0, AtRpm) && Place(c, 1) == (0, AtTpm) && Place(c, 2) == (0, AtConcurrency)
    ensures Place(c, 3) == (1, AtRpm) && Place(c, 4) == (1, AtTpm) && Place(c, 5) == (1, AtConcurrency)
  {
    assert c.Scope(0) == Some("global") && c.Scope(1) == Some("global");
    assert Place(c, 0) == (0, AtRpm);
    assert Place(c, 1) == (0, AtTpm);
    assert Place(c, 2) == (0, AtConcurrency);
    assert Place(c, 3) == (1, AtRpm);
    assert Place(c, 4) == (1, AtTpm);
  }

  lemma {:induction false} CheckList(c: Caller)
    requires TwoSlots(c)
    ensures forall n :: 0 <= n <= 5 ==> Checks(c, n)
    ensures CheckAt(c, 0) == None && CheckAt(c, 1) == None && CheckAt(c, 3) == None
    ensures CheckAt(c, 2) == Some(Slot("global", 2)) && CheckAt(c, 5) == Some(Slot("global", 3))
    ensures CheckAt(c, 4) == Some(Tpm("global", 2000))
  {
    Places(c);
    assert c.Scope(0) == Some("global") && c.Scope(1) == Some("global");
    forall n | 0 <= n <= 5 ensures Checks(c, n) {
      assert n == 0 || n == 1 || n == 2 || n == 3 || n == 4 || n == 5;
    }
  }

  lemma {:induction false} Tokens(c: Caller)
    requires TwoSlots(c)
    ensures Charged(c, 5) == [Reservation("tpm:global", None)]
  {
    CheckList(c);
    assert "tpm:" + "global" == "tpm:global";
    assert Charged(c, 0) == [];
    assert Charged(c, 1) == [];
    assert Charged(c, 2) == [];
    assert Charged(c, 3) == [];
    assert Charged(c, 4) == [];
  }

  /** Alone, the second slot check is never the one to fail. */
  lemma {:induction false} NotAlone(c: Caller, st: Store, clock: nat -> nat)
    requires TwoSlots(c) && Sound(st)
    ensures !RefusedFirst(c, st, clock, 5)
  {
    CheckList(c);
    assert SlotsBefore(c, "global", 0) == 0;
    assert SlotsBefore(c, "global", 1) == 0;
    assert SlotsBefore(c, "global", 2) == 0;
    assert SlotsBefore(c, "global", 3) == 1;
    assert SlotsBefore(c, "global", 4) == 1;
    assert SlotsBefore(c, "global", 5) == 1;
    NeverFirst(c, st, clock, 2, 5);
  }

  // ---- Two requests in step ----

  lemma {:induction false} PassInWorld(c: Caller, w: World, r: nat, now: nat, n: nat) returns (w': World)
    requires r < |w.requests| && w.requests[r] == RequestAt(c, n) && Checks(c, n) && Passes(c, w.store, now, n)
    ensures w' == Next(c.limits, w, Advance(r, now))
    ensures w'.requests == w.requests[r := RequestAt(c, n + 1)] && w'.store == Apply(CheckAt(c, n), w.store, now)
  {
    w' := Next(c.limits, w, Advance(r, now));
    PassStep(c, w.store, now, n);
  }

  /** A request goes through its first slot check. */
  lemma {:induction false} TakeFirst(c: Caller, w: World, r: nat) returns (w': World, events: seq<Event>)
    requires TwoSlots(c) && r < |w.requests| && w.requests[r] == RequestAt(c, 0) && w.store.Slots("conc:global") < 2
    ensures w'.requests == w.requests[r := RequestAt(c, 3)] && w' == Run(c.limits, w, events)
    ensures w'.store == Acquired(w.store, "conc:global", 2)
  {
    CheckList(c);
    assert "conc:" + "global" == "conc:global";
    var w1 := PassInWorld(c, w, r, 0, 0);
    var w2 := PassInWorld(c, w1, r, 0, 1);
    w' := PassInWorld(c, w2, r, 0, 2);
    events := ThreeSteps(c.limits, w, w1, w2, w', r, 0);
  }

  lemma {:induction false} ThreeSteps(
      limits: seq<LimitConfig>, w: World, w1: World, w2: World, w3: World, r: nat, now: nat)
    returns (events: seq<Event>)
    requires w1 == Next(limits, w, Advance(r, now)) && w2 == Next(limits, w1, Advance(r, now))
    requires w3 == Next(limits, w2, Advance(r, now))
    ensures w3 == Run(limits, w, events)
  {
    var e := Advance(r, now);
    assert [e] + [] == [e] && [e] + [e] == [e, e] && [e] + [e, e] == [e, e, e];
    RunPrepend(limits, w2, e, []);
    RunPrepend(limits, w1, e, [e]);
    RunPrepend(limits, w, e, [e, e]);
    events := [e, e, e];
  }

  /** And through the token check and the second slot check. */
  lemma {:induction false} TakeSecond(c: Caller, w: World, r: nat) returns (w': World, events: seq<Event>)
    requires TwoSlots(c) && r < |w.requests| && w.requests[r] == RequestAt(c, 3) && w.store.Slots("conc:global") < 3
    requires w.store.windows == map[]
    ensures w'.requests == w.requests[r := RequestAt(c, 6)] && w' == Run(c.limits, w, events)
    ensures w'.store.Slots("conc:global") == w.store.Slots("conc:global") + 1
    ensures w'.store.Window(("tpm:global", WINDOW_MS, 1)) == 0
  {
    CheckList(c);
    assert "conc:" + "global" == "conc:global" && "tpm:" + "global" == "tpm:global";
    var w1 := PassInWorld(c, w, r, 0, 3);
    var w2 := PassInWorld(c, w1, r, 0, 4);
    w' := PassInWorld(c, w2, r, 0, 5);
    events := ThreeSteps(c.limits, w, w1, w2, w', r, 0);
  }

  /** A request that finds the second slot check full, in the next window, is rejected and keeps its reservation. */
  lemma {:induction false} FindFull(c: Caller, w: World, r: nat) returns (w': World, events: seq<Event>)
    requires TwoSlots(c) && r < |w.requests| && w.requests[r] == RequestAt(c, 3) && w.store.Slots("conc:global") >= 3
    requires w.store.Window(("tpm:global", WINDOW_MS, 1)) == 0
    ensures w' == Run(c.limits, w, events) && |w'.requests| == |w.requests|
    ensures w'.requests[r].reservations == [Reservation("tpm:global", None)] && w'.requests[r].phase == Dropping(false)
  {
    CheckList(c);
    Tokens(c);
    assert "conc:" + "global" == "conc:global" && "tpm:" + "global" == "tpm:global";
    var w1 := PassInWorld(c, w, r, WINDOW_MS, 3);
    var w2 := PassInWorld(c, w1, r, WINDOW_MS, 4);
    RefuseStep(c, w2.store, WINDOW_MS, 5);
    w' := Next(c.limits, w2, Advance(r, WINDOW_MS));
    RefusedAtSlot(c, w2.store, WINDOW_MS);
    events := ThreeSteps(c.limits, w, w1, w2, w', r, WINDOW_MS);
  }

  lemma {:induction false} RefusedAtSlot(c: Caller, st: Store, now: nat)
    requires TwoSlots(c) && !Passes(c, st, now, 5)
    ensures Step(c.limits, RequestAt(c, 5), st, now).0.phase == Dropping(false)
  {
    Places(c);
    CheckList(c);
  }

  lemma {:induction false} RunTwice(limits: seq<LimitConfig>, w: World, a: seq<Event>, b: seq<Event>)
    ensures Run(limits, w, a + b) == Run(limits, Run(limits, w, a), b)
    decreases |a|
  {
    if a == [] {
      assert a + b == b;
    } else {
      assert a + b == [a[0]] + (a[1..] + b) && a == [a[0]] + a[1..];
      RunPrepend(limits, w, a[0], a[1..] + b);
      RunPrepend(limits, w, a[0], a[1..]);
      RunTwice(limits, Next(limits, w, a[0]), a[1..], b);
    }
  }

  /** From an empty store: request 0 takes a first slot, request 1 takes two, and request 0 is rejected at its second
      slot check with 1024 tokens left charged. */
  lemma {:induction false} OvertakenLeaks(c: Caller, w: World) returns (events: seq<Event>)
    requires TwoSlots(c) && w == World(EMPTY, [RequestAt(c, 0), RequestAt(c, 0)], [])
    ensures Initial(w)
    ensures
      var w' := Run(c.limits, w, events);
      && |w'.requests| == 2 && w'.requests[0].phase == Done(false)
      && w'.requests[0].reservations == [Reservation("tpm:global", None)]
  {
    var w1, e1 := TakeFirst(c, w, 0);
    var w2, e2 := TakeFirst(c, w1, 1);
    var w3, e3 := TakeSecond(c, w2, 1);
    var w4, e4 := FindFull(c, w3, 0);
    var e5 := AloneIsRun(c.limits, w4, 0, Midnight, 0);
    EndsRejected(c.limits, w4.requests[0], w4.store, Midnight, 0);
    RunTwice(c.limits, w, e1, e2);
    RunTwice(c.limits, w, e1 + e2, e3);
    RunTwice(c.limits, w, e1 + e2 + e3, e4);
    RunTwice(c.limits, w, e1 + e2 + e3 + e4, e5);
    events := e1 + e2 + e3 + e4 + e5;
  }

  // ---- Every run ----

  /** Some store lets the check pass. */
  predicate Passable(c: Caller, n: nat) {
    match CheckAt(c, n)
    case Some(Rpm(_, cap)) => cap >= 1
    case Some(Slot(_, cap)) => cap >= 1
    case _ => true
  }

  ghost predicate AllPassable(c: Caller, n: nat) {
    forall k :: 0 <= k < n ==> Passable(c, k)
  }

  /** A token limit that can be reached is followed by a check. */
  ghost predicate FollowedAt(c: Caller, b: nat) {
    Charged(c, b) != [] && CheckAt(c, b).Some? && AllPassable(c, b)
  }

  /** Where a request for the caller can be in any run, and what it has reserved if it was rejected. */
  ghost predicate OnTrack(c: Caller, q: Request, n: nat) {
    || (q == RequestAt(c, n) && AllPassable(c, n))
    || (&& (q.phase.RollingBack? || q.phase == Dropping(false) || q.phase == Done(false))
        && q.reservations == Charged(c, n) && CheckAt(c, n).Some? && AllPassable(c, n))
    || q.phase.Admitted? || q.phase.Reconciling? || q.phase == Dropping(true) || q.phase == Done(true)
  }

  lemma PassedPassable(c: Caller, st: Store, now: nat, n: nat)
    requires Sound(st) && Passes(c, st, now, n)
    ensures Passable(c, n)
  {
    match CheckAt(c, n)
    case Some(Rpm(scope, _)) => assert st.Window(("rpm:" + scope, WINDOW_MS, Bucket(now, WINDOW_MS))) >= 0;
    case _ =>
  }

  lemma {:induction false} CheckingOnTrack(c: Caller, st: Store, now: nat, n: nat) returns (n': nat)
    requires Sound(st) && AllPassable(c, n)
    ensures OnTrack(c, Step(c.limits, RequestAt(c, n), st, now).0, n')
  {
    if !Checks(c, n) {
      n' := n;
    } else if Passes(c, st, now, n) {
      PassStep(c, st, now, n);
      PassedPassable(c, st, now, n);
      n' := n + 1;
    } else {
      RefuseStep(c, st, now, n);
      n' := n;
    }
  }

  lemma {:induction false} LeavingOnTrack(c: Caller, q: Request, st: Store, now: nat, n: nat)
    requires OnTrack(c, q, n) && !q.phase.Checking?
    ensures OnTrack(c, Step(c.limits, q, st, now).0, n)
  {
  }

  lemma {:induction false} StepKeepsSound(limits: seq<LimitConfig>, q: Request, st: Store, now: nat)
    requires Sound(st) && RequestRate.Tagged(q)
    ensures Sound(Step(limits, q, st, now).1)
  {
    var st' := Step(limits, q, st, now).1;
    forall scope, b ensures st'.Window(("rpm:" + scope, WINDOW_MS, b)) >= 0 {
      assert st.Window(("rpm:" + scope, WINDOW_MS, b)) >= 0;
      assert ("rpm:" + scope)[0] == 'r';
      StepKeepsWindow(limits, q, st, now, ("rpm:" + scope, WINDOW_MS, b));
    }
  }

  lemma {:induction false} StepKeepsWindow(limits: seq<LimitConfig>, q: Request, st: Store, now: nat, key: WindowKey)
    requires RequestRate.Tagged(q) && |key.0| > 0 && key.0[0] == 'r'
    ensures Step(limits, q, st, now).1.Window(key) >= st.Window(key)
  {
    match q.phase
    case Checking(i, stage) =>
      if i < |limits| && ScopeOf(limits[i], q.keyId, q.projectId).Some? {
        var scope := ScopeOf(limits[i], q.keyId, q.projectId).value;
        assert ("tpm:" + scope)[0] == 't';
      }
    case _ =>
  }

  ghost predicate AllGood(w: World) {
    Sound(w.store) && RequestRate.AllTagged(w)
  }

  lemma {:induction false} NextGood(limits: seq<LimitConfig>, w: World, e: Event)
    requires AllGood(w)
    ensures AllGood(Next(limits, w, e))
  {
    if e.Advance? && e.r < |w.requests| {
      StepKeepsSound(limits, w.requests[e.r], w.store, e.now);
      RequestRate.StepKeepsTags(limits, w.requests[e.r], w.store, e.now);
    }
  }

  lemma {:induction false} RunGood(limits: seq<LimitConfig>, w: World, events: seq<Event>)
    requires Initial(w)
    ensures AllGood(Run(limits, w, events))
    decreases |events|
  {
    if events != [] {
      RunGood(limits, w, events[..|events| - 1]);
      NextGood(limits, Run(limits, w, events[..|events| - 1]), events[|events| - 1]);
    }
  }

  lemma {:induction false} RunOnTrack(c: Caller, w: World, events: seq<Event>, r: nat) returns (n: nat)
    requires Initial(w) && r < |w.requests| && w.requests[r] == Arrive(c.keyId, c.projectId)
    ensures r < |Run(c.limits, w, events).requests| && OnTrack(c, Run(c.limits, w, events).requests[r], n)
    decreases |events|
  {
    if events == [] {
      n := 0;
      assert RequestAt(c, 0) == Arrive(c.keyId, c.projectId);
    } else {
      var before, e := events[..|events| - 1], events[|events| - 1];
      n := RunOnTrack(c, w, before, r);
      RunGood(c.limits, w, before);
      var mid := Run(c.limits, w, before);
      if e.Advance? && e.r == r {
        if mid.requests[r].phase.Checking? {
          n := CheckingOnTrack(c, mid.store, e.now, n);
        } else {
          LeavingOnTrack(c, mid.requests[r], mid.store, e.now, n);
        }
      }
    }
  }

  /** In every interleaving: a rejected request keeps a token reservation only if, among the checks that apply to it, a
      token limit that can be reached is followed by another check. */
  lemma LeakNeedsFollower(c: Caller, w: World, events: seq<Event>, r: nat)
    requires Initial(w) && r < |w.requests| && w.requests[r] == Arrive(c.keyId, c.projectId)
    requires r < |Run(c.limits, w, events).requests|
    requires
      var q := Run(c.limits, w, events).requests[r];
      q.phase == Done(false) && q.reservations != []
    ensures exists b: nat :: FollowedAt(c, b)
  {
    var b := RunOnTrack(c, w, events, r);
    assert FollowedAt(c, b);
  }
}
