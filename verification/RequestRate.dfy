/** Requests-per-minute limits: how many checks a fixed window lets through. */
module RequestRate {
  import opened Common
  import opened MemoryCounters
  import opened Admission

  /** Checks made against `key` in bucket `b`, and how many of them passed. */
  function Checks(log: seq<RpmCheck>, key: string, b: nat): nat {
    if log == [] then 0
    else Checks(log[..|log| - 1], key, b)
         + Unit(log[|log| - 1].key == key && Bucket(log[|log| - 1].at, WINDOW_MS) == b)
  }

  function Passes(log: seq<RpmCheck>, key: string, b: nat): nat {
    if log == [] then 0
    else Passes(log[..|log| - 1], key, b)
         + Unit(log[|log| - 1].key == key && Bucket(log[|log| - 1].at, WINDOW_MS) == b && log[|log| - 1].passed)
  }

  /** Every RPM limit that can apply to the counter `key` has the same cap. */
  ghost predicate RpmCap(limits: seq<LimitConfig>, key: string, rpm: nat) {
    forall i, k, p :: 0 <= i < |limits| && ScopeOf(limits[i], k, p).Some? && limits[i].rpm.Some?
                      && "rpm:" + ScopeOf(limits[i], k, p).value == key
                      ==> limits[i].rpm.value == rpm
  }

  ghost predicate Tagged(q: Request) {
    && (q.phase.RollingBack? ==> |q.phase.key| > 0 && q.phase.key[0] == 't')
    && (forall i :: 0 <= i < |q.reservations| ==> |q.reservations[i].key| > 0 && q.reservations[i].key[0] == 't')
  }

  ghost predicate AllTagged(w: World) {
    forall i :: 0 <= i < |w.requests| ==> Tagged(w.requests[i])
  }

  ghost predicate RateInvariant(w: World, key: string, rpm: nat, b: nat) {
    && AllTagged(w)
    && w.store.Window((key, WINDOW_MS, b)) == Checks(w.rpmLog, key, b)
    && Passes(w.rpmLog, key, b) == Min(Checks(w.rpmLog, key, b), rpm)
  }

  lemma StepKeepsTags(limits: seq<LimitConfig>, q: Request, st: Store, now: nat)
    requires Tagged(q)
    ensures Tagged(Step(limits, q, st, now).0)
  {
    match q.phase {
      case Checking(i, stage) =>
        if i < |limits| && ScopeOf(limits[i], q.keyId, q.projectId).Some? {
          var scope := ScopeOf(limits[i], q.keyId, q.projectId).value;
          assert ("tpm:" + scope)[0] == 't';
        }
      case _ =>
    }
  }

  /** A step touches an RPM bucket only by the check it makes, which adds one and passes up to the cap. */
  lemma StepCounts(limits: seq<LimitConfig>, q: Request, st: Store, now: nat, scope: string, rpm: nat, b: nat)
    requires RpmCap(limits, "rpm:" + scope, rpm) && Tagged(q)
    ensures
      var k := ("rpm:" + scope, WINDOW_MS, b);
      var check := RpmCheckOf(limits, q, st, now);
      var hit := check.Some? && check.value.key == k.0 && Bucket(check.value.at, WINDOW_MS) == b;
      && Step(limits, q, st, now).1.Window(k) == st.Window(k) + Unit(hit)
      && (hit && st.Window(k) >= 0 ==> (check.value.passed <==> st.Window(k) + 1 <= rpm))
  {
    assert ("rpm:" + scope)[0] == 'r';
    match q.phase {
      case Checking(i, stage) =>
        if i < |limits| && ScopeOf(limits[i], q.keyId, q.projectId).Some? {
          var sc := ScopeOf(limits[i], q.keyId, q.projectId).value;
          assert ("tpm:" + sc)[0] == 't';
        }
      case _ =>
    }
  }

  lemma RateStep(limits: seq<LimitConfig>, w: World, e: Event, scope: string, rpm: nat, b: nat)
    requires RpmCap(limits, "rpm:" + scope, rpm) && RateInvariant(w, "rpm:" + scope, rpm, b)
    ensures RateInvariant(Next(limits, w, e), "rpm:" + scope, rpm, b)
  {
    if e.Advance? && e.r < |w.requests| {
      var q := w.requests[e.r];
      StepKeepsTags(limits, q, w.store, e.now);
      StepCounts(limits, q, w.store, e.now, scope, rpm, b);
      var w' := Next(limits, w, e);
      if RpmCheckOf(limits, q, w.store, e.now).Some? {
        assert w'.rpmLog[..|w'.rpmLog| - 1] == w.rpmLog;
      }
    }
  }

  lemma {:induction false} RateHolds(
      limits: seq<LimitConfig>, w: World, events: seq<Event>, scope: string, rpm: nat, b: nat)
    requires Initial(w) && RpmCap(limits, "rpm:" + scope, rpm)
    ensures RateInvariant(Run(limits, w, events), "rpm:" + scope, rpm, b)
    decreases |events|
  {
    if events != [] {
      var before := events[..|events| - 1];
      RateHolds(limits, w, before, scope, rpm, b);
      RateStep(limits, Run(limits, w, before), events[|events| - 1], scope, rpm, b);
    }
  }

  /** In every interleaved run, of the n checks that hit one bucket of an RPM counter exactly min(n, rpm) pass. */
  lemma ExactlyCapPasses(limits: seq<LimitConfig>, w: World, events: seq<Event>, scope: string, rpm: nat, b: nat)
    requires Initial(w) && RpmCap(limits, "rpm:" + scope, rpm)
    ensures
      var log := Run(limits, w, events).rpmLog;
      Passes(log, "rpm:" + scope, b) == Min(Checks(log, "rpm:" + scope, b), rpm)
  {
    RateHolds(limits, w, events, scope, rpm, b);
  }

  /** Passed checks whose clock reading lies in [from, from + 60 s). */
  function PassesWithin(log: seq<RpmCheck>, key: string, from: nat): nat {
    if log == [] then 0
    else PassesWithin(log[..|log| - 1], key, from)
         + Unit(var c := log[|log| - 1]; c.key == key && from <= c.at < from + WINDOW_MS && c.passed)
  }

  lemma {:induction false} TwoBuckets(log: seq<RpmCheck>, key: string, from: nat)
    ensures PassesWithin(log, key, from)
         <= Passes(log, key, from / WINDOW_MS) + Passes(log, key, from / WINDOW_MS + 1)
  {
    if log != [] {
      TwoBuckets(log[..|log| - 1], key, from);
    }
  }

  /** Hence at most twice the cap passes in any 60-second interval, wherever it starts. */
  lemma AtMostTwiceCap(limits: seq<LimitConfig>, w: World, events: seq<Event>, scope: string, rpm: nat, from: nat)
    requires Initial(w) && RpmCap(limits, "rpm:" + scope, rpm)
    ensures PassesWithin(Run(limits, w, events).rpmLog, "rpm:" + scope, from) <= 2 * rpm
  {
    TwoBuckets(Run(limits, w, events).rpmLog, "rpm:" + scope, from);
    ExactlyCapPasses(limits, w, events, scope, rpm, from / WINDOW_MS);
    ExactlyCapPasses(limits, w, events, scope, rpm, from / WINDOW_MS + 1);
  }
}
