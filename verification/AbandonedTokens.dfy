/**
Token reservations that a rejected request leaves behind. A check that fails gives back its own
pre-deduction and every slot, but not the pre-deductions of earlier limits. Here it is settled what
one check does to a TPM counter, and for which configurations a rejection can leave tokens charged.
 */
module AbandonedTokens {
  import opened Common
  import opened MemoryCounters
  import opened Admission
  import opened TokenConservation
  import opened CheckLimits

  /** What a request does alone changes a TPM counter, summed over its buckets, by exactly what the request owes
      more at the end: nothing for slots, rejected pre-deductions or other limits. */
  lemma {:induction false} TokensAfterCheck(
      limits: seq<LimitConfig>, q: Request, st: Store, clock: nat -> nat, k: nat, scope: string)
    requires Unsettled(q)
    ensures Balances(q, st, Alone(limits, q, st, clock, k), "tpm:" + scope)
    decreases Remaining(limits, q)
  {
    if !Resting(q.phase) {
      var (q', st') := Step(limits, q, st, clock(k));
      StepProgress(limits, q, st, clock(k));
      StepBalances(limits, q, st, clock(k), scope);
      TokensAfterCheck(limits, q', st', clock, k + 1, scope);
    }
  }

  // ---- The checks of one caller, in order ----

  datatype Caller = Caller(limits: seq<LimitConfig>, keyId: string, projectId: string) {
    function Scope(i: nat): Option<string>
      requires i < |limits|
    {
      ScopeOf(limits[i], keyId, projectId)
    }
  }

  datatype Check = Rpm(scope: string, cap: nat) | Tpm(scope: string, cap: nat) | Slot(scope: string, cap: nat)

  /** Where the caller is after `n` steps when every check so far has passed. */
  function Place(c: Caller, n: nat): (nat, Stage) {
    if n == 0 then (0, AtRpm)
    else
      var (i, stage) := Place(c, n - 1);
      if i >= |c.limits| then (i, stage)
      else if c.Scope(i).None? || stage == AtConcurrency then (i + 1, AtRpm)
      else (i, if stage == AtRpm then AtTpm else AtConcurrency)
  }

  /** The check that the `n`-th step makes, if it makes one. */
  function CheckAt(c: Caller, n: nat): Option<Check> {
    var (i, stage) := Place(c, n);
    if i >= |c.limits| || c.Scope(i).None? then None
    else
      var limit, scope := c.limits[i], c.Scope(i).value;
      match stage
      case AtRpm => if limit.rpm.Some? then Some(Rpm(scope, limit.rpm.value)) else None
      case AtTpm => if limit.tpm.Some? then Some(Tpm(scope, limit.tpm.value)) else None
      case AtConcurrency => if limit.concurrency.Some? then Some(Slot(scope, limit.concurrency.value)) else None
  }

  predicate IsSlot(check: Option<Check>, scope: string) {
    check.Some? && check.value.Slot? && check.value.scope == scope
  }

  /** How many slots of `scope` the first `n` steps take. */
  function SlotsBefore(c: Caller, scope: string, n: nat): nat {
    if n == 0 then 0 else SlotsBefore(c, scope, n - 1) + Unit(IsSlot(CheckAt(c, n - 1), scope))
  }

  /** The reservations and permits that the first `n` steps gather. */
  function Charged(c: Caller, n: nat): seq<Reservation> {
    if n == 0 then []
    else
      Charged(c, n - 1) + match CheckAt(c, n - 1)
      case Some(Tpm(scope, _)) => [Reservation("tpm:" + scope, None)]
      case _ => []
  }

  function Taken(c: Caller, n: nat): seq<string> {
    if n == 0 then []
    else
      Taken(c, n - 1) + match CheckAt(c, n - 1)
      case Some(Slot(scope, _)) => ["conc:" + scope]
      case _ => []
  }

  function RequestAt(c: Caller, n: nat): Request {
    Request(c.keyId, c.projectId, Checking(Place(c, n).0, Place(c, n).1), Taken(c, n), Charged(c, n))
  }

  /** The check of the `n`-th step passes on this store at this time. */
  predicate Passes(c: Caller, st: Store, now: nat, n: nat) {
    match CheckAt(c, n)
    case None => true
    case Some(Rpm(scope, cap)) => AsU64(st.Window(("rpm:" + scope, WINDOW_MS, Bucket(now, WINDOW_MS))) + 1) <= cap
    case Some(Tpm(scope, cap)) =>
      AsU64(st.Window(("tpm:" + scope, WINDOW_MS, Bucket(now, WINDOW_MS))) + DEFAULT_TOKEN_PREDEDUCT) <= cap
    case Some(Slot(scope, cap)) => CanAcquire(st, "conc:" + scope, cap)
  }

  predicate Checks(c: Caller, n: nat) {
    Place(c, n).0 < |c.limits|
  }

  /** What a passed check does to the store. */
  function Apply(check: Option<Check>, st: Store, now: nat): Store {
    match check
    case None => st
    case Some(Rpm(scope, _)) => Incremented(st, "rpm:" + scope, WINDOW_MS, now, 1)
    case Some(Tpm(scope, _)) => Incremented(st, "tpm:" + scope, WINDOW_MS, now, DEFAULT_TOKEN_PREDEDUCT)
    case Some(Slot(scope, cap)) => Acquired(st, "conc:" + scope, cap)
  }

  lemma PassStep(c: Caller, st: Store, now: nat, n: nat)
    requires Checks(c, n) && Passes(c, st, now, n)
    ensures Step(c.limits, RequestAt(c, n), st, now) == (RequestAt(c, n + 1), Apply(CheckAt(c, n), st, now))
  {
    var q := RequestAt(c, n);
    assert q.permits + [] == q.permits && q.reservations + [] == q.reservations;
  }

  /** A failed check keeps what was reserved before it. */
  lemma RefuseStep(c: Caller, st: Store, now: nat, n: nat)
    requires Checks(c, n) && !Passes(c, st, now, n)
    ensures
      var q := Step(c.limits, RequestAt(c, n), st, now).0;
      (q.phase == Dropping(false) || q.phase.RollingBack?) && q.reservations == Charged(c, n)
  {
  }

  lemma {:induction false} EndsRejected(limits: seq<LimitConfig>, q: Request, st: Store, clock: nat -> nat, k: nat)
    requires q.phase == Dropping(false) || q.phase.RollingBack?
    ensures
      var end := Alone(limits, q, st, clock, k).0;
      end.phase == Done(false) && end.reservations == q.reservations
    decreases Remaining(limits, q)
  {
    var (q', st') := Step(limits, q, st, clock(k));
    StepProgress(limits, q, st, clock(k));
    if !Resting(q'.phase) {
      EndsRejected(limits, q', st', clock, k + 1);
    }
  }

  /** What the request is in the end, when it is at its `n`-th step now. */
  function Checked(c: Caller, st: Store, clock: nat -> nat, n: nat): Request {
    Alone(c.limits, RequestAt(c, n), st, clock, n).0
  }

  lemma CheckedPass(c: Caller, st: Store, clock: nat -> nat, n: nat)
    requires Checks(c, n) && Passes(c, st, clock(n), n)
    ensures Checked(c, st, clock, n) == Checked(c, Apply(CheckAt(c, n), st, clock(n)), clock, n + 1)
  {
    PassStep(c, st, clock(n), n);
    Unfold(c.limits, RequestAt(c, n), st, clock, n);
  }

  lemma CheckedRefuse(c: Caller, st: Store, clock: nat -> nat, n: nat)
    requires Checks(c, n) && !Passes(c, st, clock(n), n)
    ensures Checked(c, st, clock, n).phase == Done(false) && Checked(c, st, clock, n).reservations == Charged(c, n)
  {
    RefuseStep(c, st, clock(n), n);
    Unfold(c.limits, RequestAt(c, n), st, clock, n);
    var (q, st') := Step(c.limits, RequestAt(c, n), st, clock(n));
    EndsRejected(c.limits, q, st', clock, n + 1);
  }

  lemma CheckedAll(c: Caller, st: Store, clock: nat -> nat, n: nat)
    requires !Checks(c, n)
    ensures Checked(c, st, clock, n).phase == Admitted
  {
    Unfold(c.limits, RequestAt(c, n), st, clock, n);
    assert Step(c.limits, RequestAt(c, n), st, clock(n)).0.phase == Admitted;
  }

  /** An upper bound on the steps still to come. */
  function Left(c: Caller, n: nat): nat {
    var (i, stage) := Place(c, n);
    if i >= |c.limits| then 0
    else 3 * (|c.limits| - i) + 1 - match stage case AtRpm => 0 case AtTpm => 1 case AtConcurrency => 2
  }

  /** The step at which the checks, run alone from step `n` on, are refused, if they are. */
  function Refusal(c: Caller, st: Store, clock: nat -> nat, n: nat): Option<nat>
    decreases Left(c, n)
  {
    if !Checks(c, n) then None
    else if !Passes(c, st, clock(n), n) then Some(n)
    else Refusal(c, Apply(CheckAt(c, n), st, clock(n)), clock, n + 1)
  }

  /** A check that runs alone is rejected at the first step that does not pass, with the reservations made before. */
  lemma {:induction false} CheckedIs(c: Caller, st: Store, clock: nat -> nat, n: nat)
    ensures
      var end, b := Checked(c, st, clock, n), Refusal(c, st, clock, n);
      && (end.phase == Done(false) <==> b.Some?)
      && (b.Some? ==> end.reservations == Charged(c, b.value))
    decreases Left(c, n)
  {
    if !Checks(c, n) {
      CheckedAll(c, st, clock, n);
    } else if Passes(c, st, clock(n), n) {
      CheckedPass(c, st, clock, n);
      CheckedIs(c, Apply(CheckAt(c, n), st, clock(n)), clock, n + 1);
    } else {
      CheckedRefuse(c, st, clock, n);
    }
  }

  // ---- Along the way ----

  /** The store before the `n`-th step, while all checks pass. */
  function Before(c: Caller, st: Store, clock: nat -> nat, n: nat): Store {
    if n == 0 then st else Apply(CheckAt(c, n - 1), Before(c, st, clock, n - 1), clock(n - 1))
  }

  ghost predicate PassesAt(c: Caller, st: Store, clock: nat -> nat, n: nat) {
    Passes(c, Before(c, st, clock, n), clock(n), n)
  }

  /** Step `b` is the first to be refused. */
  ghost predicate RefusedFirst(c: Caller, st: Store, clock: nat -> nat, b: nat) {
    && Checks(c, b) && !PassesAt(c, st, clock, b)
    && forall k :: 0 <= k < b ==> Checks(c, k) && PassesAt(c, st, clock, k)
  }

  lemma {:induction false} RefusalReached(c: Caller, st: Store, clock: nat -> nat, n: nat, b: nat)
    requires RefusedFirst(c, st, clock, b) && n <= b
    ensures Refusal(c, Before(c, st, clock, n), clock, n) == Some(b)
    decreases b - n
  {
    if n < b {
      assert Checks(c, n) && PassesAt(c, st, clock, n);
      RefusalReached(c, st, clock, n + 1, b);
    }
  }

  lemma {:induction false} RefusalMeans(c: Caller, st: Store, clock: nat -> nat, n: nat, b: nat)
    requires Refusal(c, Before(c, st, clock, n), clock, n) == Some(b)
    requires forall k :: 0 <= k < n ==> Checks(c, k) && PassesAt(c, st, clock, k)
    ensures RefusedFirst(c, st, clock, b)
    decreases Left(c, n)
  {
    if PassesAt(c, st, clock, n) {
      RefusalMeans(c, st, clock, n + 1, b);
    }
  }

  /** A request whose first failing check is step `b` is rejected with the reservations made before it. */
  lemma RefusedOutcome(c: Caller, st: Store, clock: nat -> nat, b: nat)
    requires RefusedFirst(c, st, clock, b)
    ensures
      var end := Alone(c.limits, Arrive(c.keyId, c.projectId), st, clock, 0).0;
      end.phase == Done(false) && end.reservations == Charged(c, b)
  {
    RefusalReached(c, st, clock, 0, b);
    assert RequestAt(c, 0) == Arrive(c.keyId, c.projectId) && Before(c, st, clock, 0) == st;
    CheckedIs(c, st, clock, 0);
  }

  lemma {:induction false} SlotsGrow(c: Caller, st: Store, clock: nat -> nat, n: nat, scope: string)
    requires forall k :: 0 <= k < n ==> PassesAt(c, st, clock, k)
    ensures Before(c, st, clock, n).Slots("conc:" + scope) == st.Slots("conc:" + scope) + SlotsBefore(c, scope, n)
  {
    if n > 0 {
      SlotsGrow(c, st, clock, n - 1, scope);
      assert PassesAt(c, st, clock, n - 1);
      var check := CheckAt(c, n - 1);
      if check.Some? && check.value.Slot? {
        Tails("conc:", scope, check.value.scope);
      }
    }
  }

  lemma Tails(tag: string, a: string, b: string)
    ensures tag + a == tag + b <==> a == b
  {
    assert (tag + a)[|tag|..] == a && (tag + b)[|tag|..] == b;
  }

  // ---- Which configurations leave tokens charged ----

  /** Some store lets the check pass after the ones before it: a request counts itself, and each slot check of a
      scope finds the slots that the earlier ones took. */
  predicate MayPass(c: Caller, n: nat) {
    match CheckAt(c, n)
    case Some(Rpm(_, cap)) => cap >= 1
    case Some(Slot(scope, cap)) => cap > SlotsBefore(c, scope, n)
    case _ => true
  }

  /** What is left of a slot cap at the `n`-th step. */
  function Margin(c: Caller, n: nat): int
    requires CheckAt(c, n).Some? && CheckAt(c, n).value.Slot?
  {
    CheckAt(c, n).value.cap - SlotsBefore(c, CheckAt(c, n).value.scope, n)
  }

  /** Some store makes it the first to fail: a slot check only if it leaves less than each earlier one of its scope. */
  ghost predicate MayRefuse(c: Caller, n: nat) {
    CheckAt(c, n).Some? &&
    (CheckAt(c, n).value.Slot? ==>
       forall k :: 0 <= k < n && IsSlot(CheckAt(c, k), CheckAt(c, n).value.scope) ==> Margin(c, n) < Margin(c, k))
  }

  /** A token limit is followed by a check that can fail first. */
  ghost predicate Leaky(c: Caller) {
    exists b: nat :: LeaksAt(c, b)
  }

  ghost predicate LeaksAt(c: Caller, b: nat) {
    Charged(c, b) != [] && MayRefuse(c, b) && forall k :: 0 <= k < b ==> MayPass(c, k)
  }

  /** Request counters never go below zero; token counters may. */
  ghost predicate Sound(st: Store) {
    forall scope, b :: st.Window(("rpm:" + scope, WINDOW_MS, b)) >= 0
  }

  /** On this store and clock the request is rejected and keeps a reservation. */
  ghost predicate Leaks(c: Caller, st: Store, clock: nat -> nat) {
    var end := Alone(c.limits, Arrive(c.keyId, c.projectId), st, clock, 0).0;
    Sound(st) && end.phase == Done(false) && end.reservations != []
  }

  lemma {:induction false} StaysSound(c: Caller, st: Store, clock: nat -> nat, n: nat)
    requires Sound(st)
    ensures Sound(Before(c, st, clock, n))
  {
    if n > 0 {
      StaysSound(c, st, clock, n - 1);
      var mid, now := Before(c, st, clock, n - 1), Before(c, st, clock, n);
      forall scope, b ensures now.Window(("rpm:" + scope, WINDOW_MS, b)) >= 0 {
        assert mid.Window(("rpm:" + scope, WINDOW_MS, b)) >= 0;
        assert ("rpm:" + scope)[0] == 'r';
        var check := CheckAt(c, n - 1);
        if check.Some? && check.value.Tpm? {
          assert ("tpm:" + check.value.scope)[0] == 't';
        }
      }
    }
  }

  lemma PassedMayPass(c: Caller, st: Store, clock: nat -> nat, n: nat)
    requires Sound(st) && PassesAt(c, st, clock, n)
    requires forall k :: 0 <= k < n ==> PassesAt(c, st, clock, k)
    ensures MayPass(c, n)
  {
    match CheckAt(c, n)
    case Some(Rpm(scope, _)) =>
      StaysSound(c, st, clock, n);
      assert Before(c, st, clock, n).Window(("rpm:" + scope, WINDOW_MS, Bucket(clock(n), WINDOW_MS))) >= 0;
    case Some(Slot(scope, _)) => SlotsGrow(c, st, clock, n, scope);
    case _ =>
  }

  lemma RefusedMayRefuse(c: Caller, st: Store, clock: nat -> nat, n: nat)
    requires RefusedFirst(c, st, clock, n)
    ensures MayRefuse(c, n)
  {
    if CheckAt(c, n).value.Slot? {
      var scope := CheckAt(c, n).value.scope;
      SlotsGrow(c, st, clock, n, scope);
      forall k | 0 <= k < n && IsSlot(CheckAt(c, k), scope) ensures Margin(c, n) < Margin(c, k) {
        SlotsGrow(c, st, clock, k, scope);
        assert PassesAt(c, st, clock, k);
      }
    }
  }

  /** A slot check that leaves no less than an earlier one of its scope is never the first to fail, and nothing
      behind a request limit of zero is ever reached. So a check that follows a token limit need not be able to
      reject. */
  lemma NeverFirst(c: Caller, st: Store, clock: nat -> nat, k: nat, n: nat)
    requires Sound(st) && k < n && CheckAt(c, k).Some? && CheckAt(c, n).Some?
    requires || (CheckAt(c, k).value.Rpm? && CheckAt(c, k).value.cap == 0)
             || (&& CheckAt(c, n).value.Slot? && IsSlot(CheckAt(c, k), CheckAt(c, n).value.scope)
                 && Margin(c, n) >= Margin(c, k))
    ensures !RefusedFirst(c, st, clock, n)
  {
    if RefusedFirst(c, st, clock, n) {
      RefusedMayRefuse(c, st, clock, n);
      assert PassesAt(c, st, clock, k);
      PassedMayPass(c, st, clock, k);
    }
  }

  lemma LeakIsConfigured(c: Caller, st: Store, clock: nat -> nat)
    requires Leaks(c, st, clock)
    ensures Leaky(c)
  {
    assert RequestAt(c, 0) == Arrive(c.keyId, c.projectId) && Before(c, st, clock, 0) == st;
    CheckedIs(c, st, clock, 0);
    var b := Refusal(c, st, clock, 0).value;
    RefusalMeans(c, st, clock, 0, b);
    RefusedMayRefuse(c, st, clock, b);
    forall k | 0 <= k < b ensures MayPass(c, k) {
      assert PassesAt(c, st, clock, k);
      PassedMayPass(c, st, clock, k);
    }
    assert LeaksAt(c, b);
  }

  // ---- A store and a clock for every such configuration ----

  /** A clock that reaches a new window with every step. */
  function Minutes(n: nat): nat {
    n * WINDOW_MS
  }

  lemma MinuteBucket(n: nat)
    ensures Bucket(Minutes(n), WINDOW_MS) == n
  {
  }

  /** The counter that step `k` is to find: full when it is the one to fail, and for the token checks before it
      low enough for any cap. */
  function Prime(c: Caller, b: nat, k: nat): Option<(WindowKey, int)> {
    match CheckAt(c, k)
    case Some(Tpm(scope, cap)) =>
      Some((("tpm:" + scope, WINDOW_MS, k), if k == b then cap else -DEFAULT_TOKEN_PREDEDUCT))
    case Some(Rpm(scope, cap)) => if k == b then Some((("rpm:" + scope, WINDOW_MS, k), cap)) else None
    case _ => None
  }

  function Primed(c: Caller, b: nat, n: nat): map<WindowKey, int> {
    if n == 0 then map[]
    else
      var before := Primed(c, b, n - 1);
      match Prime(c, b, n - 1)
      case None => before
      case Some((key, v)) => before[key := v]
  }

  lemma {:induction false} PrimedAt(c: Caller, b: nat, n: nat, key: WindowKey)
    ensures
      var p := Prime(c, b, key.2);
      Get(Primed(c, b, n), key) == if key.2 < n && p.Some? && p.value.0 == key then Some(p.value.1) else None
  {
    if n > 0 {
      PrimedAt(c, b, n - 1, key);
    }
  }

  function PrimedSlots(c: Caller, b: nat): map<string, nat> {
    match CheckAt(c, b)
    case Some(Slot(scope, _)) => map["conc:" + scope := Max(0, Margin(c, b))]
    case _ => map[]
  }

  function PrimedStore(c: Caller, b: nat): Store {
    Store(Primed(c, b, b + 1), PrimedSlots(c, b))
  }

  lemma PrimedIsSound(c: Caller, b: nat)
    ensures Sound(PrimedStore(c, b))
  {
    forall scope, m ensures PrimedStore(c, b).Window(("rpm:" + scope, WINDOW_MS, m)) >= 0 {
      PrimedAt(c, b, b + 1, ("rpm:" + scope, WINDOW_MS, m));
      assert ("rpm:" + scope)[0] == 'r';
      if CheckAt(c, m).Some? && CheckAt(c, m).value.Tpm? {
        assert ("tpm:" + CheckAt(c, m).value.scope)[0] == 't';
      }
    }
  }

  /** The step that looks at a window is the first to touch it. */
  lemma {:induction false} Untouched(c: Caller, st: Store, n: nat, key: WindowKey)
    requires key.2 >= n
    ensures Before(c, st, Minutes, n).Window(key) == st.Window(key)
  {
    if n > 0 {
      Untouched(c, st, n - 1, key);
      MinuteBucket(n - 1);
    }
  }

  lemma PrimedPasses(c: Caller, b: nat, n: nat)
    requires LeaksAt(c, b) && n < b && forall k :: 0 <= k < n ==> PassesAt(c, PrimedStore(c, b), Minutes, k)
    ensures PassesAt(c, PrimedStore(c, b), Minutes, n)
  {
    var st := PrimedStore(c, b);
    assert MayPass(c, n);
    MinuteBucket(n);
    match CheckAt(c, n)
    case None =>
    case Some(Rpm(scope, _)) =>
      Untouched(c, st, n, ("rpm:" + scope, WINDOW_MS, n));
      PrimedAt(c, b, b + 1, ("rpm:" + scope, WINDOW_MS, n));
    case Some(Tpm(scope, _)) =>
      Untouched(c, st, n, ("tpm:" + scope, WINDOW_MS, n));
      PrimedAt(c, b, b + 1, ("tpm:" + scope, WINDOW_MS, n));
    case Some(Slot(scope, _)) =>
      SlotsGrow(c, st, Minutes, n, scope);
      PrimedSlotsAt(c, b, n);
  }

  lemma PrimedSlotsAt(c: Caller, b: nat, n: nat)
    requires LeaksAt(c, b) && n < b && CheckAt(c, n).Some? && CheckAt(c, n).value.Slot?
    ensures PrimedStore(c, b).Slots("conc:" + CheckAt(c, n).value.scope) < Margin(c, n)
  {
    var scope := CheckAt(c, n).value.scope;
    assert MayPass(c, n);
    match CheckAt(c, b)
    case Some(Slot(last, _)) =>
      Tails("conc:", scope, last);
      assert scope == last ==> IsSlot(CheckAt(c, n), last) && Margin(c, b) < Margin(c, n);
    case _ =>
  }

  lemma PrimedRefuses(c: Caller, b: nat)
    requires LeaksAt(c, b) && forall k :: 0 <= k < b ==> PassesAt(c, PrimedStore(c, b), Minutes, k)
    ensures !PassesAt(c, PrimedStore(c, b), Minutes, b)
  {
    var st := PrimedStore(c, b);
    MinuteBucket(b);
    match CheckAt(c, b)
    case Some(Rpm(scope, _)) =>
      Untouched(c, st, b, ("rpm:" + scope, WINDOW_MS, b));
      PrimedAt(c, b, b + 1, ("rpm:" + scope, WINDOW_MS, b));
    case Some(Tpm(scope, _)) =>
      Untouched(c, st, b, ("tpm:" + scope, WINDOW_MS, b));
      PrimedAt(c, b, b + 1, ("tpm:" + scope, WINDOW_MS, b));
    case Some(Slot(scope, _)) => SlotsGrow(c, st, Minutes, b, scope);
    case None =>
  }

  lemma {:induction false} PrimedAllPass(c: Caller, b: nat, n: nat)
    requires LeaksAt(c, b) && n <= b
    ensures forall k :: 0 <= k < n ==> PassesAt(c, PrimedStore(c, b), Minutes, k)
  {
    if n > 0 {
      PrimedAllPass(c, b, n - 1);
      PrimedPasses(c, b, n - 1);
    }
  }

  lemma {:induction false} PlacesBefore(c: Caller, k: nat, n: nat)
    requires k <= n && Checks(c, n)
    ensures Checks(c, k)
    decreases n
  {
    if k < n {
      assert Checks(c, n - 1);
      PlacesBefore(c, k, n - 1);
    }
  }

  lemma ConfiguredLeaks(c: Caller, b: nat)
    requires LeaksAt(c, b)
    ensures Leaks(c, PrimedStore(c, b), Minutes)
  {
    var st := PrimedStore(c, b);
    PrimedAllPass(c, b, b);
    PrimedRefuses(c, b);
    assert Checks(c, b);
    forall k | 0 <= k < b ensures Checks(c, k) { PlacesBefore(c, k, b); }
    RefusedOutcome(c, st, Minutes, b);
    PrimedIsSound(c, b);
  }

  /** Some store and clock give a rejection that keeps a token reservation if and only if, among the checks that apply
      to the caller, a token check that can be reached is followed by one that can be the first to fail. */
  lemma LeaksExactly(c: Caller)
    ensures (exists st, clock :: Leaks(c, st, clock)) <==> Leaky(c)
  {
    if st, clock :| Leaks(c, st, clock) {
      LeakIsConfigured(c, st, clock);
    }
    if b: nat :| LeaksAt(c, b) {
      ConfiguredLeaks(c, b);
    }
  }

  function Midnight(n: nat): nat {
    0
  }

  const TIGHT := LimitConfig("global", None, None, Some(2000), Some(0))

  lemma TightChecks(c: Caller)
    requires c.limits == [TIGHT]
    ensures Place(c, 0) == (0, AtRpm) && Place(c, 1) == (0, AtTpm) && Place(c, 2) == (0, AtConcurrency)
    ensures CheckAt(c, 0) == None && CheckAt(c, 1) == Some(Tpm("global", 2000))
    ensures CheckAt(c, 2) == Some(Slot("global", 0))
    ensures Charged(c, 2) == [Reservation("tpm:global", None)]
  {
    assert c.Scope(0) == Some("global");
    assert Place(c, 0) == (0, AtRpm);
    assert Place(c, 1) == (0, AtTpm);
    assert "tpm:" + "global" == "tpm:global";
    assert Charged(c, 0) == [];
    assert Charged(c, 1) == [];
  }

  lemma TightRefuses(c: Caller)
    requires c.limits == [TIGHT]
    ensures RefusedFirst(c, EMPTY, Midnight, 2)
  {
    TightChecks(c);
    assert Before(c, EMPTY, Midnight, 0) == EMPTY;
    assert Before(c, EMPTY, Midnight, 1) == EMPTY;
    assert PassesAt(c, EMPTY, Midnight, 0) && PassesAt(c, EMPTY, Midnight, 1);
    forall k | 0 <= k < 2 ensures Checks(c, k) && PassesAt(c, EMPTY, Midnight, k) {
      assert k == 0 || k == 1;
    }
  }

  /** One limit with a token cap and no free slot: rejected, and 1024 tokens stay charged. */
  lemma LeakExample(c: Caller)
    requires c.limits == [TIGHT]
    ensures
      var (q, st) := Alone(c.limits, Arrive(c.keyId, c.projectId), EMPTY, Midnight, 0);
      && q.phase == Done(false) && q.reservations == [Reservation("tpm:global", None)]
      && Balance(st, "tpm:global") == DEFAULT_TOKEN_PREDEDUCT
  {
    TightChecks(c);
    TightRefuses(c);
    RefusedOutcome(c, EMPTY, Midnight, 2);
    OwedAfter(c, EMPTY, Midnight);
    OwesOne(Alone(c.limits, Arrive(c.keyId, c.projectId), EMPTY, Midnight, 0).0, "tpm:global");
  }

  lemma OwesOne(q: Request, key: string)
    requires q.reservations == [Reservation(key, None)] && q.phase.Done?
    ensures Owed(q, key) == DEFAULT_TOKEN_PREDEDUCT
  {
    assert q.reservations[..0] == [];
    assert ReservedBy([], key) == 0;
  }

  /** From an empty store the whole balance is what the request owes. */
  lemma OwedAfter(c: Caller, st: Store, clock: nat -> nat)
    requires st == EMPTY
    ensures
      var (q, st') := Alone(c.limits, Arrive(c.keyId, c.projectId), st, clock, 0);
      Balance(st', "tpm:global") == Owed(q, "tpm:global")
  {
    assert "tpm:" + "global" == "tpm:global";
    TokensAfterCheck(c.limits, Arrive(c.keyId, c.projectId), st, clock, 0, "global");
  }
}
