/**
`check_limits` over the Redis store. Window counters are single INCRBY commands, as in `Admission`;
a concurrency check is the INCR / compare / DECR protocol of `RedisSemaphore`, and a dropped permit
is given back later by a task of its own. A request can also be cancelled while such a call is
between its INCR and its end: then nobody gives that count back.
 */
module RedisAdmission {
  import opened Common
  import opened MemoryCounters
  import opened Admission
  import opened TokenConservation
  import RedisSemaphore

  const U32_RANGE := RedisSemaphore.U32_RANGE

  /** A concurrency call in progress: counted and still to be compared, or denied and still to be rolled back. */
  datatype Call = Idle | Counted(key: string, seen: int, max: nat) | Denied(key: string)

  datatype Client = Client(q: Request, call: Call)

  datatype Redis = Redis(
    store: Store,                  // the window counters
    counters: map<string, int>,    // the slot counters
    clients: seq<Client>,
    releasing: seq<string>,        // dropped permits whose task has not run
    leaked: seq<string>)           // counts of cancelled calls

  datatype Command =
    | Advance(r: nat, now: nat)
    | Reconcile(r: nat, actual: int)
    | Abandon(r: nat)
    | Release(i: nat)
    | Cancel(r: nat)

  function Counter(counters: map<string, int>, key: string): int {
    if key in counters then counters[key] else 0
  }

  function Bumped(counters: map<string, int>, key: string, amount: int): map<string, int> {
    counters[key := Counter(counters, key) + amount]
  }

  /** The slot that the request is about to ask for, with its cap. */
  function SlotWanted(limits: seq<LimitConfig>, q: Request): Option<(string, nat)> {
    if q.phase.Checking? && q.phase.stage == AtConcurrency && q.phase.limit < |limits| then
      var limit, scope := limits[q.phase.limit], ScopeOf(limits[q.phase.limit], q.keyId, q.projectId);
      if scope.Some? && limit.concurrency.Some? then Some(("conc:" + scope.value, limit.concurrency.value)) else None
    else None
  }

  function Decide(c: Client, key: string, seen: int, max: nat): Client {
    if RedisSemaphore.AsU32(seen) > max then c.(call := Denied(key))
    else
      var next := if c.q.phase.Checking? then Checking(c.q.phase.limit + 1, AtRpm) else c.q.phase;
      Client(c.q.(phase := next, permits := c.q.permits + [key]), Idle)
  }

  function DropOne(w: Redis, c: Client): (Client, Redis)
    requires c.q.permits != []
  {
    (c.(q := c.q.(permits := c.q.permits[1..])), w.(releasing := w.releasing + [c.q.permits[0]]))
  }

  /** Everything but concurrency calls and drops is as in `Admission`. */
  function Other(limits: seq<LimitConfig>, w: Redis, c: Client, now: nat): (Client, Redis) {
    var (q, st) := Step(limits, c.q, w.store, now);
    (c.(q := q), w.(store := st))
  }

  /** One command of one client. */
  function Go(limits: seq<LimitConfig>, w: Redis, c: Client, now: nat): (Client, Redis) {
    match c.call
    case Counted(key, seen, max) => (Decide(c, key, seen, max), w)
    case Denied(key) => (Client(c.q.(phase := Dropping(false)), Idle), w.(counters := Bumped(w.counters, key, -1)))
    case Idle =>
      match SlotWanted(limits, c.q)
      case Some((key, max)) =>
        (c.(call := Counted(key, Counter(w.counters, key) + 1, max)), w.(counters := Bumped(w.counters, key, 1)))
      case None =>
        if c.q.phase.Dropping? && c.q.permits != [] then DropOne(w, c) else Other(limits, w, c, now)
  }

  /** Cancelled in the middle of a concurrency call: the permits held are dropped, the count stays. */
  function Cancelled(w: Redis, c: Client): (Client, Redis) {
    if c.call.Idle? then (c, w)
    else (Client(c.q.(phase := Dropping(false)), Idle), w.(leaked := w.leaked + [c.call.key]))
  }

  function Put(next: (Client, Redis), r: nat): Redis
    requires r < |next.1.clients|
  {
    next.1.(clients := next.1.clients[r := next.0])
  }

  function Next(limits: seq<LimitConfig>, w: Redis, e: Command): Redis {
    match e
    case Release(i) =>
      if i >= |w.releasing| then w
      else w.(counters := Bumped(w.counters, w.releasing[i], -1), releasing := w.releasing[..i] + w.releasing[i + 1..])
    case Advance(r, now) => if r < |w.clients| then Put(Go(limits, w, w.clients[r], now), r) else w
    case Cancel(r) => if r < |w.clients| then Put(Cancelled(w, w.clients[r]), r) else w
    case Reconcile(r, actual) =>
      if r < |w.clients| && w.clients[r].q.phase.Admitted?
      then Put((w.clients[r].(q := w.clients[r].q.(phase := Reconciling(0, actual))), w), r) else w
    case Abandon(r) =>
      if r < |w.clients| && w.clients[r].q.phase.Admitted?
      then Put((w.clients[r].(q := w.clients[r].q.(phase := Dropping(true))), w), r) else w
  }

  function Run(limits: seq<LimitConfig>, w: Redis, events: seq<Command>): Redis {
    if events == [] then w else Next(limits, Run(limits, w, events[..|events| - 1]), events[|events| - 1])
  }

  ghost predicate Initial(w: Redis) {
    && w.store == EMPTY && w.counters == map[] && w.releasing == [] && w.leaked == []
    && forall i :: 0 <= i < |w.clients| ==>
         w.clients[i] == Client(Arrive(w.clients[i].q.keyId, w.clients[i].q.projectId), Idle)
  }

  // ---- A concurrency call is a call of the protocol ----

  /** The protocol's phase of a client's call; a client that is not in a call has none or holds its permit. */
  function PhaseOf(call: Call, granted: bool): RedisSemaphore.Phase {
    match call
    case Idle => if granted then RedisSemaphore.Holding else RedisSemaphore.Idle
    case Counted(_, seen, _) => RedisSemaphore.Counted(seen)
    case Denied(_) => RedisSemaphore.RollingBack
  }

  /** The counter of one key and one call on it, as a state of the protocol. */
  function OneCall(w: Redis, key: string, call: Call, granted: bool): RedisSemaphore.State {
    RedisSemaphore.State(Counter(w.counters, key), [PhaseOf(call, granted)])
  }

  /** The command that asks for a slot is the protocol's INCR, on the counter and with the cap of that limit. */
  lemma AskIsIncr(limits: seq<LimitConfig>, w: Redis, c: Client, now: nat)
    requires c.call.Idle? && SlotWanted(limits, c.q).Some?
    ensures
      var (key, max) := SlotWanted(limits, c.q).value;
      var (c', w') := Go(limits, w, c, now);
      && RedisSemaphore.Next(max, OneCall(w, key, c.call, false), RedisSemaphore.Incr(0))
         == OneCall(w', key, c'.call, false)
      && c'.q == c.q && c'.call.Counted? && c'.call.key == key && c'.call.max == max
      && forall k :: k != key ==> Counter(w'.counters, k) == Counter(w.counters, k)
  {
  }

  /** The next one is its comparison, which grants a permit or goes on to the rollback. */
  lemma DecideIsDecide(limits: seq<LimitConfig>, w: Redis, c: Client, now: nat)
    requires c.call.Counted? && c.q.phase.Checking?
    ensures
      var (c', w') := Go(limits, w, c, now);
      var granted := c'.call.Idle?;
      && RedisSemaphore.Next(c.call.max, OneCall(w, c.call.key, c.call, false), RedisSemaphore.Decide(0))
         == OneCall(w', c.call.key, c'.call, granted)
      && w' == w
      && c'.q.permits == c.q.permits + (if granted then [c.call.key] else [])
      && c'.q.phase == if granted then Checking(c.q.phase.limit + 1, AtRpm) else c.q.phase
  {
  }

  /** And after a denial its rollback, with which the request is rejected. */
  lemma DeniedIsRollBack(limits: seq<LimitConfig>, w: Redis, c: Client, now: nat)
    requires c.call.Denied?
    ensures
      var (c', w') := Go(limits, w, c, now);
      && RedisSemaphore.Next(0, OneCall(w, c.call.key, c.call, false), RedisSemaphore.RollBack(0))
         == OneCall(w', c.call.key, c'.call, false)
      && c'.q == c.q.(phase := Dropping(false))
  {
  }

  /** So whatever happens between its commands, a slot call ends with one more permit exactly when the counter was
      below the cap at its INCR; otherwise its third command takes the count back and the request is rejected. */
  lemma SlotCallOutcome(
      limits: seq<LimitConfig>, w1: Redis, w2: Redis, w3: Redis, c: Client, t1: nat, t2: nat, t3: nat)
    requires c.call.Idle? && SlotWanted(limits, c.q).Some?
    requires 0 <= Counter(w1.counters, SlotWanted(limits, c.q).value.0) < U32_RANGE - 1
    ensures
      var (key, max) := SlotWanted(limits, c.q).value;
      var c2 := Go(limits, w2, Go(limits, w1, c, t1).0, t2).0;
      var (c3, w3') := Go(limits, w3, c2, t3);
      if Counter(w1.counters, key) < max
      then c2 == Client(c.q.(permits := c.q.permits + [key], phase := Checking(c.q.phase.limit + 1, AtRpm)), Idle)
      else && c3 == Client(c.q.(phase := Dropping(false)), Idle)
           && Counter(w3'.counters, key) == Counter(w3.counters, key) - 1
  {
    AskIsIncr(limits, w1, c, t1);
  }

  /** Undisturbed, a slot call over Redis leaves the request as the memory store would, when that has as many slots
      taken as Redis counts. */
  lemma AgreesWithMemory(limits: seq<LimitConfig>, w: Redis, c: Client, st: Store, now: nat)
    requires c.call.Idle? && SlotWanted(limits, c.q).Some?
    requires
      var key := SlotWanted(limits, c.q).value.0;
      st.Slots(key) == Counter(w.counters, key) < U32_RANGE - 1
    ensures
      var (c1, w1) := Go(limits, w, c, now);
      var (c2, w2) := Go(limits, w1, c1, now);
      var (c3, w3) := Go(limits, w2, c2, now);
      Step(limits, c.q, st, now).0 == if c2.call.Idle? then c2.q else c3.q
  {
    var (c1, w1) := Go(limits, w, c, now);
    var (c2, w2) := Go(limits, w1, c1, now);
    SlotCallOutcome(limits, w, w1, w2, c, now, now, now);
  }

  // ---- Slots ----

  /** What one client has in the counter `key`, and how much of it is or will be a permit. */
  function Counts(c: Client, key: string): nat {
    multiset(c.q.permits)[key] + Unit(!c.call.Idle? && c.call.key == key)
  }

  function Grants(c: Client, key: string): (n: nat)
    ensures n <= Counts(c, key)
  {
    multiset(c.q.permits)[key]
    + Unit(c.call.Counted? && c.call.key == key && RedisSemaphore.AsU32(c.call.seen) <= c.call.max)
  }

  function TotalCounts(cs: seq<Client>, key: string): nat {
    if cs == [] then 0 else Counts(cs[0], key) + TotalCounts(cs[1..], key)
  }

  function TotalGrants(cs: seq<Client>, key: string): (n: nat)
    ensures n <= TotalCounts(cs, key)
  {
    if cs == [] then 0 else Grants(cs[0], key) + TotalGrants(cs[1..], key)
  }

  function PermitsOut(cs: seq<Client>, key: string): (n: nat)
    ensures n <= TotalGrants(cs, key)
  {
    if cs == [] then 0 else multiset(cs[0].q.permits)[key] + PermitsOut(cs[1..], key)
  }

  lemma {:induction false} TotalsUpdate(cs: seq<Client>, r: nat, c: Client, key: string)
    requires r < |cs|
    ensures TotalCounts(cs[r := c], key) == TotalCounts(cs, key) - Counts(cs[r], key) + Counts(c, key)
    ensures TotalGrants(cs[r := c], key) == TotalGrants(cs, key) - Grants(cs[r], key) + Grants(c, key)
  {
    if r == 0 {
      assert cs[0 := c][1..] == cs[1..];
    } else {
      TotalsUpdate(cs[1..], r - 1, c, key);
      assert cs[r := c][1..] == cs[1..][r - 1 := c];
    }
  }

  /** The counter is the clients' counts, the releases to come and the leaks; permits stay within the cap. */
  ghost predicate SlotInvariant(w: Redis, key: string, cap: nat) {
    && Counter(w.counters, key) == TotalCounts(w.clients, key) + multiset(w.releasing)[key] + multiset(w.leaked)[key]
    && TotalGrants(w.clients, key) <= cap
  }

  /** The counter moves with what the client and the tasks have in it, and only a count below the cap is a grant. */
  ghost predicate Moves(w: Redis, c: Client, next: (Client, Redis), key: string, cap: nat) {
    var (c', w') := next;
    && w'.clients == w.clients
    && Counter(w'.counters, key) - Counter(w.counters, key) ==
       Counts(c', key) - Counts(c, key)
       + multiset(w'.releasing)[key] - multiset(w.releasing)[key] + multiset(w'.leaked)[key] - multiset(w.leaked)[key]
    && (Grants(c', key) > Grants(c, key) ==> Counter(w'.counters, key) <= cap)
  }

  lemma Appended(s: seq<string>, x: string)
    ensures multiset(s + [x]) == multiset(s) + multiset{x}
  {
  }

  /** A cap for `key` bounds every limit that asks for it. */
  lemma WantedWithinCap(limits: seq<LimitConfig>, q: Request, key: string, cap: nat)
    requires SlotCap(limits, key, cap)
    ensures SlotWanted(limits, q).Some? && SlotWanted(limits, q).value.0 == key ==> SlotWanted(limits, q).value.1 <= cap
  {
  }

  lemma StepKeepsPermits(limits: seq<LimitConfig>, q: Request, st: Store, now: nat)
    requires SlotWanted(limits, q).None? && (q.phase.Dropping? ==> q.permits == [])
    ensures Step(limits, q, st, now).0.permits == q.permits
  {
  }

  lemma OtherMoves(limits: seq<LimitConfig>, w: Redis, c: Client, now: nat, key: string, cap: nat)
    requires c.call.Idle? && SlotWanted(limits, c.q).None? && (c.q.phase.Dropping? ==> c.q.permits == [])
    ensures Moves(w, c, Other(limits, w, c, now), key, cap)
  {
    StepKeepsPermits(limits, c.q, w.store, now);
    var next := Other(limits, w, c, now);
    assert next.0.q.permits == c.q.permits && next.0.call == c.call && next.1 == w.(store := next.1.store);
  }

  lemma DecideMoves(w: Redis, c: Client, key: string, cap: nat)
    requires c.call.Counted?
    ensures Moves(w, c, (Decide(c, c.call.key, c.call.seen, c.call.max), w), key, cap)
  {
    Appended(c.q.permits, c.call.key);
  }

  lemma DropMoves(w: Redis, c: Client, key: string, cap: nat)
    requires c.q.permits != []
    ensures Moves(w, c, DropOne(w, c), key, cap)
  {
    DropsFirst(c.q.permits);
    Appended(w.releasing, c.q.permits[0]);
  }

  lemma GoMoves(limits: seq<LimitConfig>, w: Redis, c: Client, now: nat, key: string, cap: nat)
    requires SlotCap(limits, key, cap) && -1 <= Counter(w.counters, key) < U32_RANGE - 1
    ensures Moves(w, c, Go(limits, w, c, now), key, cap)
  {
    match c.call
    case Counted(_, _, _) => DecideMoves(w, c, key, cap);
    case Denied(_) =>
    case Idle =>
      match SlotWanted(limits, c.q)
      case Some(_) => WantedWithinCap(limits, c.q, key, cap);
      case None =>
        if c.q.phase.Dropping? && c.q.permits != [] {
          DropMoves(w, c, key, cap);
        } else {
          OtherMoves(limits, w, c, now, key, cap);
        }
  }

  lemma CancelMoves(w: Redis, c: Client, key: string, cap: nat)
    ensures Moves(w, c, Cancelled(w, c), key, cap)
  {
    if !c.call.Idle? {
      Appended(w.leaked, c.call.key);
    }
  }

  lemma PutKeeps(w: Redis, r: nat, next: (Client, Redis), key: string, cap: nat)
    requires r < |w.clients| && SlotInvariant(w, key, cap) && Moves(w, w.clients[r], next, key, cap)
    ensures SlotInvariant(Put(next, r), key, cap)
  {
    TotalsUpdate(w.clients, r, next.0, key);
  }

  lemma ReleaseKeeps(w: Redis, i: nat, key: string, cap: nat)
    requires SlotInvariant(w, key, cap) && i < |w.releasing|
    ensures SlotInvariant(Next([], w, Release(i)), key, cap)
  {
    RemovedAt(w.releasing, i);
  }

  lemma RemovedAt(s: seq<string>, i: nat)
    requires i < |s|
    ensures multiset(s) == multiset(s[..i] + s[i + 1..]) + multiset{s[i]}
  {
    assert s == s[..i] + [s[i]] + s[i + 1..];
  }

  lemma NextKeeps(limits: seq<LimitConfig>, w: Redis, e: Command, key: string, cap: nat)
    requires SlotCap(limits, key, cap) && SlotInvariant(w, key, cap) && Counter(w.counters, key) < U32_RANGE - 1
    ensures SlotInvariant(Next(limits, w, e), key, cap)
  {
    match e
    case Release(i) =>
      if i < |w.releasing| {
        ReleaseKeeps(w, i, key, cap);
      }
    case Advance(r, now) =>
      if r < |w.clients| {
        GoMoves(limits, w, w.clients[r], now, key, cap);
        PutKeeps(w, r, Go(limits, w, w.clients[r], now), key, cap);
      }
    case Cancel(r) =>
      if r < |w.clients| {
        CancelMoves(w, w.clients[r], key, cap);
        PutKeeps(w, r, Cancelled(w, w.clients[r]), key, cap);
      }
    case Reconcile(r, actual) =>
      if r < |w.clients| && w.clients[r].q.phase.Admitted? {
        PutKeeps(w, r, (w.clients[r].(q := w.clients[r].q.(phase := Reconciling(0, actual))), w), key, cap);
      }
    case Abandon(r) =>
      if r < |w.clients| && w.clients[r].q.phase.Admitted? {
        PutKeeps(w, r, (w.clients[r].(q := w.clients[r].q.(phase := Dropping(true))), w), key, cap);
      }
  }

  /** Fewer than 2^32 - 1 counts are outstanding at every point of the run. */
  ghost predicate Within32(limits: seq<LimitConfig>, w: Redis, events: seq<Command>, key: string) {
    forall n :: 0 <= n < |events| ==> Counter(Run(limits, w, events[..n]).counters, key) < U32_RANGE - 1
  }

  lemma {:induction false} Within32Before(limits: seq<LimitConfig>, w: Redis, events: seq<Command>, key: string)
    requires events != [] && Within32(limits, w, events, key)
    ensures
      var before := events[..|events| - 1];
      Within32(limits, w, before, key) && Counter(Run(limits, w, before).counters, key) < U32_RANGE - 1
  {
    var before := events[..|events| - 1];
    forall n | 0 <= n < |before| ensures Counter(Run(limits, w, before[..n]).counters, key) < U32_RANGE - 1 {
      assert before[..n] == events[..n];
    }
  }

  lemma {:induction false} RunLast(limits: seq<LimitConfig>, w: Redis, events: seq<Command>)
    requires events != []
    ensures Run(limits, w, events) == Next(limits, Run(limits, w, events[..|events| - 1]), events[|events| - 1])
  {
  }

  lemma {:induction false} NothingCounted(cs: seq<Client>, key: string)
    requires forall i :: 0 <= i < |cs| ==> cs[i].q.permits == [] && cs[i].call.Idle?
    ensures TotalCounts(cs, key) == 0
  {
    if cs != [] {
      NothingCounted(cs[1..], key);
    }
  }

  /** In every interleaving of requests over Redis, cancellations included: a slot counter is exactly the permits
      out, the calls in progress, the releases to come and the counts of cancelled calls, and the permits out
      never exceed the cap. */
  lemma {:induction false} RedisSlotSafety(
      limits: seq<LimitConfig>, w: Redis, events: seq<Command>, key: string, cap: nat)
    requires Initial(w) && SlotCap(limits, key, cap) && Within32(limits, w, events, key)
    ensures SlotInvariant(Run(limits, w, events), key, cap)
    ensures PermitsOut(Run(limits, w, events).clients, key) <= cap
    decreases |events|
  {
    if events == [] {
      NothingCounted(w.clients, key);
    } else {
      var n := |events| - 1;
      Within32Before(limits, w, events, key);
      RedisSlotSafety(limits, w, events[..n], key, cap);
      NextKeeps(limits, Run(limits, w, events[..n]), events[n], key, cap);
      RunLast(limits, w, events);
    }
  }

  // ---- Everything comes back, except what was cancelled ----

  ghost predicate Tidy(c: Client) {
    && (c.q.phase.Done? ==> c.q.permits == [] && c.call.Idle?)
    && (!c.call.Idle? ==> c.q.phase.Checking?)
  }

  lemma GoKeepsTidy(limits: seq<LimitConfig>, w: Redis, c: Client, now: nat)
    requires Tidy(c)
    ensures Tidy(Go(limits, w, c, now).0)
  {
    if c.call.Idle? && SlotWanted(limits, c.q).None? && !(c.q.phase.Dropping? && c.q.permits != []) {
      StepKeepsClean(limits, c.q, w.store, now);
    }
  }

  ghost predicate AllTidy(w: Redis) {
    forall i :: 0 <= i < |w.clients| ==> Tidy(w.clients[i])
  }

  lemma {:induction false} RunTidy(limits: seq<LimitConfig>, w: Redis, events: seq<Command>)
    requires Initial(w)
    ensures AllTidy(Run(limits, w, events))
    decreases |events|
  {
    if events != [] {
      var n := |events| - 1;
      RunTidy(limits, w, events[..n]);
      var mid, e := Run(limits, w, events[..n]), events[n];
      if e.Advance? && e.r < |mid.clients| {
        GoKeepsTidy(limits, mid, mid.clients[e.r], e.now);
      }
    }
  }

  /** Once all requests are done and all release tasks have run, a slot counter is exactly the number of calls that
      were cancelled on it: zero if and only if there were none. */
  lemma AllButCancelledReturned(limits: seq<LimitConfig>, w: Redis, events: seq<Command>, key: string, cap: nat)
    requires Initial(w) && SlotCap(limits, key, cap) && Within32(limits, w, events, key)
    requires
      var w' := Run(limits, w, events);
      w'.releasing == [] && forall i :: 0 <= i < |w'.clients| ==> w'.clients[i].q.phase.Done?
    ensures var w' := Run(limits, w, events); Counter(w'.counters, key) == multiset(w'.leaked)[key]
  {
    RedisSlotSafety(limits, w, events, key, cap);
    RunTidy(limits, w, events);
    NothingCounted(Run(limits, w, events).clients, key);
  }

  const ONE_SLOT := LimitConfig("global", None, None, None, Some(1))

  function Solo(keyId: string, projectId: string): Redis {
    Redis(EMPTY, map[], [Client(Arrive(keyId, projectId), Idle)], [], [])
  }

  lemma RunOne(limits: seq<LimitConfig>, w: Redis, events: seq<Command>, e: Command)
    ensures Run(limits, w, events + [e]) == Next(limits, Run(limits, w, events), e)
  {
    assert (events + [e])[..|events|] == events;
  }

  const GO: Command := Command.Advance(0, 0)

  /** A request that reaches its concurrency call, is cancelled right after the INCR and ends: nobody holds the
      slot, and it stays counted. */
  lemma CancelLeaks(limits: seq<LimitConfig>, w: Redis, keyId: string, projectId: string)
    requires limits == [ONE_SLOT] && w == Solo(keyId, projectId)
    ensures
      var w' := Run(limits, w, [] + [GO] + [GO] + [GO] + [Cancel(0)] + [GO]);
      && |w'.clients| == 1 && w'.clients[0].q.phase == Done(false) && w'.clients[0].q.permits == []
      && w'.releasing == []
      && Counter(w'.counters, "conc:global") == 1
  {
    RunOne(limits, w, [], GO);
    assert Run(limits, w, [] + [GO]).clients[0].q.phase == Checking(0, AtTpm);
    RunOne(limits, w, [] + [GO], GO);
    assert Run(limits, w, [] + [GO] + [GO]).clients[0].q.phase == Checking(0, AtConcurrency);
    assert "conc:" + "global" == "conc:global";
    RunOne(limits, w, [] + [GO] + [GO], GO);
    assert Run(limits, w, [] + [GO] + [GO] + [GO]).clients[0].call == Counted("conc:global", 1, 1);
    RunOne(limits, w, [] + [GO] + [GO] + [GO], Cancel(0));
    RunOne(limits, w, [] + [GO] + [GO] + [GO] + [Cancel(0)], GO);
  }

  // ---- Tokens ----

  function Requests(cs: seq<Client>): (qs: seq<Request>)
    ensures |qs| == |cs| && forall i :: 0 <= i < |cs| ==> qs[i] == cs[i].q
  {
    seq(|cs|, i requires 0 <= i < |cs| => cs[i].q)
  }

  ghost predicate Balanced(w: Redis, key: string) {
    && (forall i :: 0 <= i < |w.clients| ==> Unsettled(w.clients[i].q))
    && Balance(w.store, key) == TotalOwed(Requests(w.clients), key)
  }

  /** The client and the store moved the same number of tokens. */
  ghost predicate MovesTokens(w: Redis, c: Client, next: (Client, Redis), key: string) {
    next.1.clients == w.clients && Balances(c.q, w.store, (next.0.q, next.1.store), key)
  }

  lemma GoMovesTokens(limits: seq<LimitConfig>, w: Redis, c: Client, now: nat, scope: string)
    requires Unsettled(c.q) && Tidy(c)
    ensures MovesTokens(w, c, Go(limits, w, c, now), "tpm:" + scope)
  {
    if c.call.Idle? && SlotWanted(limits, c.q).None? && !(c.q.phase.Dropping? && c.q.permits != []) {
      StepBalances(limits, c.q, w.store, now, scope);
    }
  }

  lemma PutBalances(w: Redis, r: nat, next: (Client, Redis), key: string)
    requires r < |w.clients| && Balanced(w, key) && MovesTokens(w, w.clients[r], next, key)
    ensures Balanced(Put(next, r), key)
  {
    TotalUpdate(Requests(w.clients), r, next.0.q, key);
    assert Requests(w.clients[r := next.0]) == Requests(w.clients)[r := next.0.q];
  }

  lemma NextBalances(limits: seq<LimitConfig>, w: Redis, e: Command, scope: string)
    requires AllTidy(w) && Balanced(w, "tpm:" + scope)
    ensures Balanced(Next(limits, w, e), "tpm:" + scope)
  {
    if !e.Release? && e.r < |w.clients| {
      var c := w.clients[e.r];
      if e.Advance? {
        GoMovesTokens(limits, w, c, e.now, scope);
        PutBalances(w, e.r, Go(limits, w, c, e.now), "tpm:" + scope);
      } else if e.Cancel? {
        PutBalances(w, e.r, Cancelled(w, c), "tpm:" + scope);
      } else if c.q.phase.Admitted? {
        var phase := if e.Reconcile? then Reconciling(0, e.actual) else Dropping(true);
        PutBalances(w, e.r, (c.(q := c.q.(phase := phase)), w), "tpm:" + scope);
      }
    }
  }

  /** Token conservation holds over Redis as it does over the memory store. */
  lemma {:induction false} RedisTokensConserved(limits: seq<LimitConfig>, w: Redis, events: seq<Command>, scope: string)
    requires Initial(w)
    ensures Balanced(Run(limits, w, events), "tpm:" + scope)
    decreases |events|
  {
    if events == [] {
      NothingOwed(Requests(w.clients), "tpm:" + scope);
    } else {
      var n := |events| - 1;
      RedisTokensConserved(limits, w, events[..n], scope);
      RunTidy(limits, w, events[..n]);
      NextBalances(limits, Run(limits, w, events[..n]), events[n], scope);
    }
  }
}
