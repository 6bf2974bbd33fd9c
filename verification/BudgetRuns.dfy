/**
Many requests checking and recording budgets at once. Each read or update of the shared ledger is one
step; the steps of different requests interleave freely and the clock moves on between them. A request
walks over the configured budgets in order; one that does not apply to it is a step that does nothing.
 */
module BudgetRuns {
  import opened Budget

  datatype Request = Request(projectId: string, keyId: string, cost: real)

  /** Where a request is: checking budget `b`, waiting for upstream, about to add to budget `b`, or looking at
      threshold `t` of budget `b` with the usage it read when adding. */
  datatype Phase =
    | Checking(b: nat)
    | Blocked
    | InFlight
    | Adding(b: nat)
    | Notifying(b: nat, period: int, used: real, t: nat)
    | Done

  datatype Config = Config(budgets: seq<Budget>, requests: seq<Request>)

  datatype World = World(now: int, ledger: Ledger, phases: seq<Phase>)

  datatype Event = Clock(now: int) | Go(r: nat) | Fail(r: nat)

  predicate Enabled(c: Config, w: World, e: Event) {
    match e
    case Clock(now) => now >= w.now
    case Go(r) => r < |w.phases| && !w.phases[r].Done? && !w.phases[r].Blocked?
    case Fail(r) => r < |w.phases| && w.phases[r].InFlight?
  }

  predicate Applies(c: Config, b: nat, r: nat)
    requires b < |c.budgets| && r < |c.requests|
  {
    Targets(c.budgets[b], c.requests[r].projectId, c.requests[r].keyId)
  }

  /** One step of request `r`. */
  function Advance(c: Config, cal: Calendar, now: int, l: Ledger, r: nat, p: Phase): (Ledger, Phase)
    requires r < |c.requests|
  {
    var bs := c.budgets;
    match p
    case Checking(b) =>
      if b >= |bs| then (l, InFlight)
      else if Applies(c, b, r) && Blocks(bs[b], Used(l, bs[b].name, cal(bs[b].period, now))) then (l, Blocked)
      else (l, Checking(b + 1))
    case InFlight => (l, if c.requests[r].cost <= 0.0 then Done else Adding(0))
    case Adding(b) =>
      if b >= |bs| then (l, Done)
      else if !Applies(c, b, r) then (l, Adding(b + 1))
      else
        var period := cal(bs[b].period, now);
        var l' := Add(l, bs[b].name, period, c.requests[r].cost);
        (l', Notifying(b, period, Used(l', bs[b].name, period), 0))
    case Notifying(b, period, used, t) =>
      if b >= |bs| || t >= |bs[b].thresholds| then (l, Adding(b + 1))
      else (Note(l, bs[b], period, used, bs[b].thresholds[t]), Notifying(b, period, used, t + 1))
    case Blocked => (l, p)
    case Done => (l, p)
  }

  function Next(c: Config, cal: Calendar, w: World, e: Event): World
    requires |w.phases| == |c.requests| && Enabled(c, w, e)
  {
    match e
    case Clock(now) => w.(now := now)
    case Go(r) =>
      var (l, p) := Advance(c, cal, w.now, w.ledger, r, w.phases[r]);
      w.(ledger := l, phases := w.phases[r := p])
    case Fail(r) => w.(phases := w.phases[r := Done])
  }

  ghost predicate IsRun(c: Config, cal: Calendar, run: seq<World>, events: seq<Event>) {
    && |run| == |events| + 1
    && run[0].ledger == Ledger(map[], {}, [])
    && (forall i :: 0 <= i < |run| ==> |run[i].phases| == |c.requests|)
    && (forall r :: 0 <= r < |c.requests| ==> run[0].phases[r] == Checking(0))
    && (forall i :: 0 <= i < |events| ==>
          Enabled(c, run[i], events[i]) && run[i + 1] == Next(c, cal, run[i], events[i]))
  }

  ghost predicate DistinctNames(c: Config) {
    forall i, j :: 0 <= i < j < |c.budgets| ==> c.budgets[i].name != c.budgets[j].name
  }

  // ---- Usage only grows ----

  lemma StepGrows(c: Config, cal: Calendar, w: World, e: Event, name: string, period: int)
    requires |w.phases| == |c.requests| && Enabled(c, w, e)
    requires e.Go? && w.phases[e.r].Adding? ==> c.requests[e.r].cost > 0.0
    ensures
      var l, l' := w.ledger, Next(c, cal, w, e).ledger;
      Used(l, name, period) <= Used(l', name, period) && ((name, period) in l.usage ==> (name, period) in l'.usage)
  {
  }

  /** A request adds only a positive cost. */
  ghost predicate AddersPay(c: Config, w: World) {
    && |w.phases| == |c.requests|
    && forall r :: 0 <= r < |w.phases| && (w.phases[r].Adding? || w.phases[r].Notifying?) ==> c.requests[r].cost > 0.0
  }

  lemma {:induction false} RunAddersPay(c: Config, cal: Calendar, run: seq<World>, events: seq<Event>, n: nat)
    requires IsRun(c, cal, run, events) && n < |run|
    ensures AddersPay(c, run[n])
  {
    if n > 0 {
      RunAddersPay(c, cal, run, events, n - 1);
      var e := events[n - 1];
      assert Enabled(c, run[n - 1], e) && run[n] == Next(c, cal, run[n - 1], e);
    }
  }

  /** Usage in a period never falls; so a budget that blocks, blocks for the rest of the period. */
  lemma {:induction false} UsageNeverFalls(
      c: Config, cal: Calendar, run: seq<World>, events: seq<Event>, i: nat, n: nat, name: string, period: int)
    requires IsRun(c, cal, run, events) && i <= n < |run|
    ensures Used(run[i].ledger, name, period) <= Used(run[n].ledger, name, period)
    ensures forall b: Budget :: Blocks(b, Used(run[i].ledger, name, period)) ==>
              Blocks(b, Used(run[n].ledger, name, period))
  {
    if i < n {
      UsageNeverFalls(c, cal, run, events, i, n - 1, name, period);
      RunAddersPay(c, cal, run, events, n - 1);
      assert Enabled(c, run[n - 1], events[n - 1]) && run[n] == Next(c, cal, run[n - 1], events[n - 1]);
      StepGrows(c, cal, run[n - 1], events[n - 1], name, period);
    }
    forall b: Budget | Blocks(b, Used(run[i].ledger, name, period))
          ensures Blocks(b, Used(run[n].ledger, name, period)) {
      BlockPersists(b, Used(run[i].ledger, name, period), Used(run[n].ledger, name, period));
    }
  }

  // ---- How far usage can overshoot a block ----

  /** The request has passed the check of budget `k` and has not added to it. */
  predicate MayAdd(k: nat, p: Phase) {
    match p
    case Checking(b) => b > k
    case InFlight => true
    case Adding(b) => b <= k
    case Notifying(b, _, _, _) => b < k
    case _ => false
  }

  function Exposed(c: Config, k: nat, r: nat, p: Phase): real
    requires k < |c.budgets| && r < |c.requests|
  {
    if MayAdd(k, p) && Applies(c, k, r) && c.requests[r].cost > 0.0 then c.requests[r].cost else 0.0
  }

  /** The costs that requests past the check of budget `k` may still add to it. */
  function Exposure(c: Config, k: nat, ps: seq<Phase>): (x: real)
    requires k < |c.budgets| && |ps| <= |c.requests|
    ensures x >= 0.0
  {
    if ps == [] then 0.0 else Exposure(c, k, ps[..|ps| - 1]) + Exposed(c, k, |ps| - 1, ps[|ps| - 1])
  }

  lemma {:induction false} ExposureUpdate(c: Config, k: nat, ps: seq<Phase>, r: nat, p: Phase)
    requires k < |c.budgets| && r < |ps| <= |c.requests|
    ensures Exposure(c, k, ps[r := p]) == Exposure(c, k, ps) - Exposed(c, k, r, ps[r]) + Exposed(c, k, r, p)
  {
    var n := |ps| - 1;
    if r == n {
      assert ps[r := p][..n] == ps[..n];
    } else {
      assert ps[r := p][..n] == ps[..n][r := p];
      ExposureUpdate(c, k, ps[..n], r, p);
    }
  }

  /** What one step does to a budget's usage in a period and to the costs still to come. */
  lemma AdvanceBalance(c: Config, cal: Calendar, now: int, l: Ledger, r: nat, p: Phase, k: nat, period: int)
    requires r < |c.requests| && k < |c.budgets| && DistinctNames(c)
    requires p.Adding? || p.Notifying? ==> c.requests[r].cost > 0.0
    ensures
      var b := c.budgets[k];
      var (l', p') := Advance(c, cal, now, l, r, p);
      var added := Used(l', b.name, period) - Used(l, b.name, period);
      && (cal(b.period, now) != period ==> added == 0.0)
      && (cal(b.period, now) == period && Blocks(b, Used(l, b.name, period)) ==>
            added + Exposed(c, k, r, p') <= Exposed(c, k, r, p))
      && (added != 0.0 ==> cal(b.period, now) == period && added + Exposed(c, k, r, p') == Exposed(c, k, r, p))
  {
    if p.Adding? && p.b < |c.budgets| && p.b != k {
      assert c.budgets[p.b].name != c.budgets[k].name;
    }
  }

  /** Usage and the costs still to come stay within `bound`; once the period is over nothing more can come. */
  ghost predicate Within(c: Config, cal: Calendar, w: World, k: nat, period: int, bound: real)
    requires k < |c.budgets| && |w.phases| <= |c.requests|
  {
    var b := c.budgets[k];
    && cal(b.period, w.now) >= period
    && Blocks(b, Used(w.ledger, b.name, period))
    && Used(w.ledger, b.name, period) <= bound
    && (cal(b.period, w.now) == period ==> Used(w.ledger, b.name, period) + Exposure(c, k, w.phases) <= bound)
  }

  lemma StepStaysWithin(
      c: Config, cal: Calendar, w: World, e: Event, k: nat, period: int, bound: real)
    requires k < |c.budgets| && DistinctNames(c) && Monotone(cal) && AddersPay(c, w) && Enabled(c, w, e)
    requires Within(c, cal, w, k, period, bound)
    ensures Within(c, cal, Next(c, cal, w, e), k, period, bound)
  {
    var b, w' := c.budgets[k], Next(c, cal, w, e);
    StepGrows(c, cal, w, e, b.name, period);
    BlockPersists(b, Used(w.ledger, b.name, period), Used(w'.ledger, b.name, period));
    match e
    case Clock(_) =>
    case Go(r) =>
      AdvanceBalance(c, cal, w.now, w.ledger, r, w.phases[r], k, period);
      ExposureUpdate(c, k, w.phases, r, w'.phases[r]);
    case Fail(r) =>
      ExposureUpdate(c, k, w.phases, r, Done);
  }

  /** The step that takes a budget to a blocking threshold. */
  ghost predicate Crosses(w: World, w': World, b: Budget, t: Threshold, period: int) {
    && b.amountUsd > 0.0 && t in b.thresholds && t.action == "block"
    && Used(w.ledger, b.name, period) < t.at * b.amountUsd <= Used(w'.ledger, b.name, period)
  }

  lemma CrossingIsWithin(c: Config, cal: Calendar, w: World, e: Event, k: nat, period: int)
    requires k < |c.budgets| && DistinctNames(c) && AddersPay(c, w) && Enabled(c, w, e)
    requires
      var b, l' := c.budgets[k], Next(c, cal, w, e).ledger;
      Used(w.ledger, b.name, period) < Used(l', b.name, period) && Blocks(b, Used(l', b.name, period))
    ensures
      var bound := Used(w.ledger, c.budgets[k].name, period) + Exposure(c, k, w.phases);
      Within(c, cal, Next(c, cal, w, e), k, period, bound)
  {
    var b, w' := c.budgets[k], Next(c, cal, w, e);
    assert e.Go?;
    AdvanceBalance(c, cal, w.now, w.ledger, e.r, w.phases[e.r], k, period);
    ExposureUpdate(c, k, w.phases, e.r, w'.phases[e.r]);
  }

  lemma ReachedBlocks(b: Budget, t: Threshold, used: real)
    requires b.amountUsd > 0.0 && t in b.thresholds && t.action == "block" && used >= t.at * b.amountUsd
    ensures Blocks(b, used)
  {
    ShareReaches(b, used, t.at);
    var i :| 0 <= i < |b.thresholds| && b.thresholds[i] == t;
  }

  lemma {:induction false} RunStaysWithin(
      c: Config, cal: Calendar, run: seq<World>, events: seq<Event>, i: nat, n: nat, k: nat, period: int, bound: real)
    requires IsRun(c, cal, run, events) && i <= n < |run| && k < |c.budgets| && DistinctNames(c) && Monotone(cal)
    requires Within(c, cal, run[i], k, period, bound)
    ensures Within(c, cal, run[n], k, period, bound)
  {
    if i < n {
      RunStaysWithin(c, cal, run, events, i, n - 1, k, period, bound);
      RunAddersPay(c, cal, run, events, n - 1);
      assert Enabled(c, run[n - 1], events[n - 1]) && run[n] == Next(c, cal, run[n - 1], events[n - 1]);
      StepStaysWithin(c, cal, run[n - 1], events[n - 1], k, period, bound);
    }
  }

  /** Usage never goes beyond the blocking threshold by more than the costs of the requests that had passed the
      check when it was reached, the one that reached it included. */
  lemma OvershootBounded(
      c: Config, cal: Calendar, run: seq<World>, events: seq<Event>, i: nat, n: nat, k: nat, t: Threshold,
      period: int)
    requires IsRun(c, cal, run, events) && DistinctNames(c) && Monotone(cal)
    requires i < n < |run| && k < |c.budgets| && Crosses(run[i], run[i + 1], c.budgets[k], t, period)
    ensures Used(run[n].ledger, c.budgets[k].name, period) < t.at * c.budgets[k].amountUsd
              + Exposure(c, k, run[i].phases)
  {
    RunAddersPay(c, cal, run, events, i);
    assert Enabled(c, run[i], events[i]) && run[i + 1] == Next(c, cal, run[i], events[i]);
    ReachedBlocks(c.budgets[k], t, Used(run[i + 1].ledger, c.budgets[k].name, period));
    CrossingIsWithin(c, cal, run[i], events[i], k, period);
    var bound := Used(run[i].ledger, c.budgets[k].name, period) + Exposure(c, k, run[i].phases);
    RunStaysWithin(c, cal, run, events, i + 1, n, k, period, bound);
  }

  // ---- Notifications ----

  /** Usage has been recorded in the period and has reached threshold `i` of budget `k`. */
  predicate Reached(c: Config, l: Ledger, k: nat, i: nat, period: int)
    requires k < |c.budgets| && i < |c.budgets[k].thresholds|
  {
    var b := c.budgets[k];
    (b.name, period) in l.usage && Pct(b, Used(l, b.name, period)) >= b.thresholds[i].at
  }

  ghost predicate Accounts(c: Config, l: Ledger, key: NoteKey, k: nat, i: nat) {
    && k < |c.budgets| && i < |c.budgets[k].thresholds|
    && key.0 == c.budgets[k].name && key.2 == Bucket(c.budgets[k].thresholds[i].at)
    && Reached(c, l, k, i, key.1)
  }

  /** Request `r` is on its way to threshold `i` of budget `k` with a usage that reaches it. */
  ghost predicate OnItsWay(c: Config, w: World, r: nat, k: nat, i: nat, period: int)
    requires k < |c.budgets| && i < |c.budgets[k].thresholds|
  {
    && r < |w.phases| && w.phases[r].Notifying?
    && w.phases[r].b == k && w.phases[r].period == period && w.phases[r].t <= i
    && Pct(c.budgets[k], w.phases[r].used) >= c.budgets[k].thresholds[i].at
  }

  ghost predicate Settled(c: Config, w: World, k: nat, i: nat, period: int)
    requires k < |c.budgets| && i < |c.budgets[k].thresholds|
  {
    var b := c.budgets[k];
    Reached(c, w.ledger, k, i, period) ==>
      (b.name, period, Bucket(b.thresholds[i].at)) in w.ledger.notified || exists r :: OnItsWay(c, w, r, k, i, period)
  }

  /** A notifying request read a usage that the ledger still has. */
  ghost predicate ReadIsRecorded(c: Config, l: Ledger, p: Phase) {
    p.Notifying? ==>
      && p.b < |c.budgets| && (c.budgets[p.b].name, p.period) in l.usage
      && p.used <= Used(l, c.budgets[p.b].name, p.period)
  }

  ghost predicate NotesOk(c: Config, w: World) {
    && AddersPay(c, w)
    && (forall r :: 0 <= r < |w.phases| ==> ReadIsRecorded(c, w.ledger, w.phases[r]))
    && (forall key :: key in w.ledger.notified ==> exists k, i :: Accounts(c, w.ledger, key, k, i))
  }

  ghost predicate FiredOnce(l: Ledger) {
    && (forall key :: key in l.notified <==> key in l.fired)
    && forall i, j :: 0 <= i < j < |l.fired| ==> l.fired[i] != l.fired[j]
  }

  lemma StepFiresOnce(c: Config, cal: Calendar, w: World, e: Event)
    requires |w.phases| == |c.requests| && Enabled(c, w, e) && FiredOnce(w.ledger)
    ensures FiredOnce(Next(c, cal, w, e).ledger)
  {
  }

  lemma AccountsGrows(c: Config, cal: Calendar, w: World, e: Event, key: NoteKey, k: nat, i: nat)
    requires AddersPay(c, w) && Enabled(c, w, e) && Accounts(c, w.ledger, key, k, i)
    ensures Accounts(c, Next(c, cal, w, e).ledger, key, k, i)
  {
    var b, l, l' := c.budgets[k], w.ledger, Next(c, cal, w, e).ledger;
    StepGrows(c, cal, w, e, b.name, key.1);
    ShareMonotone(b, Used(l, b.name, key.1), Used(l', b.name, key.1));
  }

  /** A key that is noted by a step is accounted for by the threshold looked at. */
  lemma NewNoteAccounts(c: Config, cal: Calendar, w: World, e: Event, key: NoteKey)
    requires NotesOk(c, w) && Enabled(c, w, e)
    requires key in Next(c, cal, w, e).ledger.notified && key !in w.ledger.notified
    ensures e.Go? && w.phases[e.r].Notifying?
    ensures Accounts(c, Next(c, cal, w, e).ledger, key, w.phases[e.r].b, w.phases[e.r].t)
  {
    var p := w.phases[e.r];
    assert ReadIsRecorded(c, w.ledger, p);
    ShareMonotone(c.budgets[p.b], p.used, Used(w.ledger, c.budgets[p.b].name, p.period));
  }

  lemma StepKeepsNotes(c: Config, cal: Calendar, w: World, e: Event)
    requires NotesOk(c, w) && Enabled(c, w, e) && AddersPay(c, Next(c, cal, w, e))
    ensures NotesOk(c, Next(c, cal, w, e))
  {
    var w' := Next(c, cal, w, e);
    forall r | 0 <= r < |w'.phases| ensures ReadIsRecorded(c, w'.ledger, w'.phases[r]) {
      assert ReadIsRecorded(c, w.ledger, w.phases[r]);
      var p := w.phases[r];
      if p.Notifying? {
        StepGrows(c, cal, w, e, c.budgets[p.b].name, p.period);
      }
    }
    forall key | key in w'.ledger.notified ensures exists k, i :: Accounts(c, w'.ledger, key, k, i) {
      if key in w.ledger.notified {
        var k, i :| Accounts(c, w.ledger, key, k, i);
        AccountsGrows(c, cal, w, e, key, k, i);
      } else {
        NewNoteAccounts(c, cal, w, e, key);
      }
    }
  }

  lemma StepSettles(c: Config, cal: Calendar, w: World, e: Event, k: nat, i: nat, period: int)
    requires DistinctNames(c) && AddersPay(c, w) && Enabled(c, w, e)
    requires k < |c.budgets| && i < |c.budgets[k].thresholds| && Settled(c, w, k, i, period)
    ensures Settled(c, Next(c, cal, w, e), k, i, period)
  {
    var b, w' := c.budgets[k], Next(c, cal, w, e);
    if e.Go? && w.phases[e.r].Adding? && w.ledger != w'.ledger {
      assert w'.phases[e.r].Notifying?;
      if w'.phases[e.r].b == k && w'.phases[e.r].period == period && Reached(c, w'.ledger, k, i, period) {
        assert OnItsWay(c, w', e.r, k, i, period);
      } else if Reached(c, w'.ledger, k, i, period) {
        StillSettled(c, cal, w, e, k, i, period);
      }
    } else if Reached(c, w'.ledger, k, i, period) {
      StillSettled(c, cal, w, e, k, i, period);
    }
  }

  /** A threshold reached before stays noted, or its request goes on its way or gets there. */
  lemma StillSettled(c: Config, cal: Calendar, w: World, e: Event, k: nat, i: nat, period: int)
    requires DistinctNames(c) && |w.phases| == |c.requests| && Enabled(c, w, e)
    requires k < |c.budgets| && i < |c.budgets[k].thresholds| && Settled(c, w, k, i, period)
    requires
      var w' := Next(c, cal, w, e);
      && Reached(c, w'.ledger, k, i, period)
      && (w.ledger.usage == w'.ledger.usage || w'.phases[e.r].b != k || w'.phases[e.r].period != period)
      && (w.ledger.usage != w'.ledger.usage ==> e.Go? && w'.phases[e.r].Notifying?)
    ensures Settled(c, Next(c, cal, w, e), k, i, period)
  {
    var w' := Next(c, cal, w, e);
    var key := (c.budgets[k].name, period, Bucket(c.budgets[k].thresholds[i].at));
    assert Reached(c, w.ledger, k, i, period);
    if key !in w'.ledger.notified {
      var r :| OnItsWay(c, w, r, k, i, period);
      assert OnItsWay(c, w', r, k, i, period);
    }
  }

  lemma {:induction false} RunNotes(c: Config, cal: Calendar, run: seq<World>, events: seq<Event>, n: nat)
    requires IsRun(c, cal, run, events) && n < |run|
    ensures NotesOk(c, run[n]) && FiredOnce(run[n].ledger)
  {
    RunAddersPay(c, cal, run, events, n);
    if n > 0 {
      RunNotes(c, cal, run, events, n - 1);
      assert Enabled(c, run[n - 1], events[n - 1]) && run[n] == Next(c, cal, run[n - 1], events[n - 1]);
      StepKeepsNotes(c, cal, run[n - 1], events[n - 1]);
      StepFiresOnce(c, cal, run[n - 1], events[n - 1]);
    }
  }

  lemma {:induction false} RunSettles(
      c: Config, cal: Calendar, run: seq<World>, events: seq<Event>, n: nat, k: nat, i: nat, period: int)
    requires IsRun(c, cal, run, events) && n < |run| && DistinctNames(c)
    requires k < |c.budgets| && i < |c.budgets[k].thresholds|
    ensures Settled(c, run[n], k, i, period)
  {
    if n > 0 {
      RunSettles(c, cal, run, events, n - 1, k, i, period);
      RunAddersPay(c, cal, run, events, n - 1);
      assert Enabled(c, run[n - 1], events[n - 1]) && run[n] == Next(c, cal, run[n - 1], events[n - 1]);
      StepSettles(c, cal, run[n - 1], events[n - 1], k, i, period);
    }
  }

  /** A (budget, period, bucket) is announced at most once in any run. */
  lemma FiresAtMostOnce(c: Config, cal: Calendar, run: seq<World>, events: seq<Event>, n: nat)
    requires IsRun(c, cal, run, events) && n < |run|
    ensures var fired := run[n].ledger.fired; forall i, j :: 0 <= i < j < |fired| ==> fired[i] != fired[j]
  {
    RunNotes(c, cal, run, events, n);
  }

  ghost predicate Quiet(w: World) {
    forall r :: 0 <= r < |w.phases| ==> !w.phases[r].Notifying?
  }

  /** Threshold `j` of budget `k` shares the bucket of threshold `i` and has been reached. */
  ghost predicate ReachedInBucket(c: Config, l: Ledger, k: nat, i: nat, j: nat, period: int)
    requires k < |c.budgets| && i < |c.budgets[k].thresholds|
  {
    && j < |c.budgets[k].thresholds| && Reached(c, l, k, j, period)
    && Bucket(c.budgets[k].thresholds[j].at) == Bucket(c.budgets[k].thresholds[i].at)
  }

  /** With nobody in the middle of notifying, a bucket has been announced exactly when usage has reached one of
      the thresholds that fall into it. */
  lemma AnnouncedExactly(
      c: Config, cal: Calendar, run: seq<World>, events: seq<Event>, n: nat, k: nat, i: nat, period: int)
    requires IsRun(c, cal, run, events) && n < |run| && DistinctNames(c) && Quiet(run[n])
    requires k < |c.budgets| && i < |c.budgets[k].thresholds|
    ensures
      var b := c.budgets[k];
      (b.name, period, Bucket(b.thresholds[i].at)) in run[n].ledger.fired <==>
          exists j :: ReachedInBucket(c, run[n].ledger, k, i, j, period)
  {
    var b, l := c.budgets[k], run[n].ledger;
    var key := (b.name, period, Bucket(b.thresholds[i].at));
    RunNotes(c, cal, run, events, n);
    if key in l.fired {
      var k', j :| Accounts(c, l, key, k', j);
      assert k' == k;
      assert ReachedInBucket(c, l, k, i, j, period);
    }
    if j :| ReachedInBucket(c, l, k, i, j, period) {
      RunSettles(c, cal, run, events, n, k, j, period);
    }
  }

  /** So when a budget's thresholds fall into distinct buckets, each is announced exactly when reached. */
  lemma DistinctBucketsAnnounced(
      c: Config, cal: Calendar, run: seq<World>, events: seq<Event>, n: nat, k: nat, i: nat, period: int)
    requires IsRun(c, cal, run, events) && n < |run| && DistinctNames(c) && Quiet(run[n])
    requires k < |c.budgets| && i < |c.budgets[k].thresholds|
    requires
      var ts := c.budgets[k].thresholds;
      forall j :: 0 <= j < |ts| && j != i ==> Bucket(ts[j].at) != Bucket(ts[i].at)
    ensures
      var b := c.budgets[k];
      (b.name, period, Bucket(b.thresholds[i].at)) in run[n].ledger.fired <==> Reached(c, run[n].ledger, k, i, period)
  {
    AnnouncedExactly(c, cal, run, events, n, k, i, period);
    assert Reached(c, run[n].ledger, k, i, period) ==> ReachedInBucket(c, run[n].ledger, k, i, i, period);
  }

  /** Thresholds half a percent apart share a bucket: the second one's announcement is never made. */
  lemma SharedBucket(b: Budget, period: int, used: real)
    requires b.thresholds == [Threshold(0.5, "notify"), Threshold(0.505, "notify")] && Pct(b, used) >= 0.505
    ensures NoteAll(Ledger(map[], {}, []), b, period, used, 2).fired == [(b.name, period, 50)]
  {
    var l1 := NoteAll(Ledger(map[], {}, []), b, period, used, 1);
    assert Bucket(0.5) == 50 && Bucket(0.505) == 50;
    assert NoteAll(Ledger(map[], {}, []), b, period, used, 0) == Ledger(map[], {}, []);
    assert l1.notified == {(b.name, period, 50)};
  }

  // ---- A request that records undisturbed ----

  function StepsLeft(c: Config, p: Phase): nat {
    var n := |c.budgets|;
    match p
    case Adding(b) => if b <= n then 1 + 2 * (n - b) else 1
    case Notifying(b, _, _, _) => if b < n then 2 * (n - b) else 2
    case _ => 0
  }

  function ThresholdsLeft(c: Config, p: Phase): nat {
    if p.Notifying? && p.b < |c.budgets| && p.t < |c.budgets[p.b].thresholds|
    then |c.budgets[p.b].thresholds| - p.t else 0
  }

  /** Let request `r` finish recording with no other step in between, all at one clock reading. */
  function Finish(c: Config, cal: Calendar, now: int, l: Ledger, r: nat, p: Phase): Ledger
    requires r < |c.requests|
    decreases StepsLeft(c, p), ThresholdsLeft(c, p)
  {
    if !p.Adding? && !p.Notifying? then l
    else
      var (l', p') := Advance(c, cal, now, l, r, p);
      Finish(c, cal, now, l', r, p')
  }

  lemma {:induction false} NotifyAlone(
      c: Config, cal: Calendar, now: int, l: Ledger, r: nat, b: nat, period: int, used: real, t: nat)
    requires r < |c.requests| && b < |c.budgets| && t <= |c.budgets[b].thresholds|
    ensures
      var budget := c.budgets[b];
      Finish(c, cal, now, NoteAll(l, budget, period, used, t), r, Notifying(b, period, used, t))
      == Finish(c, cal, now, NoteAll(l, budget, period, used, |budget.thresholds|), r, Adding(b + 1))
    decreases |c.budgets[b].thresholds| - t
  {
    if t < |c.budgets[b].thresholds| {
      NotifyAlone(c, cal, now, l, r, b, period, used, t + 1);
    }
  }

  lemma {:induction false} MatchingGrows(bs: seq<Budget>, b: Budget, projectId: string, keyId: string)
    ensures Matching(bs + [b], projectId, keyId) ==
              Matching(bs, projectId, keyId) + if Targets(b, projectId, keyId) then [b] else []
  {
    if bs == [] {
      assert bs + [b] == [b];
    } else {
      assert (bs + [b])[1..] == bs[1..] + [b];
      MatchingGrows(bs[1..], b, projectId, keyId);
    }
  }

  lemma {:induction false} RecordPrefix(
      l: Ledger, bs: seq<Budget>, more: seq<Budget>, cal: Calendar, clock: nat -> int, cost: real, n: nat)
    requires n <= |bs|
    ensures RecordAll(l, bs + more, cal, clock, cost, n) == RecordAll(l, bs, cal, clock, cost, n)
  {
    if n > 0 {
      RecordPrefix(l, bs, more, cal, clock, cost, n - 1);
    }
  }

  /** A clock that stands still. */
  function Always(now: int): nat -> int {
    _ => now
  }

  /** The ledger after the budgets before `b` have been recorded. */
  function RecordedBefore(c: Config, cal: Calendar, now: int, l: Ledger, r: nat, b: nat): Ledger
    requires r < |c.requests| && b <= |c.budgets|
  {
    var q := c.requests[r];
    var bs := Matching(c.budgets[..b], q.projectId, q.keyId);
    RecordAll(l, bs, cal, Always(now), q.cost, |bs|)
  }

  lemma RecordLast(l: Ledger, bs: seq<Budget>, cal: Calendar, clock: nat -> int, cost: real)
    requires bs != []
    ensures
      var n := |bs| - 1;
      RecordAll(l, bs, cal, clock, cost, |bs|)
      == RecordOne(RecordAll(l, bs, cal, clock, cost, n), bs[n], cal(bs[n].period, clock(n)), cost)
  {
  }

  /** Only the budgets that apply, up to and including budget `b`. */
  lemma MatchingUpTo(c: Config, r: nat, b: nat)
    requires r < |c.requests| && b < |c.budgets|
    ensures
      var q := c.requests[r];
      Matching(c.budgets[..b + 1], q.projectId, q.keyId)
      == Matching(c.budgets[..b], q.projectId, q.keyId) + if Applies(c, b, r) then [c.budgets[b]] else []
  {
    assert c.budgets[..b + 1] == c.budgets[..b] + [c.budgets[b]];
    MatchingGrows(c.budgets[..b], c.budgets[b], c.requests[r].projectId, c.requests[r].keyId);
  }

  lemma RecordNext(c: Config, cal: Calendar, now: int, l: Ledger, r: nat, b: nat)
    requires r < |c.requests| && b < |c.budgets|
    ensures
      var before := RecordedBefore(c, cal, now, l, r, b);
      RecordedBefore(c, cal, now, l, r, b + 1) ==
        if Applies(c, b, r) then RecordOne(before, c.budgets[b], cal(c.budgets[b].period, now),
              c.requests[r].cost) else before
  {
    var q, budget := c.requests[r], c.budgets[b];
    var bs := Matching(c.budgets[..b], q.projectId, q.keyId);
    var bs' := Matching(c.budgets[..b + 1], q.projectId, q.keyId);
    MatchingUpTo(c, r, b);
    if Applies(c, b, r) {
      assert bs' == bs + [budget] && bs'[|bs|] == budget;
      RecordPrefix(l, bs, [budget], cal, Always(now), q.cost, |bs|);
      RecordLast(l, bs', cal, Always(now), q.cost);
      assert Always(now)(|bs|) == now && |bs'| - 1 == |bs|;
    } else {
      assert bs' == bs;
    }
  }

  lemma {:induction false} FinishFrom(c: Config, cal: Calendar, now: int, l: Ledger, r: nat, b: nat)
    requires r < |c.requests| && b <= |c.budgets|
    ensures Finish(c, cal, now, RecordedBefore(c, cal, now, l, r, b), r, Adding(b)) ==
              RecordedBefore(c, cal, now, l, r, |c.budgets|)
    decreases |c.budgets| - b
  {
    if b < |c.budgets| {
      FinishFrom(c, cal, now, l, r, b + 1);
      RecordNext(c, cal, now, l, r, b);
      if Applies(c, b, r) {
        var budget, period := c.budgets[b], cal(c.budgets[b].period, now);
        var added := Add(RecordedBefore(c, cal, now, l, r, b), budget.name, period, c.requests[r].cost);
        NotifyAlone(c, cal, now, added, r, b, period, Used(added, budget.name, period), 0);
      }
    }
  }

  /** Undisturbed, the steps of a request whose response has come are what the budget manager's method does. */
  lemma RecordingAlone(c: Config, cal: Calendar, now: int, l: Ledger, r: nat)
    requires r < |c.requests|
    ensures
      var q := c.requests[r];
      var bs := Matching(c.budgets, q.projectId, q.keyId);
      var (l', p) := Advance(c, cal, now, l, r, InFlight);
      && l' == l
      && Finish(c, cal, now, l, r, p) ==
         if q.cost <= 0.0 then l else RecordAll(l, bs, cal, Always(now), q.cost, |bs|)
  {
    FinishFrom(c, cal, now, l, r, 0);
    assert c.budgets[..0] == [] && c.budgets[..|c.budgets|] == c.budgets;
  }

  // ---- A request that is checked undisturbed ----

  /** Let request `r` finish its checks from budget `b` on with no other step in between. */
  function CheckOn(c: Config, cal: Calendar, now: int, l: Ledger, r: nat, b: nat): Phase
    requires r < |c.requests|
    decreases if b <= |c.budgets| then |c.budgets| - b + 1 else 0
  {
    var p := Advance(c, cal, now, l, r, Checking(b)).1;
    if p.Checking? && b < |c.budgets| then CheckOn(c, cal, now, l, r, b + 1) else p
  }

  lemma {:induction false} CheckOnIs(c: Config, cal: Calendar, now: int, l: Ledger, r: nat, b: nat)
    requires r < |c.requests| && b <= |c.budgets|
    ensures CheckOn(c, cal, now, l, r, b) == InFlight || CheckOn(c, cal, now, l, r, b) == Blocked
    ensures CheckOn(c, cal, now, l, r, b) == Blocked <==>
            exists i :: b <= i < |c.budgets| && StopsAt(c, cal, now, l, r, i)
    decreases |c.budgets| - b
  {
    if b < |c.budgets| {
      CheckOnIs(c, cal, now, l, r, b + 1);
      assert StopsAt(c, cal, now, l, r, b) || !StopsAt(c, cal, now, l, r, b);
    }
  }

  ghost predicate StopsAt(c: Config, cal: Calendar, now: int, l: Ledger, r: nat, i: nat)
    requires r < |c.requests| && i < |c.budgets|
  {
    var b, q := c.budgets[i], c.requests[r];
    Targets(b, q.projectId, q.keyId) && Blocks(b, Used(l, b.name, cal(b.period, now)))
  }

  /** What the budget manager's check answers, all at one clock reading. */
  ghost predicate WouldBlock(bs: seq<Budget>, cal: Calendar, now: int, l: Ledger) {
    exists i :: 0 <= i < |bs| && Blocks(bs[i], Used(l, bs[i].name, cal(bs[i].period, now)))
  }

  /** Undisturbed, the check steps of one request block it exactly when the budget manager's method would. */
  lemma CheckingAlone(c: Config, cal: Calendar, now: int, l: Ledger, r: nat)
    requires r < |c.requests|
    ensures CheckOn(c, cal, now, l, r, 0) == Blocked <==>
            WouldBlock(Matching(c.budgets, c.requests[r].projectId, c.requests[r].keyId), cal, now, l)
  {
    var bs := Matching(c.budgets, c.requests[r].projectId, c.requests[r].keyId);
    CheckOnIs(c, cal, now, l, r, 0);
    if i :| 0 <= i < |c.budgets| && StopsAt(c, cal, now, l, r, i) {
      assert c.budgets[i] in bs;
      var j :| 0 <= j < |bs| && bs[j] == c.budgets[i];
      assert Blocks(bs[j], Used(l, bs[j].name, cal(bs[j].period, now)));
    }
    if WouldBlock(bs, cal, now, l) {
      var j :| 0 <= j < |bs| && Blocks(bs[j], Used(l, bs[j].name, cal(bs[j].period, now)));
      assert bs[j] in bs;
      var i :| 0 <= i < |c.budgets| && c.budgets[i] == bs[j];
      assert StopsAt(c, cal, now, l, r, i);
    }
  }
}
