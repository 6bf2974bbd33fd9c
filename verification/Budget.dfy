/** Budgets: the usage ledger, the blocking check and the threshold notifications. */
module Budget {
  import opened Common

  datatype Threshold = Threshold(at: real, action: string)

  datatype Budget = Budget(
    name: string, projectId: Option<string>, gatewayKeyId: Option<string>,
    period: string, amountUsd: real, thresholds: seq<Threshold>)

  /** When the current period of a kind started, at a clock reading; later readings never give an earlier start. */
  type Calendar = (string, int) -> int

  ghost predicate Monotone(cal: Calendar) {
    forall kind, a, b :: a <= b ==> cal(kind, a) <= cal(kind, b)
  }

  type NoteKey = (string, int, nat)

  datatype Ledger = Ledger(usage: map<(string, int), real>, notified: set<NoteKey>, fired: seq<NoteKey>)

  const U32_MAX: nat := 0xFFFF_FFFF

  predicate Targets(b: Budget, projectId: string, keyId: string) {
    (b.projectId.None? || b.projectId.value == projectId) && (b.gatewayKeyId.None? || b.gatewayKeyId.value == keyId)
  }

  function Used(l: Ledger, name: string, period: int): real {
    if (name, period) in l.usage then l.usage[(name, period)] else 0.0
  }

  function Pct(b: Budget, used: real): real {
    if b.amountUsd > 0.0 then used / b.amountUsd else 0.0
  }

  /** `(at * 100.0) as u32`: truncating and saturating. */
  function Bucket(at: real): nat {
    var n := (at * 100.0).Floor;
    if n < 0 then 0 else if n > U32_MAX then U32_MAX else n
  }

  predicate Blocks(b: Budget, used: real) {
    exists i :: 0 <= i < |b.thresholds| && Pct(b, used) >= b.thresholds[i].at && b.thresholds[i].action == "block"
  }

  // ---- Ledger steps ----

  function Add(l: Ledger, name: string, period: int, delta: real): Ledger {
    l.(usage := l.usage[(name, period) := Used(l, name, period) + delta])
  }

  /** Threshold `t` of `b` is looked at with the usage read when the cost was added. */
  function Note(l: Ledger, b: Budget, period: int, used: real, t: Threshold): Ledger {
    var key := (b.name, period, Bucket(t.at));
    if Pct(b, used) >= t.at && key !in l.notified
    then l.(notified := l.notified + {key}, fired := l.fired + [key]) else l
  }

  /** After the first `n` thresholds of `b`. */
  function NoteAll(l: Ledger, b: Budget, period: int, used: real, n: nat): Ledger
    requires n <= |b.thresholds|
  {
    if n == 0 then l else Note(NoteAll(l, b, period, used, n - 1), b, period, used, b.thresholds[n - 1])
  }

  function RecordOne(l: Ledger, b: Budget, period: int, cost: real): Ledger {
    var added := Add(l, b.name, period, cost);
    NoteAll(added, b, period, Used(added, b.name, period), |b.thresholds|)
  }

  /** After the first `n` budgets, each at its own clock reading. */
  function RecordAll(l: Ledger, bs: seq<Budget>, cal: Calendar, clock: nat -> int, cost: real, n: nat): Ledger
    requires n <= |bs|
  {
    if n == 0 then l
    else RecordOne(RecordAll(l, bs, cal, clock, cost, n - 1), bs[n - 1], cal(bs[n - 1].period, clock(n - 1)), cost)
  }

  /** The budgets that apply to a caller, in configuration order. */
  function Matching(bs: seq<Budget>, projectId: string, keyId: string): (r: seq<Budget>)
    ensures forall b :: b in r <==> b in bs && Targets(b, projectId, keyId)
  {
    if bs == [] then []
    else
      assert bs == [bs[0]] + bs[1..];
      (if Targets(bs[0], projectId, keyId) then [bs[0]] else []) + Matching(bs[1..], projectId, keyId)
  }

  class BudgetManager {
    var usage: map<(string, int), real>
    var notified: set<NoteKey>
    var fired: seq<NoteKey>
    const budgets: seq<Budget>

    ghost function View(): Ledger
      reads this
    {
      Ledger(usage, notified, fired)
    }

    constructor (budgets: seq<Budget>)
      ensures this.budgets == budgets && View() == Ledger(map[], {}, [])
    {
      this.budgets, usage, notified, fired := budgets, map[], {}, [];
    }

    method IncrBudget(name: string, period: int, delta: real) returns (used: real)
      modifies this`usage
      ensures View() == Add(old(View()), name, period, delta) && used == Used(View(), name, period)
    {
      var before := if (name, period) in usage then usage[(name, period)] else 0.0;
      usage := usage[(name, period) := before + delta];
      used := usage[(name, period)];
    }

    /** Blocked exactly when some budget that applies has reached one of its blocking thresholds. */
    method CheckBlock(projectId: string, keyId: string, cal: Calendar, clock: nat -> int) returns (blocked: bool)
      ensures
        var bs := Matching(budgets, projectId, keyId);
        blocked <==> exists i :: 0 <= i < |bs| && Blocks(bs[i], Used(View(), bs[i].name, cal(bs[i].period, clock(i))))
    {
      var bs := Matching(budgets, projectId, keyId);
      for n := 0 to |bs|
        invariant forall i :: 0 <= i < n ==> !Blocks(bs[i], Used(View(), bs[i].name, cal(bs[i].period, clock(i))))
      {
        var b := bs[n];
        var period := cal(b.period, clock(n));
        var used := if (b.name, period) in usage then usage[(b.name, period)] else 0.0;
        for j := 0 to |b.thresholds|
          invariant forall i :: 0 <= i < j ==>
                    !(Pct(b, used) >= b.thresholds[i].at && b.thresholds[i].action == "block")
        {
          if Pct(b, used) >= b.thresholds[j].at && b.thresholds[j].action == "block" {
            assert Blocks(bs[n], Used(View(), bs[n].name, cal(bs[n].period, clock(n))));
            return true;
          }
        }
      }
      blocked := false;
    }

    method NoteThresholds(b: Budget, period: int, used: real)
      modifies this`notified, this`fired
      ensures View() == NoteAll(old(View()), b, period, used, |b.thresholds|)
    {
      for n := 0 to |b.thresholds|
        invariant usage == old(usage) && View() == NoteAll(old(View()), b, period, used, n)
      {
        var t := b.thresholds[n];
        if Pct(b, used) >= t.at {
          var key := (b.name, period, Bucket(t.at));
          if key !in notified {
            notified := notified + {key};
            fired := fired + [key];
          }
        }
      }
    }

    method RecordCost(projectId: string, keyId: string, cost: real, cal: Calendar, clock: nat -> int)
      modifies this
      ensures
        var bs := Matching(budgets, projectId, keyId);
        View() == if cost <= 0.0 then old(View()) else RecordAll(old(View()), bs, cal, clock, cost, |bs|)
    {
      if cost <= 0.0 {
        return;
      }
      var bs := Matching(budgets, projectId, keyId);
      for n := 0 to |bs|
        invariant View() == RecordAll(old(View()), bs, cal, clock, cost, n)
      {
        var period := cal(bs[n].period, clock(n));
        var used := IncrBudget(bs[n].name, period, cost);
        NoteThresholds(bs[n], period, used);
      }
    }
  }

  // ---- Arithmetic of shares ----

  lemma ShareMonotone(b: Budget, u: real, v: real)
    requires u <= v
    ensures Pct(b, u) <= Pct(b, v)
  {
    if b.amountUsd > 0.0 {
      var a := b.amountUsd;
      assert u == (u / a) * a && v == (v / a) * a;
      if u / a > v / a {
        assert (u / a - v / a) * a > 0.0;
      }
    }
  }

  lemma ShareReaches(b: Budget, used: real, at: real)
    requires b.amountUsd > 0.0
    ensures Pct(b, used) >= at <==> used >= at * b.amountUsd
  {
    var a := b.amountUsd;
    assert used == (used / a) * a;
    if used / a >= at {
      assert (used / a - at) * a >= 0.0;
    } else {
      assert (at - used / a) * a > 0.0;
    }
  }

  /** A budget that blocks goes on blocking while its usage does not fall. */
  lemma BlockPersists(b: Budget, u: real, v: real)
    requires u <= v && Blocks(b, u)
    ensures Blocks(b, v)
  {
    var i :| 0 <= i < |b.thresholds| && Pct(b, u) >= b.thresholds[i].at && b.thresholds[i].action == "block";
    ShareMonotone(b, u, v);
  }

  // ---- What recording does to the ledger ----

  /** What the first `n` budgets are charged under (name, period). */
  function Charged(
      bs: seq<Budget>, cal: Calendar, clock: nat -> int, cost: real, n: nat, name: string, period: int): real
    requires n <= |bs|
  {
    if n == 0 then 0.0
    else Charged(bs, cal, clock, cost, n - 1, name, period)
         + if bs[n - 1].name == name && cal(bs[n - 1].period, clock(n - 1)) == period then cost else 0.0
  }

  lemma {:induction false} NotesKeepUsage(l: Ledger, b: Budget, period: int, used: real, n: nat)
    requires n <= |b.thresholds|
    ensures NoteAll(l, b, period, used, n).usage == l.usage
  {
    if n > 0 {
      NotesKeepUsage(l, b, period, used, n - 1);
    }
  }

  /** Recording adds the cost once for each budget that applies, in the period its clock reading falls into. */
  lemma {:induction false} RecordAdds(
      l: Ledger, bs: seq<Budget>, cal: Calendar, clock: nat -> int, cost: real, n: nat, name: string, period: int)
    requires n <= |bs|
    ensures Used(RecordAll(l, bs, cal, clock, cost, n), name, period)
         == Used(l, name, period) + Charged(bs, cal, clock, cost, n, name, period)
  {
    if n > 0 {
      var b, p := bs[n - 1], cal(bs[n - 1].period, clock(n - 1));
      var before := RecordAll(l, bs, cal, clock, cost, n - 1);
      RecordAdds(l, bs, cal, clock, cost, n - 1, name, period);
      var added := Add(before, b.name, p, cost);
      NotesKeepUsage(added, b, p, Used(added, b.name, p), |b.thresholds|);
    }
  }

  ghost predicate FallsInto(b: Budget, period: int, used: real, j: nat, key: NoteKey)
    requires j < |b.thresholds|
  {
    Pct(b, used) >= b.thresholds[j].at && key == (b.name, period, Bucket(b.thresholds[j].at))
  }

  /** Looking at the thresholds notes exactly the buckets of those reached, and announces exactly the new ones. */
  lemma {:induction false} NotesExactly(l: Ledger, b: Budget, period: int, used: real, n: nat, key: NoteKey)
    requires n <= |b.thresholds|
    ensures
      var l' := NoteAll(l, b, period, used, n);
      && (key in l'.notified <==> key in l.notified || exists j :: 0 <= j < n && FallsInto(b, period, used, j, key))
      && (key in l'.fired <==> key in l.fired || (key in l'.notified && key !in l.notified))
  {
    if n > 0 {
      NotesExactly(l, b, period, used, n - 1, key);
      assert FallsInto(b, period, used, n - 1, key) || !FallsInto(b, period, used, n - 1, key);
    }
  }

  // ---- Whom a budget applies to, and its buckets ----

  /** A budget applies to the callers of its project and its key, each when it names one. */
  lemma AppliesTo(bs: seq<Budget>, b: Budget, projectId: string, keyId: string)
    ensures b in Matching(bs, projectId, keyId) <==>
            && b in bs
            && (b.projectId == None || b.projectId == Some(projectId))
            && (b.gatewayKeyId == None || b.gatewayKeyId == Some(keyId))
  {
  }

  /** A threshold's bucket is its whole percentage; below zero it is 0, and beyond 32 bits the largest value. */
  lemma BucketIsPercentage(at: real, k: nat)
    ensures k as real <= at * 100.0 < k as real + 1.0 && k < 0x1_0000_0000 ==> Bucket(at) == k
    ensures at < 0.0 ==> Bucket(at) == 0
    ensures at * 100.0 >= 4294967296.0 ==> Bucket(at) == 4294967295
  {
  }

  /** A budget without a positive amount counts as unused. */
  lemma NoAmount(b: Budget, used: real)
    requires b.amountUsd <= 0.0
    ensures Blocks(b, used) <==>
            exists i :: 0 <= i < |b.thresholds| && b.thresholds[i].at <= 0.0 && b.thresholds[i].action == "block"
  {
    if i :| 0 <= i < |b.thresholds| && b.thresholds[i].at <= 0.0 && b.thresholds[i].action == "block" {
      assert Pct(b, used) >= b.thresholds[i].at;
    }
  }
}
