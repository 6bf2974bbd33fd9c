/** Repricing stored requests: the log store's in-place update and the sweep over all (provider, model) keys. */
module Recompute {
  import opened Common
  import opened Ordering
  import opened Catalog
  import opened Calculator
  import opened RequestLog
  import opened Retry
  import opened ChainExecutor
  import opened Attribution
  import opened ProxyCache

  type CostKey = (string, string)

  datatype Window = Window(from: Option<int>, to: Option<int>)

  predicate InRange(w: Window, ts: int) {
    (w.from.None? || ts >= w.from.value) && (w.to.None? || ts <= w.to.value)
  }

  predicate HasTokens(r: LogRecord) {
    r.promptTokens.Some? || r.completionTokens.Some?
  }

  /** The key a record is repriced under: none when it is out of range, has no tokens, or has no model or provider. */
  function KeyIn(w: Window, r: LogRecord): Option<CostKey> {
    if HasTokens(r) && InRange(w, r.requestTs) && ResolveProvider(r).Some? && r.model.Some?
    then Some((ResolveProvider(r).value, r.model.value)) else None
  }

  datatype Rates = Rates(input: real, cachedInput: real, output: real)

  function RatesOf(e: PricingEntry): Rates {
    Rates(e.inputPer1k, e.cachedInputPer1k.UnwrapOr(e.inputPer1k), e.outputPer1k)
  }

  function Repriced(rates: Rates, r: LogRecord): LogRecord {
    var usage := Usage(r.promptTokens.UnwrapOr(0), r.completionTokens.UnwrapOr(0), r.cachedTokens.UnwrapOr(0));
    var cost := CostAt(rates.input, rates.cachedInput, rates.output, usage);
    r.(wouldHaveCostUsd := Some(cost), costUsd := Some(if r.cached then 0.0 else cost))
  }

  // ---- Keys in order, without duplicates ----

  predicate KeyLeq(a: CostKey, b: CostKey) {
    if a.0 == b.0 then LexLeq(Codes(a.1), Codes(b.1)) else LexLeq(Codes(a.0), Codes(b.0))
  }

  lemma KeyOrder()
    ensures TotalPreorder(KeyLeq)
    ensures forall a, b :: KeyLeq(a, b) && KeyLeq(b, a) ==> a == b
  {
    forall a: CostKey, b: CostKey
      ensures KeyLeq(a, b) || KeyLeq(b, a)
      ensures KeyLeq(a, b) && KeyLeq(b, a) ==> a == b
    {
      StringOrder(a.0, b.0);
      StringOrder(a.1, b.1);
    }
    forall a: CostKey, b: CostKey, c: CostKey | KeyLeq(a, b) && KeyLeq(b, c) ensures KeyLeq(a, c) {
      KeyTransitive(a, b, c);
    }
  }

  lemma KeyTransitive(a: CostKey, b: CostKey, c: CostKey)
    requires KeyLeq(a, b) && KeyLeq(b, c)
    ensures KeyLeq(a, c)
  {
    if a.0 == b.0 == c.0 {
      LexTransitive(Codes(a.1), Codes(b.1), Codes(c.1));
    } else if a.0 != b.0 && b.0 != c.0 {
      LexTransitive(Codes(a.0), Codes(b.0), Codes(c.0));
      StringOrder(a.0, b.0);
    }
  }

  /** `dedup`: drop each element equal to the one before it. */
  function Dedup(keys: seq<CostKey>): seq<CostKey> {
    if |keys| <= 1 then keys
    else Dedup(keys[..|keys| - 1]) + if keys[|keys| - 1] == keys[|keys| - 2] then [] else [keys[|keys| - 1]]
  }

  /** On sorted keys that leaves each key once. */
  lemma {:induction false} DedupFacts(keys: seq<CostKey>)
    requires Sorted(KeyLeq, keys)
    ensures forall k :: k in Dedup(keys) <==> k in keys
    ensures Sorted(KeyLeq, Dedup(keys)) && Distinct(Dedup(keys))
  {
    if |keys| > 1 {
      var n := |keys| - 1;
      var init := keys[..n];
      assert keys == init + [keys[n]];
      DedupFacts(init);
      forall k | k in init ensures KeyLeq(k, keys[n]) && (k == keys[n] ==> keys[n] == keys[n - 1]) {
        var i :| 0 <= i < n && keys[i] == k;
        KeyOrder();
      }
      assert init[n - 1] in init;
    }
  }

  /** The sorted enumeration of the keys present. */
  ghost predicate IsKeyList(rows: seq<LogRecord>, w: Window, keys: seq<CostKey>) {
    && Sorted(KeyLeq, keys) && Distinct(keys)
    && forall k :: k in keys <==> exists r :: r in rows && KeyIn(w, r) == Some(k)
  }

  // ---- The sweep on values ----

  /** A record with a priced key gets its current price; every other record stays as it is. */
  function SweepRow(c: Catalog, w: Window, r: LogRecord): LogRecord {
    match KeyIn(w, r)
    case None => r
    case Some((provider, model)) =>
      match Lookup(c, provider, model)
      case None => r
      case Some(e) => Repriced(RatesOf(e), r)
  }

  function Hits(rows: seq<LogRecord>, w: Window, ks: set<CostKey>): nat {
    if rows == [] then 0
    else Hits(rows[..|rows| - 1], w, ks)
          + Unit(KeyIn(w, rows[|rows| - 1]).Some? && KeyIn(w, rows[|rows| - 1]).value in ks)
  }

  lemma {:induction false} HitsAdd(rows: seq<LogRecord>, w: Window, ks: set<CostKey>, k: CostKey)
    requires k !in ks
    ensures Hits(rows, w, ks + {k}) == Hits(rows, w, ks) + Hits(rows, w, {k})
  {
    if rows != [] {
      HitsAdd(rows[..|rows| - 1], w, ks, k);
    }
  }

  lemma {:induction false} HitsAgree(a: seq<LogRecord>, b: seq<LogRecord>, w: Window, ks: set<CostKey>)
    requires |a| == |b| && forall i :: 0 <= i < |a| ==> KeyIn(w, a[i]) == KeyIn(w, b[i])
    ensures Hits(a, w, ks) == Hits(b, w, ks)
  {
    if a != [] {
      HitsAgree(a[..|a| - 1], b[..|b| - 1], w, ks);
    }
  }

  /** `after` is `before` with exactly the records under the keys in `ks` swept. */
  ghost predicate SweptFor(c: Catalog, w: Window, ks: set<CostKey>, before: seq<LogRecord>, after: seq<LogRecord>) {
    && |after| == |before|
    && forall i :: 0 <= i < |before| ==>
         after[i] == if KeyIn(w, before[i]).Some? && KeyIn(w, before[i]).value in ks
                     then SweepRow(c, w, before[i]) else before[i]
  }

  /** `after` is `before` with exactly the records under `k` repriced. */
  ghost predicate RepricedUnder(w: Window, k: CostKey, rates: Rates, before: seq<LogRecord>, after: seq<LogRecord>) {
    && |after| == |before|
    && forall i :: 0 <= i < |before| ==>
         after[i] == if KeyIn(w, before[i]) == Some(k) then Repriced(rates, before[i]) else before[i]
  }

  predicate Priced(c: Catalog, k: CostKey) {
    Lookup(c, k.0, k.1).Some?
  }

  // ---- The store ----

  /** The test of the loop: the same provider, model and window, and some token count. */
  predicate IsUnder(w: Window, r: LogRecord, provider: string, model: string)
    ensures IsUnder(w, r, provider, model) <==> KeyIn(w, r) == Some((provider, model))
  {
    !( || ResolveProvider(r) != Some(provider) || r.model != Some(model)
       || (r.promptTokens.None? && r.completionTokens.None?)
       || (w.from.Some? && r.requestTs < w.from.value)
       || (w.to.Some? && r.requestTs > w.to.value))
  }

  lemma {:induction false} HitsStep(rows: seq<LogRecord>, i: nat, w: Window, k: CostKey)
    requires i < |rows|
    ensures Hits(rows[..i + 1], w, {k}) == Hits(rows[..i], w, {k}) + Unit(KeyIn(w, rows[i]) == Some(k))
  {
    assert rows[..i + 1][..i] == rows[..i];
  }

  class MemoryLogStore {
    var rows: seq<LogRecord>

    method DistinctCostKeys(w: Window) returns (keys: seq<CostKey>)
      ensures IsKeyList(rows, w, keys)
    {
      keys := [];
      for i := 0 to |rows|
        invariant forall k :: k in keys <==> exists j :: 0 <= j < i && KeyIn(w, rows[j]) == Some(k)
      {
        var key := KeyIn(w, rows[i]);
        if key.Some? {
          keys := keys + [key.value];
        }
      }
      assert forall k :: k in keys <==> exists r :: r in rows && KeyIn(w, r) == Some(k);
      KeyOrder();
      SortSorts(KeyLeq, keys);
      forall k ensures k in Sort(KeyLeq, keys) <==> k in keys { SortMembers(KeyLeq, keys, k); }
      DedupFacts(Sort(KeyLeq, keys));
      keys := Dedup(Sort(KeyLeq, keys));
    }

    /** Update in place every record under one key, and count them. */
    method RecomputeCosts(provider: string, model: string, rates: Rates, w: Window) returns (updated: nat)
      modifies this
      ensures RepricedUnder(w, (provider, model), rates, old(rows), rows)
      ensures updated == Hits(old(rows), w, {(provider, model)})
    {
      ghost var before := rows;
      updated := 0;
      var i := 0;
      while i < |rows|
        invariant i <= |rows| == |before|
        invariant forall j :: 0 <= j < i ==>
                    rows[j] == if KeyIn(w, before[j]) == Some((provider, model))
                               then Repriced(rates, before[j]) else before[j]
        invariant forall j :: i <= j < |rows| ==> rows[j] == before[j]
        invariant updated == Hits(before[..i], w, {(provider, model)})
      {
        var r := rows[i];
        HitsStep(before, i, w, (provider, model));
        if IsUnder(w, r, provider, model) {
          rows := rows[i := Repriced(rates, r)];
          updated := updated + 1;
        }
        i := i + 1;
      }
      assert before[..|before|] == before;
    }
  }

  datatype Report = Report(updatedRows: nat, modelsMatched: nat, modelsWithoutPrice: seq<string>)

  function Label(k: CostKey): string {
    k.0 + "/" + k.1
  }

  /** The labels of the keys that have no price, in order. */
  function Unpriced(c: Catalog, keys: seq<CostKey>): seq<string> {
    if keys == [] then []
    else Unpriced(c, keys[..|keys| - 1]) + if Priced(c, keys[|keys| - 1]) then [] else [Label(keys[|keys| - 1])]
  }

  /** The keys among the first `n` that have a price. */
  ghost function PricedKeys(c: Catalog, keys: seq<CostKey>, n: nat): set<CostKey>
    requires n <= |keys|
  {
    set i | 0 <= i < n && Priced(c, keys[i]) :: keys[i]
  }

  lemma PricedKeysStep(c: Catalog, keys: seq<CostKey>, n: nat)
    requires n < |keys| && Distinct(keys)
    ensures keys[n] !in PricedKeys(c, keys, n)
    ensures PricedKeys(c, keys, n + 1) == PricedKeys(c, keys, n) + if Priced(c, keys[n]) then {keys[n]} else {}
  {
  }

  lemma UnpricedStep(c: Catalog, keys: seq<CostKey>, n: nat)
    requires n < |keys|
    ensures Unpriced(c, keys[..n + 1]) == Unpriced(c, keys[..n]) + if Priced(c, keys[n]) then [] else [Label(keys[n])]
  {
    assert keys[..n + 1][..n] == keys[..n];
  }

  lemma SweepKeepsKey(c: Catalog, w: Window, r: LogRecord)
    ensures KeyIn(w, SweepRow(c, w, r)) == KeyIn(w, r)
  {
  }

  /** One more key: what one store call adds to the sweep. */
  lemma SweepStep(
      c: Catalog, w: Window, ks: set<CostKey>, k: CostKey, before: seq<LogRecord>, mid: seq<LogRecord>,
      after: seq<LogRecord>)
    requires SweptFor(c, w, ks, before, mid) && k !in ks && Priced(c, k)
    requires RepricedUnder(w, k, RatesOf(Lookup(c, k.0, k.1).value), mid, after)
    ensures SweptFor(c, w, ks + {k}, before, after)
    ensures Hits(before, w, ks + {k}) == Hits(before, w, ks) + Hits(mid, w, {k})
  {
    HitsAdd(before, w, ks, k);
    forall i | 0 <= i < |before| ensures KeyIn(w, mid[i]) == KeyIn(w, before[i]) {
      SweepKeepsKey(c, w, before[i]);
    }
    HitsAgree(before, mid, w, {k});
  }

  /** The sweep has dealt with the first `n` keys: their records are swept and each counted once. */
  ghost predicate SweptUpTo(
    c: Catalog, w: Window, keys: seq<CostKey>, n: nat, before: seq<LogRecord>, rows: seq<LogRecord>, report: Report)
    requires n <= |keys|
  {
    var ks := PricedKeys(c, keys, n);
    && SweptFor(c, w, ks, before, rows)
    && report.updatedRows == Hits(before, w, ks)
    && report.modelsMatched == |ks|
    && report.modelsWithoutPrice == Unpriced(c, keys[..n])
  }

  lemma PricedKeyDone(
      c: Catalog, w: Window, keys: seq<CostKey>, n: nat, before: seq<LogRecord>, mid: seq<LogRecord>,
      after: seq<LogRecord>, report: Report, e: PricingEntry)
    requires n < |keys| && Distinct(keys) && SweptUpTo(c, w, keys, n, before, mid, report)
    requires Lookup(c, keys[n].0, keys[n].1) == Some(e) && RepricedUnder(w, keys[n], RatesOf(e), mid, after)
    ensures
      var updated, matched := report.updatedRows + Hits(mid, w, {keys[n]}), report.modelsMatched + 1;
      SweptUpTo(c, w, keys, n + 1, before, after, report.(updatedRows := updated, modelsMatched := matched))
  {
    UnpricedStep(c, keys, n);
    PricedKeysStep(c, keys, n);
    SweepStep(c, w, PricedKeys(c, keys, n), keys[n], before, mid, after);
  }

  lemma UnpricedKeyDone(
      c: Catalog, w: Window, keys: seq<CostKey>, n: nat, before: seq<LogRecord>, rows: seq<LogRecord>, report: Report)
    requires n < |keys| && Distinct(keys) && SweptUpTo(c, w, keys, n, before, rows, report) && !Priced(c, keys[n])
    ensures
      var without := report.modelsWithoutPrice + [Label(keys[n])];
      SweptUpTo(c, w, keys, n + 1, before, rows, report.(modelsWithoutPrice := without))
  {
    UnpricedStep(c, keys, n);
    PricedKeysStep(c, keys, n);
    assert PricedKeys(c, keys, n + 1) == PricedKeys(c, keys, n);
  }

  method SweepKey(
      logs: MemoryLogStore, c: Catalog, w: Window, keys: seq<CostKey>, n: nat, ghost before: seq<LogRecord>,
      report: Report)
    returns (report': Report)
    requires n < |keys| && Distinct(keys) && SweptUpTo(c, w, keys, n, before, logs.rows, report)
    modifies logs
    ensures SweptUpTo(c, w, keys, n + 1, before, logs.rows, report')
  {
    var key := keys[n];
    match Lookup(c, key.0, key.1)
    case Some(e) =>
      ghost var mid := logs.rows;
      var count := logs.RecomputeCosts(key.0, key.1, RatesOf(e), w);
      PricedKeyDone(c, w, keys, n, before, mid, logs.rows, report, e);
      report' := report.(updatedRows := report.updatedRows + count, modelsMatched := report.modelsMatched + 1);
    case None =>
      UnpricedKeyDone(c, w, keys, n, before, logs.rows, report);
      report' := report.(modelsWithoutPrice := report.modelsWithoutPrice + [Label(key)]);
  }

  /** The whole sweep: each record becomes `SweepRow` of what it was, each repriced one counted once. */
  method Sweep(logs: MemoryLogStore, c: Catalog, w: Window) returns (report: Report, ghost keys: seq<CostKey>)
    modifies logs
    ensures IsKeyList(old(logs.rows), w, keys)
    ensures |logs.rows| == |old(logs.rows)|
    ensures forall i :: 0 <= i < |logs.rows| ==> logs.rows[i] == SweepRow(c, w, old(logs.rows)[i])
    ensures report.updatedRows == Due(c, w, old(logs.rows))
    ensures report.modelsMatched == |PricedKeys(c, keys, |keys|)|
    ensures report.modelsWithoutPrice == Unpriced(c, keys)
  {
    ghost var before := logs.rows;
    var list := logs.DistinctCostKeys(w);
    keys := list;
    report := Report(0, 0, []);
    NoHits(before, w);
    assert PricedKeys(c, list, 0) == {};
    for n := 0 to |list|
      invariant SweptUpTo(c, w, list, n, before, logs.rows, report)
    {
      report := SweepKey(logs, c, w, list, n, before, report);
    }
    assert list[..|list|] == list;
    SweptAll(c, w, list, before, logs.rows);
    HitsAreDue(c, w, before, PricedKeys(c, list, |list|));
  }

  /** The number of records that have a priced key. */
  function Due(c: Catalog, w: Window, rows: seq<LogRecord>): nat {
    if rows == [] then 0
    else
      var key := KeyIn(w, rows[|rows| - 1]);
      Due(c, w, rows[..|rows| - 1]) + Unit(key.Some? && Priced(c, key.value))
  }

  ghost predicate Covers(c: Catalog, w: Window, rows: seq<LogRecord>, ks: set<CostKey>) {
    forall i :: 0 <= i < |rows| && KeyIn(w, rows[i]).Some? ==>
          (KeyIn(w, rows[i]).value in ks <==> Priced(c, KeyIn(w, rows[i]).value))
  }

  lemma {:induction false} HitsAreDue(c: Catalog, w: Window, rows: seq<LogRecord>, ks: set<CostKey>)
    requires Covers(c, w, rows, ks)
    ensures Hits(rows, w, ks) == Due(c, w, rows)
  {
    if rows != [] {
      HitsAreDue(c, w, rows[..|rows| - 1], ks);
    }
  }

  lemma {:induction false} NoHits(rows: seq<LogRecord>, w: Window)
    ensures Hits(rows, w, {}) == 0
  {
    if rows != [] {
      NoHits(rows[..|rows| - 1], w);
    }
  }

  /** Sweeping for all priced keys present sweeps everything: a record outside them is one `SweepRow` keeps. */
  lemma SweptAll(c: Catalog, w: Window, keys: seq<CostKey>, before: seq<LogRecord>, after: seq<LogRecord>)
    requires IsKeyList(before, w, keys) && SweptFor(c, w, PricedKeys(c, keys, |keys|), before, after)
    ensures forall i :: 0 <= i < |before| ==> after[i] == SweepRow(c, w, before[i])
    ensures Covers(c, w, before, PricedKeys(c, keys, |keys|))
  {
    forall i | 0 <= i < |before|
      ensures after[i] == SweepRow(c, w, before[i])
      ensures
        var key := KeyIn(w, before[i]);
        key.Some? ==> (key.value in PricedKeys(c, keys, |keys|) <==> Priced(c, key.value))
    {
      var key := KeyIn(w, before[i]);
      assert before[i] in before;
      if key.Some? && Priced(c, key.value) {
        assert key.value in keys;
        assert key.value in PricedKeys(c, keys, |keys|);
      }
    }
  }

  // ---- What the sweep promises ----

  /** A record is repriced only inside the window, whose ends belong to it, and only with a token count, a model and a
      provider; a missing end does not bound it. */
  lemma SweptExactly(c: Catalog, w: Window, r: LogRecord)
    requires ResolveProvider(r).Some? && r.model.Some? && Lookup(c, ResolveProvider(r).value, r.model.value).Some?
    requires r.costUsd.None?
    ensures SweepRow(c, w, r).costUsd.Some? <==>
            && (r.promptTokens.Some? || r.completionTokens.Some?)
            && (w.from.Some? ==> w.from.value <= r.requestTs) && (w.to.Some? ==> r.requestTs <= w.to.value)
  {
  }

  /** Without a model or a provider, or without a price for them, a record is left alone. */
  lemma NotSwept(c: Catalog, w: Window, r: LogRecord)
    requires r.model.None? || ResolveProvider(r).None? || Lookup(c, ResolveProvider(r).value, r.model.value).None?
    ensures SweepRow(c, w, r) == r
  {
  }

  /** The provider read back from a record: the fallback that was used, or else the provider of the last attempt in its
      metadata, or else the namespace. */
  lemma ProviderOrder(
      r: LogRecord, provider: string, earlier: seq<Meta>, last: map<string, Meta>, fields: map<string, Meta>)
    requires last == map["provider" := Text(provider)] && fields == map["attempts" := List(earlier + [Dict(last)])]
    ensures r.fallbackUsed.Some? ==> ResolveProvider(r) == r.fallbackUsed
    ensures r.fallbackUsed.None? && r.metadata == Some(Dict(fields)) ==> ResolveProvider(r) == Some(provider)
    ensures r.fallbackUsed.None? && r.metadata.None? ==> ResolveProvider(r) == r.namespace
  {
  }

  /** The swept cost is the calculator's, on the provider the record leads back to; a cached record stays free. */
  lemma SweepIsCalculator(c: Catalog, w: Window, r: LogRecord)
    requires KeyIn(w, r).Some? && Priced(c, KeyIn(w, r).value)
    ensures
      var cost := PriceOf(c, ResolveProvider(r).value, r.model,
            TokenUsage(r.promptTokens, r.completionTokens, r.cachedTokens));
      && cost.Some?
      && SweepRow(c, w, r) == r.(wouldHaveCostUsd := cost, costUsd := Some(if r.cached then 0.0 else cost.value))
  {
  }

  /** A second sweep with the same catalog changes nothing. */
  lemma SweepRowTwice(c: Catalog, w: Window, r: LogRecord)
    ensures SweepRow(c, w, SweepRow(c, w, r)) == SweepRow(c, w, r)
  {
    if KeyIn(w, r).Some? && Priced(c, KeyIn(w, r).value) {
      SweepIsCalculator(c, w, r);
      var swept := SweepRow(c, w, r);
      assert KeyIn(w, swept) == KeyIn(w, r);
      SweepIsCalculator(c, w, swept);
    }
  }

  /** `after` is what a sweep makes of `before`. */
  ghost predicate Swept(c: Catalog, w: Window, before: seq<LogRecord>, after: seq<LogRecord>) {
    |after| == |before| && forall i :: 0 <= i < |before| ==> after[i] == SweepRow(c, w, before[i])
  }

  lemma {:induction false} SweptDue(c: Catalog, w: Window, before: seq<LogRecord>, after: seq<LogRecord>)
    requires Swept(c, w, before, after)
    ensures Due(c, w, after) == Due(c, w, before)
  {
    if before != [] {
      var n := |before| - 1;
      SweptDue(c, w, before[..n], after[..n]);
      SweepKeepsKey(c, w, before[n]);
    }
  }

  lemma SweptKeys(
      c: Catalog, w: Window, before: seq<LogRecord>, after: seq<LogRecord>, keys: seq<CostKey>,
      keys': seq<CostKey>)
    requires Swept(c, w, before, after) && IsKeyList(before, w, keys) && IsKeyList(after, w, keys')
    ensures keys == keys'
  {
    forall k ensures k in keys <==> k in keys' {
      if k in keys {
        var r :| r in before && KeyIn(w, r) == Some(k);
        var i :| 0 <= i < |before| && before[i] == r;
        SweepKeepsKey(c, w, before[i]);
        assert after[i] in after;
      }
      if k in keys' {
        var r :| r in after && KeyIn(w, r) == Some(k);
        var i :| 0 <= i < |after| && after[i] == r;
        SweepKeepsKey(c, w, before[i]);
        assert before[i] in before;
      }
    }
    KeyOrder();
    SortedUnique(KeyLeq, keys, keys');
  }

  lemma SweptTwice(c: Catalog, w: Window, before: seq<LogRecord>, once: seq<LogRecord>, twice: seq<LogRecord>)
    requires Swept(c, w, before, once) && Swept(c, w, once, twice)
    ensures twice == once
  {
    forall i | 0 <= i < |before| ensures twice[i] == once[i] { SweepRowTwice(c, w, before[i]); }
  }

  /** Sweeping the store twice with one catalog: the second sweep leaves every record as the first left it, and
      reports the same rows, models and unpriced models. */
  method SweepTwice(
      logs: MemoryLogStore, c: Catalog, w: Window)
    returns (first: Report, second: Report, ghost once: seq<LogRecord>)
    modifies logs
    ensures Swept(c, w, old(logs.rows), once) && logs.rows == once
    ensures second == first && first.updatedRows == Due(c, w, old(logs.rows))
  {
    ghost var before := logs.rows;
    ghost var keys, keys';
    first, keys := Sweep(logs, c, w);
    once := logs.rows;
    second, keys' := Sweep(logs, c, w);
    SweptDue(c, w, before, once);
    SweptKeys(c, w, before, once, keys, keys');
    SweptTwice(c, w, before, once, logs.rows);
  }

  /** A record forwarded under the same catalog is left as it is, unless its response was not a success and
      yet carried tokens for a priced model: such a request was free and the sweep charges it. */
  lemma ForwardedKeepsItsCost(
      c: Catalog, w: Window, before: LogRecord, rec: LogRecord, provider: string, ending: Ending,
      usage: TokenUsage)
    requires Forwarded(before, rec, provider, ending, usage, c)
    requires !before.cached && !HasTokens(before)
    ensures SweepRow(c, w, rec) == rec <==>
            !(ending.Complete? && !ending.ok && KeyIn(w, rec).Some? && Priced(c, KeyIn(w, rec).value))
  {
    if KeyIn(w, rec).Some? && Priced(c, KeyIn(w, rec).value) {
      SweepIsCalculator(c, w, rec);
    }
  }

  /** Such a record is left by a request whose only attempt was refused and whose body still reports a prompt token:
      it costs nothing, and the sweep charges it at any price for its model. */
  lemma RefusedRequestIsCharged(c: Catalog, provider: string, model: string, before: LogRecord)
    requires Lookup(c, provider, model).Some? && before.model == Some(model) && before.fallbackUsed.None?
    requires !before.cached && before.costUsd.None?
    ensures
      var attempt := AttemptTrace(provider, None, Some(400), "non_retryable");
      var usage := TokenUsage(Some(1), None, None);
      var rec := before.(
        metadata := Merged(before.metadata, "attempts", List(AttemptsMeta([attempt]))), promptTokens := Some(1),
        completionTokens := None, cachedTokens := None, wouldHaveCostUsd := None);
      && attempt == TraceOf(Entry(provider, None, []), Ok(Response(400, "")))
      && Forwarded(before, rec, provider, Complete(IsSuccess(400)), usage, c)
      && rec.costUsd.None? && SweepRow(c, Window(None, None), rec).costUsd.Some?
  {
    TraceLeadsBack(before.metadata, [AttemptTrace(provider, None, Some(400), "non_retryable")]);
  }

  /** A cache hit whose stored response names its provider is swept under the provider it was priced under, and
      is left as it is. */
  lemma ReplayedKeepsItsSaving(
      c: Catalog, w: Window, rec: LogRecord, servedBy: Option<string>, primary: string, usage: TokenUsage)
    requires Replayed(rec, servedBy, primary, usage, c) && servedBy.Some?
    ensures ResolveProvider(rec) == servedBy && SweepRow(c, w, rec) == rec
  {
    if KeyIn(w, rec).Some? && Priced(c, KeyIn(w, rec).value) {
      SweepIsCalculator(c, w, rec);
    }
  }

  /** Every entry the proxy ever stored names its provider. So each hit leads back to the provider that served the
      response it replays and under which its saving was priced, and the sweep leaves it as it is. */
  lemma HitKeepsItsSaving(
      c: Catalog, w: Window, hash: Bytes -> Bytes, events: seq<CacheEvent>, key: Bytes, rec: LogRecord, primary: string,
      usage: TokenUsage)
    requires key in Entries(hash, events) && Replayed(rec, Entries(hash, events)[key].servedBy, primary, usage, c)
    ensures SweepRow(c, w, rec) == rec
    ensures exists i: nat :: WrittenBy(hash, events, i, key, Entries(hash, events)[key])
                             && ResolveProvider(rec) == Some(events[i].provider)
    ensures rec.wouldHaveCostUsd == PriceOf(c, ResolveProvider(rec).value, rec.model, usage)
  {
    var i := EntryIsWritten(hash, events, key);
    ReplayedKeepsItsSaving(c, w, rec, Entries(hash, events)[key].servedBy, primary, usage);
    assert WrittenBy(hash, events, i, key, Entries(hash, events)[key]);
    assert ResolveProvider(rec) == Some(events[i].provider);
  }

  /** Models without a price are reported as provider/model. */
  lemma LabelIs(provider: string, model: string)
    ensures Label((provider, model)) == provider + ['/'] + model
  {
  }
}
