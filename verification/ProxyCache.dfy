/**
The response cache as the proxy uses it: look a keyed request up, otherwise forward it and store a
complete successful response together with the provider that served it. The cache can lose an entry
at any time; it never makes one up (`TieredKv.ReadIsLatest`).
 */
module ProxyCache {
  import opened Common
  import opened Ordering
  import opened CanonicalJson
  import opened CachePolicy
  import opened Fingerprint
  import opened Retry
  import opened ChainExecutor
  import opened Catalog
  import opened RequestLog
  import opened Attribution

  datatype CachedResponse = CachedResponse(status: nat, body: string, servedBy: Option<string>)

  /** What the write-back stores. */
  function Stored(response: Response, provider: string): CachedResponse {
    CachedResponse(response.status, response.body, Some(provider))
  }

  // ---- What a cache can hold ----

  datatype CacheEvent = Wrote(inp: Inputs, response: Response, provider: string) | Lost(key: Bytes)

  ghost function Entries(hash: Bytes -> Bytes, events: seq<CacheEvent>): map<Bytes, CachedResponse> {
    if events == [] then map[]
    else
      var before := Entries(hash, events[..|events| - 1]);
      match events[|events| - 1]
      case Wrote(inp, response, provider) => before[CacheKey(hash, inp) := Stored(response, provider)]
      case Lost(key) => before - {key}
  }

  /** The proxy writes only complete successes of keyed requests. */
  ghost predicate WellWritten(events: seq<CacheEvent>) {
    forall i :: 0 <= i < |events| && events[i].Wrote? ==>
          events[i].inp.json.Some? && IsSuccess(events[i].response.status)
  }

  ghost predicate WrittenBy(hash: Bytes -> Bytes, events: seq<CacheEvent>, i: nat, key: Bytes, entry: CachedResponse) {
    && i < |events| && events[i].Wrote?
    && CacheKey(hash, events[i].inp) == key
    && entry.status == events[i].response.status && entry.body == events[i].response.body
    && entry.servedBy == Some(events[i].provider)
  }

  lemma {:induction false} EntryIsWritten(hash: Bytes -> Bytes, events: seq<CacheEvent>, key: Bytes) returns (i: nat)
    requires key in Entries(hash, events)
    ensures WrittenBy(hash, events, i, key, Entries(hash, events)[key])
  {
    var n := |events| - 1;
    if events[n].Wrote? && CacheKey(hash, events[n].inp) == key {
      i := n;
    } else {
      i := EntryIsWritten(hash, events[..n], key);
      assert events[..n][i] == events[i];
    }
  }

  ghost predicate Collides(hash: Bytes -> Bytes, x: Inputs, y: Inputs) {
    Preimage(x) != Preimage(y) && hash(Preimage(x)) == hash(Preimage(y))
  }

  /** Whatever was written and lost before, a hit replays a success that answered the same request: same
      namespace, endpoint and scope and the same JSON body. */
  lemma HitAnswersTheSameRequest(hash: Bytes -> Bytes, events: seq<CacheEvent>, y: Inputs) returns (i: nat)
    requires IsHash(hash) && WellWritten(events) && CacheKey(hash, y) in Entries(hash, events)
    requires y.json.Some? && WellFormed(y.json.value) && PlainParts(y)
    requires forall i :: 0 <= i < |events| && events[i].Wrote? && events[i].inp.json.Some? ==>
               PlainParts(events[i].inp) && WellFormed(events[i].inp.json.value) && !Collides(hash, events[i].inp, y)
    ensures WrittenBy(hash, events, i, CacheKey(hash, y), Entries(hash, events)[CacheKey(hash, y)])
    ensures events[i].inp.json.Some? && SameRequest(events[i].inp, y) && IsSuccess(events[i].response.status)
  {
    i := EntryIsWritten(hash, events, CacheKey(hash, y));
    SameKeyExactly(hash, events[i].inp, y);
  }

  // ---- The proxy ----

  class ResponseCache {
    const hash: Bytes -> Bytes
    var entries: map<Bytes, CachedResponse>
    ghost var history: seq<CacheEvent>

    /** The entries are what the writes and losses so far leave. */
    ghost predicate Valid()
      reads this
    {
      entries == Entries(hash, history) && WellWritten(history)
    }

    constructor (hash: Bytes -> Bytes)
      ensures this.hash == hash && Valid() && history == []
    {
      this.hash, entries, history := hash, map[], [];
    }

    method Lose(key: Bytes)
      requires Valid()
      modifies this
      ensures Valid() && history == old(history) + [Lost(key)]
    {
      entries := entries - {key};
      history := history + [Lost(key)];
      assert history[..|history| - 1] == old(history);
    }

    method WriteBack(key: Bytes, inp: Inputs, response: Response, provider: string)
      requires Valid() && key == CacheKey(hash, inp) && inp.json.Some? && IsSuccess(response.status)
      modifies this
      ensures Valid() && history == old(history) + [Wrote(inp, response, provider)]
    {
      entries := entries[key := Stored(response, provider)];
      history := history + [Wrote(inp, response, provider)];
      assert history[..|history| - 1] == old(history);
    }
  }

  method KeyOf(cache: ResponseCache, inp: Inputs) returns (key: Bytes)
    ensures key == CacheKey(cache.hash, inp)
  {
    var preimage := HashInputs(inp);
    key := [114, 101, 115, 112, 58] + (inp.namespace + ([58] + cache.hash(preimage)));
  }

  datatype Outcome =
    | Hit(entry: CachedResponse)
    | NotCached                                                             // `only-if-cached`, and it was not
    | FromUpstream(result: Result<Response, GatewayError>, provider: string)

  /** The entry turned out to be gone when it was looked up. */
  ghost function Losses(
      hash: Bytes -> Bytes, policy: Option<Policy>, inp: Inputs, deterministic: Json -> bool, lost: bool)
    : seq<CacheEvent>
  {
    if MayRead(policy, inp.json, deterministic) && lost then [Lost(CacheKey(hash, inp))] else []
  }

  method LookUp(cache: ResponseCache, inp: Inputs, policy: Option<Policy>, deterministic: Json -> bool, lost: bool)
    returns (hit: Option<CachedResponse>, key: Bytes)
    requires cache.Valid()
    modifies cache
    ensures cache.Valid()
    ensures cache.history == old(cache.history) + Losses(cache.hash, policy, inp, deterministic, lost)
    ensures KeyNeeded(policy, inp.json, deterministic) ==> key == CacheKey(cache.hash, inp)
    ensures hit.Some? <==>
              MayRead(policy, inp.json, deterministic) && CacheKey(cache.hash, inp) in old(cache.entries) && !lost
    ensures hit.Some? ==> hit.value == old(cache.entries)[CacheKey(cache.hash, inp)]
    ensures inp.json.Some? && policy == Some(Policy(Default, true)) && !lost ==>
              (hit.Some? <==> CacheKey(cache.hash, inp) in old(cache.entries))
    ensures policy.None? || policy.value.directive.Bypass? || policy.value.directive.Refresh? ==> hit.None?
  {
    hit, key := None, [];
    if KeyNeeded(policy, inp.json, deterministic) {
      key := KeyOf(cache, inp);
      if MayRead(policy, inp.json, deterministic) {
        if lost {
          cache.Lose(key);
        } else if key in cache.entries {
          hit := Some(cache.entries[key]);
        }
      }
    }
  }

  /** A request after routing. A hit is logged from the stored entry; otherwise the chain runs and a complete
      success that fits is written back under the provider it is priced under. A body that is not JSON is neither
      looked up nor stored. */
  method Serve(
      cache: ResponseCache, log: LogBuilder, route: Route, model: Option<string>, inp: Inputs, policy: Option<Policy>,
      deterministic: Json -> bool, forward: Forward, jitter: nat -> Jitter, breaks: bool, oversize: bool, lost: bool,
      usage: TokenUsage, replayUsage: TokenUsage, catalog: Catalog)
    returns (outcome: Outcome, ghost attempts: seq<AttemptTrace>)
    requires cache.Valid() && log.rec.fallbackUsed.None? && log.rec.metadata.None?
    modifies cache, log
    ensures cache.Valid() && log.rec.model == model
    ensures outcome.Hit? <==>
              MayRead(policy, inp.json, deterministic) && CacheKey(cache.hash, inp) in old(cache.entries) && !lost
    ensures outcome.NotCached? <==> !outcome.Hit? && policy.Some? && policy.value.directive.OnlyIfCached?
    ensures inp.json.None? || policy.None? || policy.value.directive.Bypass? ==>
              !outcome.Hit? && cache.history == old(cache.history)
    ensures policy.Some? && policy.value.directive.Refresh? ==> outcome.FromUpstream?
    ensures !outcome.FromUpstream? ==>
              cache.history == old(cache.history) + Losses(cache.hash, policy, inp, deterministic, lost)
    ensures outcome.Hit? ==>
              && outcome.entry == old(cache.entries)[CacheKey(cache.hash, inp)]
              && Replayed(log.rec, outcome.entry.servedBy, route.primary.provider, replayUsage, catalog)
    ensures outcome.FromUpstream? ==>
              var ending := EndingOf(outcome.result, breaks);
              && attempts != [] && outcome.provider == attempts[|attempts| - 1].provider
              && Forwarded(old(log.rec).(model := model), log.rec, outcome.provider, ending, usage, catalog)
              && (ending == Complete(true) ==> outcome.result == forward(|attempts| - 1))
              && cache.history == old(cache.history) + Losses(cache.hash, policy, inp, deterministic, lost) +
                   if ending == Complete(true) && !oversize && KeyNeeded(policy, inp.json, deterministic)
                   then [Wrote(inp, outcome.result.value, outcome.provider)] else []
  {
    attempts := [];
    log.SetModel(model);
    var hit, key := LookUp(cache, inp, policy, deterministic, lost);
    if hit.Some? {
      LogCacheHit(log, route.primary.provider, hit.value.servedBy, replayUsage, catalog);
      return Hit(hit.value), attempts;
    }
    if policy.Some? && policy.value.directive.OnlyIfCached? {
      return NotCached, attempts;
    }
    var result, provider;
    result, attempts, provider := ForwardAndLog(log, route, forward, jitter, breaks, usage, catalog);
    outcome := FromUpstream(result, provider);
    if EndingOf(result, breaks) == Complete(true) && !oversize && KeyNeeded(policy, inp.json, deterministic) {
      cache.WriteBack(key, inp, result.value, provider);
    }
  }
}
