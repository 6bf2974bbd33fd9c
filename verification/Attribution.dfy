/**
Which provider a request is charged to. The proxy prices a response when it arrives; a later sweep
prices the stored record again, reading the provider back from it. Here the two are compared.
 */
module Attribution {
  import opened Common
  import opened Retry
  import opened ChainExecutor
  import opened ChainTheorems
  import opened Catalog
  import opened Calculator
  import opened RequestLog

  predicate IsSuccess(status: nat) {
    200 <= status < 300
  }

  function UsageOf(u: TokenUsage): Usage {
    Usage(u.prompt.UnwrapOr(0), u.completion.UnwrapOr(0), u.cached.UnwrapOr(0))
  }

  function PriceOf(c: Catalog, provider: string, model: Option<string>, u: TokenUsage): Option<real> {
    if model.Some? then ComputeCost(c, provider, model.value, UsageOf(u)) else None
  }

  /** One attempt as it is serialized into the metadata. */
  function AttemptMeta(t: AttemptTrace): Meta {
    Dict(map[
      "provider" := Text(t.provider),
      "model" := if t.model.Some? then Text(t.model.value) else Null,
      "status" := if t.status.Some? then Number(t.status.value) else Null,
      "outcome" := Text(t.outcome)])
  }

  function AttemptsMeta(attempts: seq<AttemptTrace>): (r: seq<Meta>)
    ensures |r| == |attempts|
    ensures forall i :: 0 <= i < |r| ==> r[i] == AttemptMeta(attempts[i])
  {
    if attempts == [] then [] else [AttemptMeta(attempts[0])] + AttemptsMeta(attempts[1..])
  }

  /** An attempt is logged with its provider, its model override, its status when there was a response, and the name of
      its outcome. */
  lemma AttemptAsLogged(t: AttemptTrace)
    ensures Field(AttemptMeta(t), "provider") == Some(Text(t.provider))
    ensures Field(AttemptMeta(t), "model") == Some(if t.model.Some? then Text(t.model.value) else Null)
    ensures Field(AttemptMeta(t), "status") == Some(if t.status.Some? then Number(t.status.value) else Null)
    ensures Field(AttemptMeta(t), "outcome") == Some(Text(t.outcome))
  {
  }

  /** How a forwarded request ends: no response, a response whose body breaks off, or a complete one. */
  datatype Ending = NoResponse | Broken | Complete(ok: bool)

  function EndingOf(result: Result<Response, GatewayError>, breaks: bool): Ending {
    if result.Err? then NoResponse else if breaks then Broken else Complete(IsSuccess(result.value.status))
  }

  /** What forwarding leaves in the record: the attempts, and tokens and cost only for a complete body,
      the cost only for a success. `provider` is the one priced. */
  ghost predicate Forwarded(
    before: LogRecord, rec: LogRecord, provider: string, ending: Ending, usage: TokenUsage, catalog: Catalog)
  {
    && ResolveProvider(rec) == Some(provider)
    && rec.namespace == before.namespace && rec.model == before.model && rec.requestTs == before.requestTs
    && rec.cached == before.cached
    && (if !ending.Complete? then
          && SameTokens(before, rec)
          && rec.costUsd == before.costUsd && rec.wouldHaveCostUsd == before.wouldHaveCostUsd
        else
          && (rec.promptTokens, rec.completionTokens, rec.cachedTokens) ==
                (usage.prompt, usage.completion, usage.cached)
          && rec.costUsd == rec.wouldHaveCostUsd
          && rec.costUsd == (if ending.ok then PriceOf(catalog, provider, before.model, usage) else None))
  }

  predicate SameTokens(a: LogRecord, b: LogRecord) {
    (a.promptTokens, a.completionTokens, a.cachedTokens) == (b.promptTokens, b.completionTokens, b.cachedTokens)
  }

  /** For every run of a chain, the stored record leads back to the provider that the run is charged to. */
  lemma StoredProviderIsCharged(
      chain: ProviderChain, forward: Forward, attempts: seq<AttemptTrace>, rec: LogRecord, metadata: Option<Meta>)
    requires IsRun(chain, forward, attempts) && chain.entries != []
    requires rec.fallbackUsed == FallbackOf(chain, |attempts|)
    requires rec.metadata == Merged(metadata, "attempts", List(AttemptsMeta(attempts)))
    ensures ResolveProvider(rec) == Some(FallbackOf(chain, |attempts|).UnwrapOr(chain.entries[0].provider))
    ensures ResolveProvider(rec) == Some(attempts[|attempts| - 1].provider)
  {
    AttributionIsLastAttempt(chain, forward, attempts);
    TraceLeadsBack(metadata, attempts);
  }

  lemma TraceLeadsBack(metadata: Option<Meta>, attempts: seq<AttemptTrace>)
    requires attempts != []
    ensures LastAttemptProvider(Merged(metadata, "attempts", List(AttemptsMeta(attempts)))) ==
              Some(attempts[|attempts| - 1].provider)
  {
    var items := AttemptsMeta(attempts);
    assert items[|items| - 1] == AttemptMeta(attempts[|attempts| - 1]);
    MergedAttempts(metadata, items, attempts[|attempts| - 1].provider);
  }

  /** Run the chain of a route and complete the record. The provider priced is the one that made the last
      attempt, which for a success is the one whose response is passed on. */
  method ForwardAndLog(
      log: LogBuilder, route: Route, forward: Forward, jitter: nat -> Jitter, breaks: bool, usage: TokenUsage,
          catalog: Catalog)
    returns (response: Result<Response, GatewayError>, ghost attempts: seq<AttemptTrace>, provider: string)
    requires log.rec.fallbackUsed.None?
    modifies log
    ensures attempts != [] && provider == attempts[|attempts| - 1].provider
    ensures response.Ok? && IsSuccess(response.value.status) ==> response == forward(|attempts| - 1)
    ensures Forwarded(old(log.rec), log.rec, provider, EndingOf(response, breaks), usage, catalog)
    ensures response.Ok? && !breaks && log.rec.costUsd.Some? ==> 200 <= response.value.status <= 299
    ensures response.Ok? && !breaks && response.value.status in {200, 201, 204, 299} ==>
              log.rec.costUsd == PriceOf(catalog, provider, old(log.rec.model), usage)
  {
    var chain := FromRoute(route);
    var trace, fallbackUsed, slept;
    response, trace, fallbackUsed, slept := ExecuteChain(chain, forward, jitter);
    attempts := trace;
    log.MergeMetadata("attempts", List(AttemptsMeta(trace)));
    if fallbackUsed.Some? {
      log.SetFallback(fallbackUsed);
    }
    StoredProviderIsCharged(chain, forward, trace, log.rec, old(log.rec.metadata));
    provider := fallbackUsed.UnwrapOr(route.primary.provider);
    if response.Err? {
      return;
    }
    if IsSuccess(response.value.status) {
      SuccessIsLastAttempt(chain, forward, trace);
    }
    if breaks {
      return;
    }
    var cost := None;
    if IsSuccess(response.value.status) {
      cost := PriceOf(catalog, provider, log.rec.model, usage);
    }
    log.SetTokenUsage(usage);
    log.SetCost(cost, cost);
  }

  /** A cache hit costs nothing; what it would have cost is priced under the provider that served the stored
      response, or the primary when that is not known. */
  ghost predicate Replayed(
      rec: LogRecord, servedBy: Option<string>, primary: string, usage: TokenUsage, catalog: Catalog) {
    && rec.cached && rec.costUsd == Some(0.0)
    && (rec.promptTokens, rec.completionTokens, rec.cachedTokens) == (usage.prompt, usage.completion, usage.cached)
    && rec.wouldHaveCostUsd == PriceOf(catalog, servedBy.UnwrapOr(primary), rec.model, usage)
    && ResolveProvider(rec) == servedBy.OrElse(rec.namespace)
  }

  method LogCacheHit(log: LogBuilder, primary: string, servedBy: Option<string>, usage: TokenUsage, catalog: Catalog)
    requires log.rec.fallbackUsed.None? && log.rec.metadata.None?
    modifies log
    ensures Replayed(log.rec, servedBy, primary, usage, catalog)
    ensures log.rec.namespace == old(log.rec.namespace) && log.rec.model == old(log.rec.model)
    ensures log.rec.requestTs == old(log.rec.requestTs)
  {
    log.SetCached(true);
    log.SetTokenUsage(usage);
    var provider := servedBy.UnwrapOr(primary);
    var wouldHave := PriceOf(catalog, provider, log.rec.model, usage);
    log.SetCost(Some(0.0), wouldHave);
    if servedBy.Some? {
      var hit := Dict(map["provider" := Text(servedBy.value), "outcome" := Text("cache_hit")]);
      log.MergeMetadata("attempts", List([hit]));
      MergedAttempts(None, [hit], servedBy.value);
    }
  }

  /** A cost is charged for exactly the statuses from 200 to 299, missing token counts are read as zero, and a request
      without a model has no price. */
  lemma PricedWhen(
      c: Catalog, provider: string, model: Option<string>, u: TokenUsage, status: nat, breaks: bool, body: string)
    ensures EndingOf(Ok(Response(status, body)), breaks) == Complete(true) <==> !breaks && status / 100 == 2
    ensures EndingOf(Ok(Response(status, body)), breaks) == Broken <==> breaks
    ensures model == None ==> PriceOf(c, provider, model, u) == None
    ensures model.Some? && u.prompt.Some? && u.completion.Some? && u.cached.Some? ==>
              PriceOf(c, provider, model, u) ==
              ComputeCost(c, provider, model.value, Usage(u.prompt.value, u.completion.value, u.cached.value))
    ensures u == TokenUsage(None, None, None) && model.Some? ==>
              PriceOf(c, provider, model, u) == ComputeCost(c, provider, model.value, Usage(0, 0, 0))
  {
  }
}
