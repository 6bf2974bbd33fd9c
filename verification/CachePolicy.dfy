/** Whether a request takes part in response caching. */
module CachePolicy {
  import opened Common
  import opened CanonicalJson

  datatype Directive = Default | Bypass | Refresh | OnlyIfCached

  datatype Policy = Policy(directive: Directive, allowNondeterministic: bool)

  /** Only JSON bodies can be cached; `deterministic` reads temperature and top_p from one. */
  predicate BodyIsCacheable(policy: Policy, json: Option<Json>, deterministic: Json -> bool) {
    json.Some? && (policy.allowNondeterministic || deterministic(json.value))
  }

  /** Absent when the route does not cache. */
  predicate Cacheable(policy: Option<Policy>, json: Option<Json>, deterministic: Json -> bool) {
    policy.Some? && BodyIsCacheable(policy.value, json, deterministic)
  }

  predicate KeyNeeded(policy: Option<Policy>, json: Option<Json>, deterministic: Json -> bool) {
    Cacheable(policy, json, deterministic) && !policy.value.directive.Bypass?
  }

  /** The stored response may answer the request. */
  predicate MayRead(policy: Option<Policy>, json: Option<Json>, deterministic: Json -> bool) {
    KeyNeeded(policy, json, deterministic) && !policy.value.directive.Refresh?
  }
}
