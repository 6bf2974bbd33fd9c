/** Outcome classes, retry backoff and fallback triggers. */
module Retry {
  datatype GatewayError =
    | Unauthorized
    | Forbidden
    | RateLimited
    | NotFound
    | NoRoute
    | BadRequest
    | ProviderUnknown
    | UpstreamTimeout
    | UpstreamError(status: nat)
    | Internal(message: string)
    | Storage
    | Http
    | Serde
    | Other

  function StatusCode(e: GatewayError): nat {
    match e
    case Unauthorized => 401
    case Forbidden => 403
    case RateLimited => 429
    case NotFound => 404
    case NoRoute => 404
    case BadRequest => 400
    case ProviderUnknown => 400
    case UpstreamTimeout => 504
    case UpstreamError(s) => s
    case _ => 500
  }

  datatype AttemptOutcome =
    | Success
    | RetryableStatus(status: nat)
    | RetryableNetwork
    | NonRetryable(status: nat)
    | Timeout

  predicate IsRetryableStatus(s: nat) {
    s == 408 || s == 425 || s == 429 || s == 500 || s == 502 || s == 503 || s == 504
  }

  function FromStatus(s: nat): AttemptOutcome {
    if IsRetryableStatus(s) then RetryableStatus(s)
    else if 200 <= s < 400 then Success
    else NonRetryable(s)
  }

  function FromError(e: GatewayError): AttemptOutcome {
    match e
    case UpstreamTimeout => Timeout
    case Http => RetryableNetwork
    case _ => NonRetryable(StatusCode(e))
  }

  predicate IsRetryable(o: AttemptOutcome) {
    o.RetryableStatus? || o.RetryableNetwork? || o.Timeout?
  }

  const U64_MAX: nat := 0xFFFF_FFFF_FFFF_FFFF
  const MAX_BACKOFF_MS: nat := 10_000

  function Pow2(n: nat): nat {
    if n == 0 then 1 else 2 * Pow2(n - 1)
  }

  /** Doubling per attempt up to 2^8 (saturating), capped at ten seconds. */
  function BackoffCap(initialMs: nat, attempt: nat): (ms: nat)
    ensures ms <= MAX_BACKOFF_MS
  {
    var product := initialMs * Pow2(if attempt < 8 then attempt else 8);
    var saturated := if product > U64_MAX then U64_MAX else product;
    if saturated > MAX_BACKOFF_MS then MAX_BACKOFF_MS else saturated
  }

  /** The random factor of one backoff. */
  type Jitter = j: real | 0.0 <= j < 1.0

  /** A random share of the cap. */
  function Jittered(capMs: nat, jitter: Jitter): (ms: nat)
    ensures ms <= capMs
  {
    ShareBounds(capMs as real, jitter);
    (jitter * capMs as real).Floor
  }

  lemma ShareBounds(c: real, j: real)
    requires 0.0 <= j < 1.0 && 0.0 <= c
    ensures 0.0 <= j * c <= c
  {
  }

  function BackoffMs(initialMs: nat, attempt: nat, jitter: Jitter): (ms: nat)
    ensures ms <= MAX_BACKOFF_MS
  {
    Jittered(BackoffCap(initialMs, attempt), jitter)
  }

  function LowerChar(c: char): char {
    if 'A' <= c <= 'Z' then (c as int - 'A' as int + 'a' as int) as char else c
  }

  function Lower(s: string): string {
    seq(|s|, i requires 0 <= i < |s| => LowerChar(s[i]))
  }

  predicate TriggerMatches(o: AttemptOutcome, trigger: string) {
    var t := Lower(trigger);
    match o
    case RetryableStatus(s) =>
      if 500 <= s < 600 then t == "upstream_5xx" || t == "upstream_error"
      else s == 429 && (t == "rate_limited" || t == "ratelimited")
    case NonRetryable(s) => 500 <= s < 600 && (t == "upstream_5xx" || t == "upstream_error")
    case Timeout => t == "timeout"
    case RetryableNetwork => t == "network" || t == "timeout"
    case Success => false
  }

  predicate MatchesFallbackTrigger(o: AttemptOutcome, triggers: seq<string>) {
    if triggers == [] then !o.Success? else exists t :: t in triggers && TriggerMatches(o, t)
  }

  lemma LowerIsFixed(s: string)
    requires forall i :: 0 <= i < |s| ==> !('A' <= s[i] <= 'Z')
    ensures Lower(s) == s
  {
  }

  /** A fallback with a trigger list is out of reach after 408 and 425: they are retried, but no trigger names them. */
  lemma NamedTriggers(status: nat)
    requires IsRetryableStatus(status)
    ensures (exists t :: TriggerMatches(FromStatus(status), t)) <==> status != 408 && status != 425
  {
    LowerIsFixed("upstream_5xx");
    LowerIsFixed("rate_limited");
    if status == 429 {
      assert TriggerMatches(FromStatus(status), "rate_limited");
    } else if status != 408 && status != 425 {
      assert TriggerMatches(FromStatus(status), "upstream_5xx");
    }
  }

  /** The cap never falls from one attempt to the next, and no longer grows after the ninth. */
  lemma BackoffGrows(initialMs: nat, attempt: nat)
    ensures BackoffCap(initialMs, attempt) <= BackoffCap(initialMs, attempt + 1)
    ensures attempt >= 8 ==> BackoffCap(initialMs, attempt) == BackoffCap(initialMs, 8)
  {
    if attempt < 8 {
      DoublingGrows(initialMs, Pow2(attempt));
      assert Pow2(attempt + 1) == 2 * Pow2(attempt);
    }
  }

  lemma DoublingGrows(a: nat, b: nat)
    ensures a * b <= a * (2 * b)
  {
    assert a * (2 * b) == a * b + a * b;
  }

  /** The cap starts at the configured backoff and doubles with each of the first eight attempts, up to ten seconds. */
  lemma {:induction false} BackoffDoubles(initialMs: nat, attempt: nat)
    ensures BackoffCap(initialMs, 0) == if initialMs < 10_000 then initialMs else 10_000
    ensures attempt < 8 ==>
              var twice := 2 * BackoffCap(initialMs, attempt);
              BackoffCap(initialMs, attempt + 1) == if twice < 10_000 then twice else 10_000
  {
    assert initialMs * Pow2(0) == initialMs;
    if attempt < 8 {
      DoublingGrows(initialMs, Pow2(attempt));
      assert initialMs * Pow2(attempt + 1) == 2 * (initialMs * Pow2(attempt));
    }
  }

  /** The backoff is any number of milliseconds below the cap, depending on the jitter alone. */
  lemma JitterSpreads(capMs: nat, ms: nat) returns (jitter: Jitter)
    requires ms < capMs
    ensures Jittered(capMs, jitter) == ms
  {
    var share := ms as real / capMs as real;
    ShareIsProper(ms, capMs);
    jitter := share;
  }

  lemma ShareIsProper(ms: nat, capMs: nat)
    requires ms < capMs
    ensures 0.0 <= ms as real / capMs as real < 1.0 && (ms as real / capMs as real) * capMs as real == ms as real
  {
  }

  /** The status an error stands for, which decides nothing but how it is reported: only timeouts and network errors are
      retried. */
  lemma ErrorStatuses(e: GatewayError)
    ensures StatusCode(Unauthorized) == 401 && StatusCode(Forbidden) == 403 && StatusCode(RateLimited) == 429
    ensures StatusCode(NotFound) == 404 && StatusCode(NoRoute) == 404 && StatusCode(UpstreamTimeout) == 504
    ensures StatusCode(BadRequest) == 400 && StatusCode(ProviderUnknown) == 400
    ensures StatusCode(Http) == 500 && StatusCode(Storage) == 500
    ensures StatusCode(Serde) == 500 && StatusCode(Other) == 500
    ensures e.UpstreamError? ==> StatusCode(e) == e.status
    ensures e.Internal? ==> StatusCode(e) == 500
    ensures IsRetryable(FromError(e)) <==> e.UpstreamTimeout? || e.Http?
  {
  }
}
