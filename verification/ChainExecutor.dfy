/**
The retry/fallback executor. `forward(k)` is whatever the k-th upstream attempt returns; the theorems
hold for every such sequence. Since an entry is left only when its attempts are used up, attempt k
belongs to chain entry k / AttemptsPerEntry, and the whole run is described by the first point at
which it may stop.
 */
module ChainExecutor {
  import opened Common
  import opened Retry

  datatype Entry = Entry(provider: string, model: Option<string>, trigger: seq<string>)

  datatype ProviderChain = ProviderChain(entries: seq<Entry>, maxAttempts: nat, initialBackoffMs: nat)

  datatype Response = Response(status: nat, body: string)

  type Forward = nat -> Result<Response, GatewayError>

  datatype AttemptTrace = AttemptTrace(provider: string, model: Option<string>, status: Option<nat>, outcome: string)

  datatype RouteTarget = RouteTarget(provider: string, model: Option<string>, trigger: seq<string>)

  datatype Route = Route(primary: RouteTarget, fallbacks: seq<RouteTarget>, maxAttempts: nat, initialBackoffMs: nat)

  function FromTarget(t: RouteTarget): Entry {
    Entry(t.provider, t.model, t.trigger)
  }

  /** The entry tries the target's provider with its model override, under its trigger. */
  predicate SameTarget(e: Entry, t: RouteTarget) {
    e.provider == t.provider && e.model == t.model && e.trigger == t.trigger
  }

  /** Primary first, then the fallbacks in order, each keeping its trigger. */
  method FromRoute(route: Route) returns (chain: ProviderChain)
    ensures |chain.entries| == |route.fallbacks| + 1
    ensures SameTarget(chain.entries[0], route.primary)
    ensures forall i :: 0 <= i < |route.fallbacks| ==> SameTarget(chain.entries[i + 1], route.fallbacks[i])
    ensures chain.maxAttempts == route.maxAttempts && chain.initialBackoffMs == route.initialBackoffMs
  {
    var entries := [FromTarget(route.primary)];
    for j := 0 to |route.fallbacks|
      invariant |entries| == j + 1 && entries[0] == FromTarget(route.primary)
      invariant forall i :: 0 <= i < j ==> entries[i + 1] == FromTarget(route.fallbacks[i])
    {
      entries := entries + [FromTarget(route.fallbacks[j])];
    }
    chain := ProviderChain(entries, route.maxAttempts, route.initialBackoffMs);
  }

  function OutcomeOf(r: Result<Response, GatewayError>): AttemptOutcome {
    match r
    case Ok(resp) => FromStatus(resp.status)
    case Err(e) => FromError(e)
  }

  function OutcomeLabel(o: AttemptOutcome): string {
    match o
    case Success => "success"
    case RetryableStatus(_) => "retryable_status"
    case RetryableNetwork => "retryable_network"
    case NonRetryable(_) => "non_retryable"
    case Timeout => "timeout"
  }

  function TraceOf(e: Entry, r: Result<Response, GatewayError>): AttemptTrace {
    AttemptTrace(e.provider, e.model, if r.Ok? then Some(r.value.status) else None, OutcomeLabel(OutcomeOf(r)))
  }

  // ---- The declarative description of a run ----

  /** An entry is tried at least once, even when `max_attempts` is 0. */
  function AttemptsPerEntry(chain: ProviderChain): (m: nat)
    ensures m >= 1
  {
    if chain.maxAttempts > 1 then chain.maxAttempts else 1
  }

  /** The chain entry that attempt `k` belongs to, its place among that entry's attempts, and the first
      attempt of entry `j`, when every entry before it took `m` attempts. */
  function EntryOf(m: nat, k: nat): nat
    requires m >= 1
  {
    if k < m then 0 else 1 + EntryOf(m, k - m)
  }

  function PlaceIn(m: nat, k: nat): nat
    requires m >= 1
  {
    if k < m then k else PlaceIn(m, k - m)
  }

  function StartOf(m: nat, j: nat): nat {
    if j == 0 then 0 else StartOf(m, j - 1) + m
  }

  lemma {:induction false} Locate(m: nat, j: nat, k: nat)
    requires StartOf(m, j) <= k < StartOf(m, j) + m
    ensures EntryOf(m, k) == j && PlaceIn(m, k) == k - StartOf(m, j)
  {
    if j > 0 {
      Locate(m, j - 1, k - m);
    }
  }

  lemma {:induction false} StartIsProduct(m: nat, j: nat)
    ensures StartOf(m, j) == j * m
  {
    if j > 0 {
      StartIsProduct(m, j - 1);
      assert (j - 1) * m + m == j * m;
    }
  }

  /** After `k` attempts the executor stops: the last one settled the request, or it used up its entry and
      there is no next entry or the next entry's trigger does not match it. */
  predicate Stops(chain: ProviderChain, forward: Forward, k: nat)
    requires k > 0
  {
    var m := AttemptsPerEntry(chain);
    || !IsRetryable(OutcomeOf(forward(k - 1)))
    || (PlaceIn(m, k) == 0
        && (EntryOf(m, k) >= |chain.entries|
            || !MatchesFallbackTrigger(OutcomeOf(forward(k - 1)), chain.entries[EntryOf(m, k)].trigger)))
  }

  /** Every attempt is charged to its entry. */
  ghost predicate Charged(chain: ProviderChain, forward: Forward, attempts: seq<AttemptTrace>) {
    var m := AttemptsPerEntry(chain);
    forall k :: 0 <= k < |attempts| ==>
      EntryOf(m, k) < |chain.entries| && attempts[k] == TraceOf(chain.entries[EntryOf(m, k)], forward(k))
  }

  ghost predicate RunsOn(chain: ProviderChain, forward: Forward, n: nat) {
    forall k :: 0 < k < n ==> !Stops(chain, forward, k)
  }

  /** The attempts made are those up to the first stopping point. */
  ghost predicate IsRun(chain: ProviderChain, forward: Forward, attempts: seq<AttemptTrace>) {
    && (attempts == [] <==> chain.entries == [])
    && Charged(chain, forward, attempts)
    && RunsOn(chain, forward, |attempts|)
    && (attempts != [] ==> Stops(chain, forward, |attempts|))
  }

  /** The last attempt of entry `j - 1` when that entry is used up. */
  function EndOf(m: nat, j: nat): nat
    requires m >= 1 && j >= 1
  {
    StartOf(m, j - 1) + m - 1
  }

  /** `last_response` and `last_error`. */
  datatype Memory = Memory(response: Option<Response>, error: Option<GatewayError>)

  function Remember(mem: Memory, r: Result<Response, GatewayError>): Memory {
    match r
    case Ok(resp) => mem.(response := Some(resp))
    case Err(e) => mem.(error := Some(e))
  }

  /** A remembered response is preferred to an error, even to a newer one. */
  function Recall(mem: Memory): Result<Response, GatewayError> {
    if mem.response.Some? then Ok(mem.response.value)
    else if mem.error.Some? then Err(mem.error.value)
    else Err(Internal("empty provider chain"))
  }

  /** What is remembered once the first `j` entries are used up. */
  function MemoryAfter(m: nat, forward: Forward, j: nat): Memory
    requires m >= 1
  {
    if j == 0 then Memory(None, None) else Remember(MemoryAfter(m, forward, j - 1), forward(EndOf(m, j)))
  }

  function FinalResult(chain: ProviderChain, forward: Forward, n: nat): Result<Response, GatewayError> {
    if n > 0 && !IsRetryable(OutcomeOf(forward(n - 1))) then forward(n - 1)
    else var m := AttemptsPerEntry(chain); Recall(MemoryAfter(m, forward, EntryOf(m, n)))
  }

  function FallbackOf(chain: ProviderChain, n: nat): Option<string> {
    var m := AttemptsPerEntry(chain);
    if n <= m || EntryOf(m, n - 1) >= |chain.entries| then None else Some(chain.entries[EntryOf(m, n - 1)].provider)
  }

  /** `fallback_used` once entry `used - 1` has been entered. */
  function FallbackAfter(chain: ProviderChain, used: nat): Option<string> {
    if used <= 1 || used > |chain.entries| then None else Some(chain.entries[used - 1].provider)
  }

  // ---- The executor ----

  /** Try one entry until it settles the request or its attempts are used up. */
  method TryEntry(chain: ProviderChain, i: nat, forward: Forward, jitter: nat -> Jitter, before: seq<AttemptTrace>)
    returns (attempts: seq<AttemptTrace>, settled: bool, sleptMs: nat)
    requires i < |chain.entries|
    ensures Extends(chain, i, forward, before, attempts)
    ensures settled <==> !IsRetryable(OutcomeOf(forward(|attempts| - 1)))
    ensures !settled ==> |attempts| == |before| + AttemptsPerEntry(chain)
    ensures sleptMs <= (AttemptsPerEntry(chain) - 1) * MAX_BACKOFF_MS
  {
    attempts, sleptMs := before, 0;
    var attempt := 0;
    while true
      invariant 0 <= attempt < AttemptsPerEntry(chain)
      invariant |attempts| == |before| + attempt && StillTrying(chain.entries[i], forward, before, attempts)
      invariant sleptMs <= attempt * MAX_BACKOFF_MS
      decreases AttemptsPerEntry(chain) - attempt
    {
      attempt := attempt + 1;
      var result := forward(|attempts|);
      TryOnce(chain.entries[i], forward, before, attempts);
      attempts := attempts + [TraceOf(chain.entries[i], result)];
      if !IsRetryable(OutcomeOf(result)) {
        return attempts, true, sleptMs;
      }
      if attempt >= chain.maxAttempts {
        return attempts, false, sleptMs;
      }
      sleptMs := sleptMs + BackoffMs(chain.initialBackoffMs, attempt - 1, jitter(|attempts|));
    }
  }

  /** `attempts` adds only retryable attempts of `entry`. */
  ghost predicate StillTrying(entry: Entry, forward: Forward, before: seq<AttemptTrace>, attempts: seq<AttemptTrace>) {
    && before <= attempts
    && forall k :: |before| <= k < |attempts| ==>
          attempts[k] == TraceOf(entry, forward(k)) && IsRetryable(OutcomeOf(forward(k)))
  }

  lemma TryOnce(entry: Entry, forward: Forward, before: seq<AttemptTrace>, attempts: seq<AttemptTrace>)
    requires StillTrying(entry, forward, before, attempts)
    ensures
      var more := attempts + [TraceOf(entry, forward(|attempts|))];
      && before <= more && (forall k :: |before| <= k < |more| ==> more[k] == TraceOf(entry, forward(k)))
      && (IsRetryable(OutcomeOf(forward(|attempts|))) ==> StillTrying(entry, forward, before, more))
  {
  }

  /** `attempts` adds between one and all attempts of entry `i`, all but the last of them retryable. */
  ghost predicate Extends(
      chain: ProviderChain, i: nat, forward: Forward, before: seq<AttemptTrace>, attempts: seq<AttemptTrace>)
    requires i < |chain.entries|
  {
    && |before| < |attempts| <= |before| + AttemptsPerEntry(chain) && before == attempts[..|before|]
    && (forall k :: |before| <= k < |attempts| ==> attempts[k] == TraceOf(chain.entries[i], forward(k)))
    && (forall k :: |before| <= k < |attempts| - 1 ==> IsRetryable(OutcomeOf(forward(k))))
  }

  lemma ExtendRun(
      chain: ProviderChain, i: nat, forward: Forward, before: seq<AttemptTrace>, attempts: seq<AttemptTrace>)
    requires i < |chain.entries| && |before| == StartOf(AttemptsPerEntry(chain), i)
    requires Extends(chain, i, forward, before, attempts)
    requires Charged(chain, forward, before) && RunsOn(chain, forward, |before| + 1)
    ensures Charged(chain, forward, attempts) && RunsOn(chain, forward, |attempts|)
    ensures EntryOf(AttemptsPerEntry(chain), |attempts| - 1) == i
  {
    var m := AttemptsPerEntry(chain);
    forall k | |before| <= k < |attempts| ensures EntryOf(m, k) == i && PlaceIn(m, k) == k - |before| {
      Locate(m, i, k);
    }
    forall k | 0 <= k < |before| ensures attempts[k] == before[k] {
    }
  }

  lemma {:induction false} LastIsEnd(m: nat, i: nat)
    requires m >= 1
    ensures EntryOf(m, StartOf(m, i)) == i && PlaceIn(m, StartOf(m, i)) == 0
    ensures i > 0 ==> EndOf(m, i) == StartOf(m, i) - 1 && EntryOf(m, EndOf(m, i)) == i - 1
  {
    Locate(m, i, StartOf(m, i));
    if i > 0 {
      Locate(m, i - 1, EndOf(m, i));
    }
  }

  lemma MayEnter(chain: ProviderChain, i: nat, forward: Forward)
    requires i < |chain.entries|
    requires RunsOn(chain, forward, StartOf(AttemptsPerEntry(chain), i))
    requires i > 0 ==>
               var o := OutcomeOf(forward(EndOf(AttemptsPerEntry(chain), i)));
               IsRetryable(o) && MatchesFallbackTrigger(o, chain.entries[i].trigger)
    ensures RunsOn(chain, forward, StartOf(AttemptsPerEntry(chain), i) + 1)
  {
    LastIsEnd(AttemptsPerEntry(chain), i);
  }

  /** Run entry `i` after a run that used up all entries before it and may go on. */
  method RunEntry(chain: ProviderChain, i: nat, forward: Forward, jitter: nat -> Jitter, before: seq<AttemptTrace>)
    returns (attempts: seq<AttemptTrace>, settled: bool, sleptMs: nat)
    requires i < |chain.entries| && |before| == StartOf(AttemptsPerEntry(chain), i)
    requires Charged(chain, forward, before) && RunsOn(chain, forward, |before| + 1)
    ensures Charged(chain, forward, attempts) && RunsOn(chain, forward, |attempts|)
    ensures |attempts| > 0 && FallbackOf(chain, |attempts|) == FallbackAfter(chain, i + 1)
    ensures settled <==> !IsRetryable(OutcomeOf(forward(|attempts| - 1)))
    ensures !settled ==> |attempts| == StartOf(AttemptsPerEntry(chain), i + 1)
    ensures sleptMs <= (AttemptsPerEntry(chain) - 1) * MAX_BACKOFF_MS
  {
    attempts, settled, sleptMs := TryEntry(chain, i, forward, jitter, before);
    ExtendRun(chain, i, forward, before, attempts);
    if i > 0 {
      StartMonotone(AttemptsPerEntry(chain), 1, i);
    }
  }

  /** The executor's variables between two entries. */
  datatype Progress = Progress(attempts: seq<AttemptTrace>, lastOutcome: Option<AttemptOutcome>, memory: Memory,
        sleptMs: nat)

  /** The first `used` entries are used up and nothing has settled the request. */
  ghost predicate UsedUp(chain: ProviderChain, forward: Forward, used: nat, p: Progress) {
    var m := AttemptsPerEntry(chain);
    && |p.attempts| == StartOf(m, used)
    && Charged(chain, forward, p.attempts) && RunsOn(chain, forward, |p.attempts|)
    && p.lastOutcome == (if used == 0 then None else Some(OutcomeOf(forward(EndOf(m, used)))))
    && (used > 0 ==> IsRetryable(p.lastOutcome.value))
    && p.memory == MemoryAfter(m, forward, used)
    && p.sleptMs <= StartOf((m - 1) * MAX_BACKOFF_MS, used)
  }

  /** The last attempt, made by entry `i`, settled the request. */
  ghost predicate Settled(
      chain: ProviderChain, forward: Forward, i: nat, p: Progress, result: Result<Response, GatewayError>) {
    && p.attempts != [] && Charged(chain, forward, p.attempts) && RunsOn(chain, forward, |p.attempts|)
    && result == forward(|p.attempts| - 1) && !IsRetryable(OutcomeOf(result))
    && FallbackOf(chain, |p.attempts|) == FallbackAfter(chain, i + 1)
    && p.sleptMs <= StartOf((AttemptsPerEntry(chain) - 1) * MAX_BACKOFF_MS, i + 1)
  }

  predicate MayGoOn(chain: ProviderChain, i: nat, p: Progress)
    requires i < |chain.entries|
  {
    i == 0 || (p.lastOutcome.Some? && MatchesFallbackTrigger(p.lastOutcome.value, chain.entries[i].trigger))
  }

  lemma OneMoreSleep(chain: ProviderChain, i: nat)
    ensures
      var perEntry := (AttemptsPerEntry(chain) - 1) * MAX_BACKOFF_MS;
      StartOf(perEntry, i + 1) == StartOf(perEntry, i) + perEntry
  {
  }

  lemma UsedOneMore(
      chain: ProviderChain, forward: Forward, i: nat, p: Progress, attempts: seq<AttemptTrace>)
    requires UsedUp(chain, forward, i, p) && |attempts| == StartOf(AttemptsPerEntry(chain), i + 1)
    ensures EndOf(AttemptsPerEntry(chain), i + 1) == |attempts| - 1
    ensures MemoryAfter(AttemptsPerEntry(chain), forward, i + 1) == Remember(p.memory, forward(|attempts| - 1))
  {
  }

  /** Enter entry `i`; `settled` is the result that ends the request, if there is one. */
  method Enter(chain: ProviderChain, i: nat, forward: Forward, jitter: nat -> Jitter, p: Progress)
    returns (p': Progress, settled: Option<Result<Response, GatewayError>>)
    requires i < |chain.entries| && UsedUp(chain, forward, i, p) && MayGoOn(chain, i, p)
    ensures settled.None? ==> UsedUp(chain, forward, i + 1, p')
    ensures settled.Some? ==> Settled(chain, forward, i, p', settled.value)
  {
    MayEnter(chain, i, forward);
    OneMoreSleep(chain, i);
    var attempts, done, slept := RunEntry(chain, i, forward, jitter, p.attempts);
    var result := forward(|attempts| - 1);
    if done {
      return p.(attempts := attempts, sleptMs := p.sleptMs + slept), Some(result);
    }
    UsedOneMore(chain, forward, i, p, attempts);
    p' := Progress(attempts, Some(OutcomeOf(result)), Remember(p.memory, result), p.sleptMs + slept);
    settled := None;
  }

  method ExecuteChain(chain: ProviderChain, forward: Forward, jitter: nat -> Jitter)
    returns (response: Result<Response, GatewayError>, attempts: seq<AttemptTrace>, fallbackUsed: Option<string>,
          sleptMs: nat)
    ensures IsRun(chain, forward, attempts)
    ensures response == FinalResult(chain, forward, |attempts|)
    ensures fallbackUsed == FallbackOf(chain, |attempts|)
    ensures sleptMs <= |chain.entries| * ((AttemptsPerEntry(chain) - 1) * MAX_BACKOFF_MS)
  {
    fallbackUsed := None;
    var p := Progress([], None, Memory(None, None), 0);
    var i := 0;
    while i < |chain.entries|
      invariant i <= |chain.entries| && UsedUp(chain, forward, i, p) && fallbackUsed == FallbackAfter(chain, i)
    {
      if !MayGoOn(chain, i, p) {
        break;
      }
      if i > 0 {
        fallbackUsed := Some(chain.entries[i].provider);
      }
      var settled;
      p, settled := Enter(chain, i, forward, jitter, p);
      if settled.Some? {
        SettledIsFinal(chain, forward, i, p, settled.value);
        SleepBound(chain, i + 1);
        return settled.value, p.attempts, fallbackUsed, p.sleptMs;
      }
      i := i + 1;
    }
    UsedUpIsFinal(chain, forward, i, p);
    SleepBound(chain, i);
    return Recall(p.memory), p.attempts, fallbackUsed, p.sleptMs;
  }

  lemma SettledIsFinal(
      chain: ProviderChain, forward: Forward, i: nat, p: Progress, result: Result<Response, GatewayError>)
    requires i < |chain.entries| && Settled(chain, forward, i, p, result)
    ensures IsRun(chain, forward, p.attempts) && result == FinalResult(chain, forward, |p.attempts|)
  {
  }

  lemma SleepBound(chain: ProviderChain, used: nat)
    requires used <= |chain.entries|
    ensures StartOf((AttemptsPerEntry(chain) - 1) * MAX_BACKOFF_MS,
              used) <= |chain.entries| * ((AttemptsPerEntry(chain) - 1) * MAX_BACKOFF_MS)
  {
    var perEntry := (AttemptsPerEntry(chain) - 1) * MAX_BACKOFF_MS;
    StartMonotone(perEntry, used, |chain.entries|);
    StartIsProduct(perEntry, |chain.entries|);
  }

  lemma UsedUpIsFinal(chain: ProviderChain, forward: Forward, i: nat, p: Progress)
    requires i <= |chain.entries| && UsedUp(chain, forward, i, p)
    requires i < |chain.entries| ==> i > 0 && !MayGoOn(chain, i, p)
    ensures IsRun(chain, forward, p.attempts) && Recall(p.memory) == FinalResult(chain, forward, |p.attempts|)
    ensures FallbackOf(chain, |p.attempts|) == FallbackAfter(chain, i)
  {
    LastIsEnd(AttemptsPerEntry(chain), i);
    FallbackWhenUsed(chain, i);
  }

  lemma FallbackWhenUsed(chain: ProviderChain, i: nat)
    requires i <= |chain.entries|
    ensures FallbackOf(chain, StartOf(AttemptsPerEntry(chain), i)) == FallbackAfter(chain, i)
  {
    var m := AttemptsPerEntry(chain);
    assert StartOf(m, 0) == 0 && StartOf(m, 1) == m;
    if i > 1 {
      assert StartOf(m, 2) == m + m;
      StartMonotone(m, 2, i);
      LastIsEnd(m, i);
    }
  }

  lemma {:induction false} StartMonotone(m: nat, i: nat, j: nat)
    requires i <= j
    ensures StartOf(m, i) <= StartOf(m, j)
    decreases j
  {
    if i < j {
      StartMonotone(m, i, j - 1);
    }
  }
}
