/** What every run of the executor has in common, for every chain and every sequence of upstream results. */
module ChainTheorems {
  import opened Common
  import opened Retry
  import opened ChainExecutor

  /** The description pins the run down: there is one trace per chain and result sequence. */
  lemma RunIsDetermined(chain: ProviderChain, forward: Forward, a: seq<AttemptTrace>, b: seq<AttemptTrace>)
    requires IsRun(chain, forward, a) && IsRun(chain, forward, b)
    ensures a == b
  {
    if a != [] && b != [] {
      var short, long := if |a| <= |b| then a else b, if |a| <= |b| then b else a;
      assert Stops(chain, forward, |short|);
      assert |long| <= |short|;
    }
  }

  /** No more attempts than entries times attempts per entry. */
  lemma AttemptBound(chain: ProviderChain, forward: Forward, attempts: seq<AttemptTrace>)
    requires IsRun(chain, forward, attempts)
    ensures |attempts| <= |chain.entries| * AttemptsPerEntry(chain)
  {
    var m, n := AttemptsPerEntry(chain), |attempts|;
    StartIsProduct(m, |chain.entries|);
    if n > StartOf(m, |chain.entries|) {
      EntryMonotone(m, StartOf(m, |chain.entries|), n - 1);
      LastIsEnd(m, |chain.entries|);
    }
  }

  lemma {:induction false} EntryMonotone(m: nat, k: nat, n: nat)
    requires m >= 1 && k <= n
    ensures EntryOf(m, k) <= EntryOf(m, n)
    decreases n
  {
    if k >= m {
      EntryMonotone(m, k - m, n - m);
    }
  }

  /** An entry that was left for the next one took exactly its full number of attempts, all retryable,
      and all on that entry's provider. */
  lemma LeftEntriesAreExhausted(
      chain: ProviderChain, forward: Forward, attempts: seq<AttemptTrace>, j: nat, k: nat)
    requires IsRun(chain, forward, attempts) && j < |chain.entries|
    requires StartOf(AttemptsPerEntry(chain), j) <= k < StartOf(AttemptsPerEntry(chain), j + 1) < |attempts|
    ensures attempts[k] == TraceOf(chain.entries[j], forward(k)) && IsRetryable(OutcomeOf(forward(k)))
  {
    Locate(AttemptsPerEntry(chain), j, k);
    assert !Stops(chain, forward, k + 1);
  }

  /** Entry `j > 0` is entered exactly when the entry before it was used up by retryable outcomes and
      its trigger matches the last of them. */
  lemma {:induction false} EnteredExactly(chain: ProviderChain, forward: Forward, attempts: seq<AttemptTrace>, j: nat)
    requires IsRun(chain, forward, attempts) && 0 < j < |chain.entries|
    ensures
      var start := StartOf(AttemptsPerEntry(chain), j);
      start < |attempts| <==>
        && start <= |attempts|
        && IsRetryable(OutcomeOf(forward(EndOf(AttemptsPerEntry(chain), j))))
        && MatchesFallbackTrigger(OutcomeOf(forward(EndOf(AttemptsPerEntry(chain), j))), chain.entries[j].trigger)
  {
    var start := StartOf(AttemptsPerEntry(chain), j);
    LastIsEnd(AttemptsPerEntry(chain), j);
    if 0 < start < |attempts| {
      assert !Stops(chain, forward, start);
    }
  }

  /** `fallback_used`, or else the primary, is the provider of the last attempt. */
  lemma AttributionIsLastAttempt(chain: ProviderChain, forward: Forward, attempts: seq<AttemptTrace>)
    requires IsRun(chain, forward, attempts) && chain.entries != []
    ensures FallbackOf(chain, |attempts|).UnwrapOr(chain.entries[0].provider) == attempts[|attempts| - 1].provider
  {
    var m, n := AttemptsPerEntry(chain), |attempts|;
    assert EntryOf(m, n - 1) < |chain.entries|;
    if n <= m {
      Locate(m, 0, n - 1);
    }
  }

  /** `resp` ended entry `j - 1`, and each later entry up to the `used`-th ended in an error. */
  ghost predicate IsLatest(m: nat, forward: Forward, used: nat, j: nat, resp: Response)
    requires m >= 1
  {
    && 1 <= j <= used && forward(EndOf(m, j)) == Ok(resp)
    && forall i :: j < i <= used ==> forward(EndOf(m, i)).Err?
  }

  /** The response kept is the latest of the entries' last attempts that is a response; without any,
      the error kept is the latest. */
  lemma {:induction false} MemoryIsLatest(m: nat, forward: Forward, used: nat)
    requires m >= 1
    ensures
      var mem := MemoryAfter(m, forward, used);
      && (mem.response.None? ==> forall j :: 1 <= j <= used ==> forward(EndOf(m, j)).Err?)
      && (mem.response.Some? ==> exists j :: IsLatest(m, forward, used, j, mem.response.value))
      && (used > 0 && forward(EndOf(m, used)).Err? ==> mem.error == Some(forward(EndOf(m, used)).error))
  {
    if used > 0 {
      MemoryIsLatest(m, forward, used - 1);
      var mem := MemoryAfter(m, forward, used);
      var before := MemoryAfter(m, forward, used - 1);
      if forward(EndOf(m, used)).Ok? {
        assert IsLatest(m, forward, used, used, mem.response.value);
      } else if before.response.Some? {
        var j :| IsLatest(m, forward, used - 1, j, before.response.value);
        assert IsLatest(m, forward, used, j, mem.response.value);
      }
    }
  }

  /** When the last attempt was retryable, the run used up whole entries and returns the latest response
      among their last attempts, or the last error when there is none. */
  lemma ExhaustedResult(chain: ProviderChain, forward: Forward, attempts: seq<AttemptTrace>)
    requires IsRun(chain, forward, attempts) && chain.entries != []
    requires IsRetryable(OutcomeOf(forward(|attempts| - 1)))
    ensures
      var m := AttemptsPerEntry(chain);
      var used := EntryOf(m, |attempts|);
      var result := FinalResult(chain, forward, |attempts|);
      && used > 0 && EndOf(m, used) == |attempts| - 1
      && (result.Ok? ==> exists j :: IsLatest(m, forward, used, j, result.value))
      && (result.Err? ==> result == forward(|attempts| - 1)
                          && forall j :: 1 <= j <= used ==> forward(EndOf(m, j)).Err?)
  {
    var m, n := AttemptsPerEntry(chain), |attempts|;
    assert PlaceIn(m, n) == 0;
    AtStart(m, n);
    LastIsEnd(m, EntryOf(m, n));
    MemoryIsLatest(m, forward, EntryOf(m, n));
  }

  lemma {:induction false} AtStart(m: nat, n: nat)
    requires m >= 1 && PlaceIn(m, n) == 0
    ensures n == StartOf(m, EntryOf(m, n))
    decreases n
  {
    if n >= m {
      AtStart(m, n - m);
    }
  }

  /** A 2xx response always comes from the last attempt, whose provider the run is attributed to. */
  lemma SuccessIsLastAttempt(chain: ProviderChain, forward: Forward, attempts: seq<AttemptTrace>)
    requires IsRun(chain, forward, attempts) && chain.entries != []
    requires
      var result := FinalResult(chain, forward, |attempts|);
      result.Ok? && 200 <= result.value.status < 300
    ensures FinalResult(chain, forward, |attempts|) == forward(|attempts| - 1)
  {
    if IsRetryable(OutcomeOf(forward(|attempts| - 1))) {
      ExhaustedResult(chain, forward, attempts);
      var m := AttemptsPerEntry(chain);
      var used := EntryOf(m, |attempts|);
      var result := FinalResult(chain, forward, |attempts|);
      var j :| IsLatest(m, forward, used, j, result.value);
      StartMonotone(m, j, used);
      EndsAreRetryable(chain, forward, attempts, j);
    }
  }

  lemma {:induction false} EndsAreRetryable(chain: ProviderChain, forward: Forward, attempts: seq<AttemptTrace>, j: nat)
    requires IsRun(chain, forward, attempts) && chain.entries != []
    requires IsRetryable(OutcomeOf(forward(|attempts| - 1)))
    requires 1 <= j && StartOf(AttemptsPerEntry(chain), j) <= |attempts|
    ensures IsRetryable(OutcomeOf(forward(EndOf(AttemptsPerEntry(chain), j))))
  {
    var start := StartOf(AttemptsPerEntry(chain), j);
    LastIsEnd(AttemptsPerEntry(chain), j);
    if 0 < start < |attempts| {
      assert !Stops(chain, forward, start);
    }
  }

  // ---- What is retried and what is passed on ----

  /** The results worth another attempt. */
  predicate Transient(r: Result<Response, GatewayError>) {
    match r
    case Ok(resp) => resp.status in {408, 425, 429, 500, 502, 503, 504}
    case Err(e) => e.UpstreamTimeout? || e.Http?
  }

  lemma TransientIsRetryable(r: Result<Response, GatewayError>)
    ensures IsRetryable(OutcomeOf(r)) <==> Transient(r)
  {
  }

  /** An attempt that is not the last of its entry is followed by another one if and only if its result was one of the
      seven statuses, a timeout or a network error. */
  lemma {:induction false} RetriedExactly(chain: ProviderChain, forward: Forward, attempts: seq<AttemptTrace>, k: nat)
    requires IsRun(chain, forward, attempts) && k < |attempts| && PlaceIn(AttemptsPerEntry(chain), k + 1) != 0
    ensures |attempts| > k + 1 <==> Transient(forward(k))
  {
    TransientIsRetryable(forward(k));
    if |attempts| > k + 1 {
      assert !Stops(chain, forward, k + 1);
    } else {
      assert Stops(chain, forward, k + 1);
    }
  }

  /** In particular a second attempt is made exactly then, when the route allows one. */
  lemma {:induction false} SecondAttemptExactly(chain: ProviderChain, forward: Forward, attempts: seq<AttemptTrace>)
    requires IsRun(chain, forward, attempts) && chain.entries != [] && chain.maxAttempts > 1
    ensures |attempts| > 1 <==> Transient(forward(0))
  {
    RetriedExactly(chain, forward, attempts, 0);
  }

  /** `t` spells the lower-case word `w`, in letters of either case. */
  predicate Spells(t: string, w: string) {
    |t| == |w| && forall i :: 0 <= i < |w| ==> t[i] == w[i] || ('a' <= w[i] <= 'z' && t[i] as int + 32 == w[i] as int)
  }

  lemma LowerSpells(t: string, w: string)
    requires forall i :: 0 <= i < |w| ==> !('A' <= w[i] <= 'Z')
    ensures Lower(t) == w <==> Spells(t, w)
  {
    assert |Lower(t)| == |t|;
    forall i | 0 <= i < |t| && i < |w|
      ensures Lower(t)[i] == w[i] <==> t[i] == w[i] || ('a' <= w[i] <= 'z' && t[i] as int + 32 == w[i] as int)
    {
      assert Lower(t)[i] == LowerChar(t[i]);
    }
    if Spells(t, w) {
      assert Lower(t) == w;
    }
    if Lower(t) == w {
      assert forall i :: 0 <= i < |w| ==> Lower(t)[i] == w[i];
    }
  }

  /** The trigger that names a transient result: one of two words for server errors, one of two for rate limiting, and
      `timeout`, which also names network errors. 408 and 425 have no name. */
  predicate Names(t: string, r: Result<Response, GatewayError>) {
    match r
    case Ok(resp) =>
      || (resp.status in {500, 502, 503, 504} && (Spells(t, "upstream_5xx") || Spells(t, "upstream_error")))
      || (resp.status == 429 && (Spells(t, "rate_limited") || Spells(t, "ratelimited")))
    case Err(e) =>
      || (e.UpstreamTimeout? && Spells(t, "timeout"))
      || (e.Http? && (Spells(t, "network") || Spells(t, "timeout")))
  }

  lemma {:induction false} TriggerNames(t: string, r: Result<Response, GatewayError>)
    requires Transient(r)
    ensures TriggerMatches(OutcomeOf(r), t) <==> Names(t, r)
  {
    LowerSpells(t, "upstream_5xx");
    LowerSpells(t, "upstream_error");
    LowerSpells(t, "rate_limited");
    LowerSpells(t, "ratelimited");
    LowerSpells(t, "timeout");
    LowerSpells(t, "network");
  }

  /** The next entry takes such a result over. */
  ghost predicate TakesOver(entry: Entry, r: Result<Response, GatewayError>) {
    Transient(r) && (entry.trigger == [] || exists t :: t in entry.trigger && Names(t, r))
  }

  /** Entry `j > 0` is entered if and only if the entry before it made all its attempts, the last one ended in a
      transient result, and the entry has no triggers or one that names that result. */
  lemma {:induction false} PassedOnExactly(chain: ProviderChain, forward: Forward, attempts: seq<AttemptTrace>, j: nat)
    requires IsRun(chain, forward, attempts) && 0 < j < |chain.entries|
    ensures
      var start := StartOf(AttemptsPerEntry(chain), j);
      var last := forward(EndOf(AttemptsPerEntry(chain), j));
      start < |attempts| <==> start <= |attempts| && TakesOver(chain.entries[j], last)
  {
    var last := forward(EndOf(AttemptsPerEntry(chain), j));
    EnteredExactly(chain, forward, attempts, j);
    TransientIsRetryable(last);
    if Transient(last) {
      forall t ensures TriggerMatches(OutcomeOf(last), t) <==> Names(t, last) { TriggerNames(t, last); }
    }
  }

  /** The names under which outcomes are recorded. */
  lemma OutcomeNames(entry: Entry, r: Result<Response, GatewayError>)
    ensures TraceOf(entry, r).provider == entry.provider && TraceOf(entry, r).model == entry.model
    ensures TraceOf(entry, r).status == if r.Ok? then Some(r.value.status) else None
    ensures r.Ok? && r.value.status in {200, 302} ==> TraceOf(entry, r).outcome == "success"
    ensures r.Ok? && Transient(r) ==> TraceOf(entry, r).outcome == "retryable_status"
    ensures r == Err(UpstreamTimeout) ==> TraceOf(entry, r).outcome == "timeout"
    ensures r == Err(Http) ==> TraceOf(entry, r).outcome == "retryable_network"
    ensures !Transient(r) && (r.Ok? ==> r.value.status < 200 || r.value.status >= 400) ==>
              TraceOf(entry, r).outcome == "non_retryable"
  {
  }

  /** A chain without entries makes no attempt and returns an internal error. */
  lemma {:induction false} EmptyChain(chain: ProviderChain, forward: Forward, attempts: seq<AttemptTrace>)
    requires IsRun(chain, forward, attempts) && chain.entries == []
    ensures attempts == [] && FinalResult(chain, forward, 0) == Err(Internal("empty provider chain"))
  {
  }

  /** The words for server errors also name those that are not retried, and success has no name. */
  lemma {:induction false} OtherNames(t: string, status: nat)
    ensures TriggerMatches(NonRetryable(status), t) <==>
            500 <= status <= 599 && (Spells(t, "upstream_5xx") || Spells(t, "upstream_error"))
    ensures TriggerMatches(RetryableStatus(status), t) <==>
            || (500 <= status <= 599 && (Spells(t, "upstream_5xx") || Spells(t, "upstream_error")))
            || (status == 429 && (Spells(t, "rate_limited") || Spells(t, "ratelimited")))
    ensures !TriggerMatches(Success, t) && !MatchesFallbackTrigger(Success, [])
    ensures MatchesFallbackTrigger(NonRetryable(status), [])
  {
    LowerSpells(t, "upstream_5xx");
    LowerSpells(t, "upstream_error");
    LowerSpells(t, "rate_limited");
    LowerSpells(t, "ratelimited");
  }
}
