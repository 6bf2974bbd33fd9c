# Gateway verification

A Dafny 4.11 model of an LLM gateway: its admission control, its retry and fallback executor, its
cache keys, its price catalog and cost recompute, its request log, its budgets, its declarative keys
and its two-tier cache. Each part is modelled in the form the code has (objects and loops where the
code changes state, functions where it computes), and what the code is for is proved over all inputs,
all runs and all interleavings.

`dafny verify dfyconfig.toml` checks the whole project.

How the parts fit together:

* **Admission control** (`MemoryCounters`, `Admission`, `CheckLimits`, `TokenConservation`, `AbandonedTokens`,
  `OvertakenCheck`, `LimitTargets`, `RequestRate`, `RedisSemaphore`, `RedisAdmission`).
  `Admission.Step` is one store call of one request; `World` interleaves any number of requests with a
  clock that reads anything at each call. The loops of `check_limits` and `reconcile_tokens` are in
  `CheckLimits`, proved to be the uninterrupted run of one request, so that the theorems about all
  interleavings are about that code. `RedisSemaphore` is the INCR / compare / DECR protocol with every
  Redis command a step, refined to the memory store's counter; `RedisAdmission` runs whole requests over it.
* **Executor** (`Retry`, `ChainExecutor`, `ChainTheorems`, `Attribution`). `forward(k)` is what the k-th
  upstream attempt returns, arbitrary. `IsRun` describes a run by its stopping condition alone;
  `ExecuteChain` is the nested loop, proved against it. `Attribution` follows the provider into the
  stored log record.
* **Response cache** (`Ordering`, `CanonicalJson`, `CachePolicy`, `Fingerprint`, `ProxyCache`). The bytes fed to
  the hash, the key made of them, and the proxy's lookup and write-back. `Meaning` reads a parsed body as a
  JSON value with objects as maps and is the reference for the stream.
* **Prices** (`Catalog`, `OpenRouter`, `Calculator`, `RequestLog`, `Recompute`). Money is `real`.
* **Log store** (`Cursor`, `Pagination`, `BatchWorker`, `LogTable`). A page is filter, sort, take; a traversal reads each
  page from whatever the table is at that time. The batch worker is a state machine over append, flush,
  receive, tick, close and stop steps.
* **Budgets** (`Budget`, `BudgetRuns`), **declared keys** (`SeedKeys`), **cache tiers** (`TieredKv` for serial
  operations, `InterleavedKv` for operations that overlap), and the size estimate for base64 payloads
  (`Base64Len`).

Where the code differs from what one would expect, the model follows the code and a lemma says exactly
when the expected property holds:

* The Redis cap compares the low 32 bits of the counter: it holds in all runs if and only if fewer than
  2^32 calls can overlap (`CapHoldsExactly`).
* A request shares its cache key with another one of the same namespace and body if and only if its scope has a
  `|`, or its endpoint has one with only header bytes behind it (`PipeCollides`). Without any `|` in endpoint and
  scope, and whatever the namespace holds, keys coincide only for the same namespace, endpoint, scope and JSON body
  (`SameKeyExactly`). HTTP method and caller are not part of a key. A body that is not JSON is neither looked up nor
  stored (`Serve`).
* 408 and 425 are retried, yet no named fallback trigger matches them (`NamedTriggers`).
* A response that is not a success costs nothing when it arrives, but a recompute charges it when it carried
  token counts for a priced model (`ForwardedKeepsItsCost`, `RefusedRequestIsCharged`).
* Budget thresholds are announced per whole percent, so two thresholds within one percent are announced once
  (`AnnouncedExactly`, `SharedBucket`).
* The memory tier does not know lifetimes: any entry that is not evicted is served for a day after its put, however
  short its lifetime (`ServedForADay`), a read near the end of a longer lifetime adds a day (`StaleForADay`), and past
  its lifetime an entry is returned exactly while the memory tier holds it (`PastLife`).
* With serial operations a cache entry is sure to be readable for its lifetime if and only if its expiry fits 64 bits
  (`LifeGuaranteedExactly`). Otherwise, in a build without overflow checks, the table row is already expired and
  the entry is served exactly while the memory tier holds it (`OverflowedLife`); with overflow checks the put
  panics.
* With overlapping operations a read can bring an overtaken value back for a day: when a write begins between its
  fetch and its refill (`StaleAfterRefill`), and also without any, when an earlier write has not reached the table
  yet (`StaleBeforeRow`). The memory tier only ever holds the write that began last if and only if, for every refill,
  the last write of its key to land before its fetch is the last one to begin before the refill (`FreshExactly`). The
  table always holds the write that landed last (`TableIsLastLanded`).
* A read that met an expired row can delete the row of a newer put (`LostToExpiredRead`); live rows stay in the table
  if and only if no such put lands in between and is still alive (`RowsKeptExactly`).
* A response id that repeats keeps a whole batch of log records out of the table (`RepeatLosesBatch`); all accepted
  records reach it if and only if their ids are all different (`AcceptedReachExactly`).
* A request rejected by a later check keeps the token reservations of the earlier ones. `TokensAfterCheck` says how
  much stays charged, `LeakExample` is such a request, and `LeaksExactly` says for which configurations there is
  one when the request is checked undisturbed. It is not enough then that some check follows the token limit: a
  request limit of zero is never passed, and a slot limit that leaves no less than an earlier one of its scope is
  never the first to fail (`NeverFirst`). With other requests in between it can be (`OvertakenLeaks`); in every run
  it takes a token limit that can be reached and a check behind it (`LeakNeedsFollower`).
* A request cancelled inside a Redis concurrency call leaves its count behind: when all is quiet a slot counter is
  exactly the number of such cancellations (`AllButCancelledReturned`, `CancelLeaks`).
* A negative cached token count is charged as that many more uncached prompt tokens, while other negative counts add
  nothing (`NegativeCounts`).
* The slug of a feed row whose id an earlier row has taken is not indexed; ids of all usable rows and slugs of all
  entries have a price (`IdsAndSlugsPriced`).
* The price lookup takes a trailing `-` for a date suffix (`StripsExactly`).

## Model

| member | source | states |
|---|---|---|
| `MemoryCounters.MemoryCounterStore.IncrWindow` | crates/gateway-storage/src/memory/mod.rs:584-591 | only the current bucket of the key moves, by the amount; its new value is returned |
| `MemoryCounters.BucketSpan` | crates/gateway-storage/src/memory/mod.rs:585-586 | a bucket is a stretch of the clock as long as the window, which is at least a millisecond |
| `MemoryCounters.MemoryCounterStore.TryAcquireConcurrency` | crates/gateway-storage/src/memory/mod.rs:604-631 | a permit exactly below the cap, and then one more slot is taken; a denial takes none |
| `MemoryCounters.MemoryCounterStore.Release` | crates/gateway-storage/src/memory/mod.rs:624-629 | one slot of the key is given back, never below zero |
| `MemoryCounters.ConcurrencyPermit.Drop` | crates/gateway-storage/src/traits.rs:106-112 | the release runs exactly once however often the permit is dropped |
| `RedisSemaphore.RedisKey.TryAcquireConcurrency` | crates/gateway-storage/src/redis/counter.rs:50-83 | undisturbed, a call is the protocol's steps of one slot; a denial leaves the counter as it was |
| `RedisSemaphore.RedisKey.ReleasePermit` | crates/gateway-storage/src/redis/counter.rs:76-81 | a dropped permit's task is the protocol's release step |
| `RedisSemaphore.StepKeepsInvariant` | crates/gateway-storage/src/redis/counter.rs:50-83 | every INCR, comparison, rollback, drop and release keeps: the counter counts the calls in progress, and granted calls stay within the cap |
| `RedisSemaphore.StepRefinesSemaphore` | crates/gateway-storage/src/redis/counter.rs:50-83 | every step is a step of the atomic memory counter: each grant is one that counter would make |
| `RedisSemaphore.DenialIsGenuine` | crates/gateway-storage/src/redis/counter.rs:67-74 | when everything counted holds a permit, a call is denied exactly when the memory store would deny it |
| `RedisSemaphore.ProtocolSafety` | crates/gateway-storage/src/redis/counter.rs:50-83 | over every interleaving: the counter is permits out plus undecided plus not rolled back plus not released, permits never exceed the cap, the run is a run of the memory counter up to spurious denials, and a quiet key is zero |
| `RedisSemaphore.WrapAround` | crates/gateway-storage/src/redis/counter.rs:67-67 | with 2^32 overlapping calls, a run that hands out more permits than the cap |
| `RedisSemaphore.CapHoldsExactly` | crates/gateway-storage/src/redis/counter.rs:67-67 | for every 32-bit cap: it holds in all runs if and only if fewer than 2^32 calls can overlap |
| `Admission.ScopesSeparate` | crates/gateway-api/src/ratelimit.rs:47-64 | two checks share a counter exactly when kind and, for keys and projects, id agree; no choice of ids collides |
| `LimitTargets.AppliesExactly` | crates/gateway-api/src/ratelimit.rs:46-64 | a limit that lets nobody through rejects exactly the callers of its key, or of its project, or all when it names none or `*` or is global, and nobody when its kind is unknown |
| `LimitTargets.RpmExactly` | crates/gateway-api/src/ratelimit.rs:66-75 | a request limit rejects exactly when the current minute already has as many requests as it allows |
| `LimitTargets.TpmExactly` | crates/gateway-api/src/ratelimit.rs:77-90 | a token limit rejects exactly when 1024 more tokens do not fit into the current minute, or its count is below -1024 |
| `LimitTargets.SlotsExactly` | crates/gateway-api/src/ratelimit.rs:94-106 | a slot limit rejects exactly when all its slots are taken |
| `LimitTargets.Verdict` | crates/gateway-api/src/ratelimit.rs:37-114 | `check_limits` rejects exactly when the request's uninterrupted run ends rejected |
| `Admission.StepMovesSlots` | crates/gateway-api/src/ratelimit.rs:94-107 | every step moves the slot counter and the permits held together and keeps the counter within the cap |
| `Admission.SlotSafety` | crates/gateway-api/src/ratelimit.rs:43-113 | in every interleaved run each slot counter equals the live permits and is at most the cap, so no release saturates |
| `Admission.FinishedHoldNothing` | crates/gateway-api/src/ratelimit.rs:94-113 | in every run a request that was rejected or has finished holds no permit |
| `Admission.AllSlotsReturned` | crates/gateway-api/src/ratelimit.rs:43-113 | when all requests are done every slot counter is zero |
| `CheckLimits.CheckLimits` | crates/gateway-api/src/ratelimit.rs:37-114 | the loop over the limits leaves the store and the reservations of one request's uninterrupted run, and new, undropped permits for exactly its slots |
| `CheckLimits.CheckOne` | crates/gateway-api/src/ratelimit.rs:46-107 | one limit: RPM, then TPM with rollback, then concurrency, with the permits dropped on each early return |
| `CheckLimits.CheckRpm` | crates/gateway-api/src/ratelimit.rs:66-75 | the RPM branch is the model's RPM step |
| `CheckLimits.CheckTpm` | crates/gateway-api/src/ratelimit.rs:77-92 | the TPM branch is the model's TPM step, with the key charged |
| `CheckLimits.CheckConcurrency` | crates/gateway-api/src/ratelimit.rs:94-107 | the concurrency branch is the model's concurrency step, with the permit object taken |
| `CheckLimits.DropPermits` | crates/gateway-storage/src/traits.rs:106-112 | dropping the permits of a request drops each permit object once, in order, and takes the request to its end with no slot left |
| `CheckLimits.ReconcileTokens` | crates/gateway-api/src/ratelimit.rs:24-32 | the loop settles every reservation and then drops every permit once, as the model's uninterrupted run does |
| `CheckLimits.AloneIsRun` | crates/gateway-api/src/ratelimit.rs:37-114 | the uninterrupted run of a request is one of the interleaved runs and touches no other request |
| `CheckLimits.SlotsAfterCheck` | crates/gateway-api/src/ratelimit.rs:37-114 | a rejected check leaves every slot counter where it was; an admitted one has added exactly its permits |
| `TokenConservation.BalanceIncremented` | crates/gateway-storage/src/memory/mod.rs:584-591 | an increment changes the sum over all buckets of its key by the amount, whatever the clock, and no other key's |
| `TokenConservation.StepBalances` | crates/gateway-api/src/ratelimit.rs:77-92 | every step changes a TPM key's sum over buckets by what it changes in the requests' reservations |
| `TokenConservation.TokensConserved` | crates/gateway-api/src/ratelimit.rs:24-92 | in every interleaved run and for every clock, a TPM key's sum over buckets is the actual tokens of reconciled reservations plus 1024 for each live, dropped or abandoned one and each pending rollback |
| `AbandonedTokens.TokensAfterCheck` | crates/gateway-api/src/ratelimit.rs:37-114 | a check that runs alone changes a TPM key's sum over buckets by exactly what the request owes more at the end |
| `AbandonedTokens.CheckedIs` | crates/gateway-api/src/ratelimit.rs:37-114 | it is rejected at the first check that does not pass and keeps exactly the reservations made before that check |
| `AbandonedTokens.LeaksExactly` | crates/gateway-api/src/ratelimit.rs:46-107 | some store and clock give a rejection that keeps a reservation if and only if a token check that can be reached is followed by a check that can be the first to fail |
| `AbandonedTokens.NeverFirst` | crates/gateway-api/src/ratelimit.rs:66-107 | a slot check that leaves no less than an earlier one of its scope, or any check behind a request limit of zero, is never the first to fail |
| `AbandonedTokens.LeakExample` | crates/gateway-api/src/ratelimit.rs:77-107 | a rejected request that leaves 1024 tokens charged |
| `OvertakenCheck.NotAlone` | crates/gateway-api/src/ratelimit.rs:94-107 | a configuration whose second slot check never fails first when a request is checked alone |
| `OvertakenCheck.OvertakenLeaks` | crates/gateway-api/src/ratelimit.rs:46-107 | the same configuration, from an empty store with two interleaved requests: that check rejects one of them, and its token reservation stays |
| `OvertakenCheck.LeakNeedsFollower` | crates/gateway-api/src/ratelimit.rs:46-107 | in every interleaving a rejected request keeps a reservation only if, among the checks that apply to it, a token limit that can be reached is followed by another check |
| `RedisAdmission.RedisSlotSafety` | crates/gateway-storage/src/redis/counter.rs:50-83 | requests over Redis, cancellations included: a slot counter is permits out, calls in progress, releases to come and cancelled counts, and permits out never exceed the cap |
| `RedisAdmission.AskIsIncr` | crates/gateway-storage/src/redis/counter.rs:58-61 | the command that asks for a slot is the protocol's INCR on that counter, with the limit's cap |
| `RedisAdmission.DecideIsDecide` | crates/gateway-storage/src/redis/counter.rs:67-82 | the next one is its comparison: one more permit and the next limit, or the rollback to come |
| `RedisAdmission.DeniedIsRollBack` | crates/gateway-storage/src/redis/counter.rs:67-73 | after a denial the next one is its rollback, and the request is rejected |
| `RedisAdmission.SlotCallOutcome` | crates/gateway-storage/src/redis/counter.rs:50-83 | whatever happens in between, a slot call gains a permit exactly when the counter was below the cap at its INCR, and otherwise takes its count back |
| `RedisAdmission.AgreesWithMemory` | crates/gateway-storage/src/redis/counter.rs:50-83 | undisturbed, a slot call over Redis leaves the request as the memory store would |
| `RedisAdmission.AllButCancelledReturned` | crates/gateway-storage/src/redis/counter.rs:58-81 | when all requests are done and all release tasks have run, a slot counter is the number of calls cancelled on it |
| `RedisAdmission.CancelLeaks` | crates/gateway-storage/src/redis/counter.rs:58-74 | a run of one request, cancelled after its INCR, that ends with nobody holding the slot and the counter at one |
| `RedisAdmission.RedisTokensConserved` | crates/gateway-storage/src/redis/counter.rs:26-39 | token conservation over Redis, for every interleaving and clock |
| `RequestRate.StepCounts` | crates/gateway-api/src/ratelimit.rs:66-75 | only RPM checks touch an RPM bucket; each adds one and passes exactly within the cap |
| `RequestRate.ExactlyCapPasses` | crates/gateway-api/src/ratelimit.rs:66-75 | under every interleaving exactly min(n, rpm) of the n checks in a bucket pass |
| `RequestRate.AtMostTwiceCap` | crates/gateway-api/src/ratelimit.rs:66-75 | at most 2·rpm checks pass in any 60-second interval |
| `Retry.BackoffMs` | crates/gateway-core/src/proxy/retry.rs:50-57 | a backoff is at most ten seconds for every setting, attempt and jitter |
| `Retry.BackoffGrows` | crates/gateway-core/src/proxy/retry.rs:50-57 | the cap never falls from one attempt to the next and is constant from the ninth on |
| `Retry.BackoffDoubles` | crates/gateway-core/src/proxy/retry.rs:51-54 | the cap starts at the configured backoff and doubles with each of the first eight attempts, up to ten seconds |
| `Retry.JitterSpreads` | crates/gateway-core/src/proxy/retry.rs:55-56 | every number of milliseconds below the cap is the backoff for some jitter |
| `Retry.ErrorStatuses` | crates/gateway-core/src/error.rs:51-64 | the status each error stands for; only timeouts and network errors are retried |
| `Retry.NamedTriggers` | crates/gateway-core/src/proxy/retry.rs:63-91 | a retryable status has a matching named trigger if and only if it is neither 408 nor 425 |
| `ChainExecutor.FromRoute` | crates/gateway-core/src/proxy/fallback.rs:32-42 | primary first, then the fallbacks in order with their triggers |
| `ChainExecutor.TryEntry` | crates/gateway-core/src/proxy/executor.rs:45-86 | one entry's attempts: all but the last retryable, all its attempts used unless it settles, and the time slept |
| `ChainExecutor.ExecuteChain` | crates/gateway-core/src/proxy/executor.rs:19-103 | for every chain and every sequence of upstream results the trace is the described run, with its result, attribution and a sleep of at most entries·(attempts−1)·10 s |
| `ChainTheorems.RunIsDetermined` | crates/gateway-core/src/proxy/executor.rs:30-88 | the description admits one trace per chain and result sequence |
| `ChainTheorems.AttemptBound` | crates/gateway-core/src/proxy/executor.rs:30-88 | at most entries·max(1, max_attempts) attempts |
| `ChainTheorems.LeftEntriesAreExhausted` | crates/gateway-core/src/proxy/executor.rs:44-86 | an entry that was left made exactly its full number of attempts, all retryable and all on its provider |
| `ChainTheorems.EnteredExactly` | crates/gateway-core/src/proxy/executor.rs:33-42 | a fallback is entered if and only if the entry before it was used up by retryable outcomes and its trigger matches the last |
| `ChainTheorems.RetriedExactly` | crates/gateway-core/src/proxy/retry.rs:16-47 | an attempt that is not its entry's last is followed by another if and only if it ended in status 408, 425, 429, 500, 502, 503 or 504, a timeout or a network error |
| `ChainTheorems.SecondAttemptExactly` | crates/gateway-core/src/proxy/executor.rs:66-85 | in particular the second attempt |
| `ChainTheorems.TriggerNames` | crates/gateway-core/src/proxy/retry.rs:75-90 | which words name which result, in either case: two for server errors, two for rate limiting, `timeout`, and `network` or `timeout` for network errors |
| `ChainTheorems.OtherNames` | crates/gateway-core/src/proxy/retry.rs:63-72 | the words for server errors also name those that are not retried; an empty trigger list takes everything but a success |
| `ChainTheorems.PassedOnExactly` | crates/gateway-core/src/proxy/executor.rs:33-42 | a fallback is entered if and only if the entry before it is used up, its last result is one of those, and the fallback has no triggers or one that names that result |
| `ChainTheorems.EndsAreRetryable` | crates/gateway-core/src/proxy/executor.rs:36-39 | the last outcome of every used-up entry is retryable, so a trigger is only ever compared with a retryable outcome |
| `ChainTheorems.AttributionIsLastAttempt` | crates/gateway-core/src/proxy/executor.rs:41-41 | the fallback named, or else the primary, is the provider of the last attempt |
| `ChainTheorems.MemoryIsLatest` | crates/gateway-core/src/proxy/executor.rs:76-80 | the response kept is the latest entry-ending response, the error kept the latest error |
| `ChainTheorems.ExhaustedResult` | crates/gateway-core/src/proxy/executor.rs:90-96 | an exhausted chain returns the latest entry-ending response, or the last error only if there was none |
| `ChainTheorems.SuccessIsLastAttempt` | crates/gateway-core/src/proxy/executor.rs:66-73 | a 2xx response is always the last attempt's |
| `ChainTheorems.OutcomeNames` | crates/gateway-core/src/proxy/executor.rs:58-64 | every attempt is recorded with its entry's provider and model, its status and the name of its outcome |
| `ChainTheorems.EmptyChain` | crates/gateway-core/src/proxy/executor.rs:94-96 | a chain without entries makes no attempt and returns an internal error |
| `CanonicalJson.EncDetermines` | crates/gateway-core/src/cache/fingerprint.rs:46-91 | prefix-free and injective: if enc(v)+r = enc(w)+s then v and w are the same JSON value and r = s |
| `CanonicalJson.MeaningDetermines` | crates/gateway-core/src/cache/fingerprint.rs:53-91 | the same JSON value always gives the same stream |
| `CanonicalJson.EncIsCanonical` | crates/gateway-core/src/cache/fingerprint.rs:53-91 | equal streams if and only if equal JSON values, objects taken as maps |
| `Fingerprint.HashLen` | crates/gateway-core/src/cache/fingerprint.rs:46-48 | lengths are fed as eight little-endian bytes |
| `Fingerprint.LengthBytes` | crates/gateway-core/src/cache/fingerprint.rs:46-48 | the lowest byte of a length comes first |
| `Fingerprint.TagBytes` | crates/gateway-core/src/cache/fingerprint.rs:54-90 | the letter that opens each kind of value |
| `Fingerprint.HeaderBytes` | crates/gateway-core/src/cache/fingerprint.rs:24-31 | the three header strings each end in a pipe, an absent scope being empty |
| `Fingerprint.HashJsonValue` | crates/gateway-core/src/cache/fingerprint.rs:53-91 | the recursive walk over sorted keys feeds exactly the canonical stream |
| `Fingerprint.HashInputs` | crates/gateway-core/src/cache/fingerprint.rs:22-44 | the hash is fed the three header strings, each closed by a pipe, and the body's stream |
| `Fingerprint.SamePreimageExactly` | crates/gateway-core/src/cache/fingerprint.rs:22-91 | for endpoint and scope without a pipe and any namespace, two JSON requests share namespace and preimage if and only if endpoint, scope-or-empty and JSON value agree too |
| `Fingerprint.PathsExactly` | crates/gateway-api/src/routes/proxy.rs:96-96 | the endpoints that occur are exactly the texts with one leading slash |
| `Fingerprint.KeySplits` | crates/gateway-api/src/routes/proxy.rs:190-190 | a key spells out namespace and hash, even when the namespace holds a colon |
| `Fingerprint.SameKeyExactly` | crates/gateway-api/src/routes/proxy.rs:179-193 | two keyed requests without a pipe in endpoint or scope share a key if and only if namespace, endpoint, scope-or-empty and JSON body agree, hash collisions aside |
| `Fingerprint.PipeCollides` | crates/gateway-api/src/routes/proxy.rs:183-190 | a request shares namespace, body and preimage with another one that can arrive if and only if its scope has a pipe or its endpoint has one with only header bytes behind it |
| `Fingerprint.RawBodyCollides` | crates/gateway-core/src/cache/fingerprint.rs:33-42 | a raw body would have a JSON body's preimage if and only if it spells that value's stream, which is why raw bodies must stay without a key |
| `Fingerprint.FieldOrderIrrelevant` | crates/gateway-core/src/cache/fingerprint.rs:79-89 | every permutation of an object's fields gives the same stream |
| `Ordering.FirstDifference` | crates/gateway-core/src/cache/fingerprint.rs:80-81 | keys are in byte order: decided at the first difference, a prefix first |
| `Catalog.WithOverrides` | crates/gateway-core/src/pricing/catalog.rs:70-81 | for each key the last override wins and all else is kept; coherence is preserved |
| `Catalog.StripsExactly` | crates/gateway-core/src/pricing/catalog.rs:113-119 | a name is shortened exactly to what precedes a '-' followed only by digits or by nothing |
| `Catalog.LookupNeverDrops` | crates/gateway-core/src/pricing/catalog.rs:123-146 | a price is found exactly when a local price or a feed entry answers to the name |
| `Catalog.PricedNames` | crates/gateway-core/src/pricing/catalog.rs:108-147 | a name has a price if and only if a local price answers to it, dated or for all providers, or it is a slug, an id, or the only slug's or id's last segment |
| `Catalog.FeedPrice` | crates/gateway-core/src/pricing/catalog.rs:125-135 | without local prices a name costs what the feed says for its id: slugs before their last segments, these before ids, last segments of ids last |
| `Catalog.LocalForFeedEntry` | crates/gateway-core/src/pricing/catalog.rs:136-145 | a local price for the id or slug that a name means takes the place of the feed's, the provider's own before the general one and the id's before the slug's |
| `Catalog.LocalOrder` | crates/gateway-core/src/pricing/catalog.rs:109-122 | an exact local price always wins, then one for the undated name, then one for all providers |
| `Catalog.LastSegmentExactly` | crates/gateway-core/src/pricing/openrouter.rs:43-43 | a last segment is what follows the last '/', or all of the name |
| `Catalog.SameEntrySamePrice` | crates/gateway-core/src/pricing/catalog.rs:123-146 | names that lead to one feed entry have one price under a provider |
| `Catalog.StrongestPriceWins` | crates/gateway-core/src/pricing/catalog.rs:108-147 | the answer is the first local price on one ladder of keys, and the feed's price only when no rung has one |
| `Catalog.LookupIsShown` | crates/gateway-core/src/pricing/catalog.rs:83-95 | every price the lookup returns is one that the listing shows |
| `Catalog.SlugLeadsToItsEntry` | crates/gateway-core/src/pricing/catalog.rs:126-129 | a slug leads to an entry that carries it as its slug, whatever other names exist |
| `OpenRouter.UniqueLastSegments` | crates/gateway-core/src/pricing/openrouter.rs:37-52 | a short name is mapped to an id if and only if all names ending in it, and at least one, carry that id |
| `OpenRouter.OrderIrrelevant` | crates/gateway-core/src/pricing/openrouter.rs:37-52 | the order in which the names are met does not matter |
| `OpenRouter.BuildIndex` | crates/gateway-core/src/pricing/openrouter.rs:84-128 | the loop indexes exactly the first usable row of each id, and for each slug the first accepted row |
| `OpenRouter.ParseOpenRouter` | crates/gateway-core/src/pricing/openrouter.rs:73-139 | fails exactly when no row is usable; otherwise all five indexes are those of the feed |
| `OpenRouter.FeedIsCoherent` | crates/gateway-core/src/pricing/openrouter.rs:73-139 | for every feed: equal domains, each entry's model is its key, a slug's id has that slug, all alias targets exist |
| `OpenRouter.SlugPrefersPlainIds` | crates/gateway-core/src/pricing/openrouter.rs:76-83 | a slug leads to a row without ':' in its id whenever such a row with that slug was accepted |
| `OpenRouter.EntriesAreRows` | crates/gateway-core/src/pricing/openrouter.rs:88-127 | every entry comes from a feed row, with that row's id, slug and prices times 1000 |
| `OpenRouter.UsableRowsListed` | crates/gateway-core/src/pricing/openrouter.rs:84-99 | every usable row's id is in the catalog |
| `OpenRouter.UsableIsCandidate` | crates/gateway-core/src/pricing/openrouter.rs:85-112 | a row is usable exactly when its slug and id do not end in '/', the slug is not empty, and its prices are numbers that are not negative, zero included |
| `OpenRouter.RefusedExactly` | crates/gateway-core/src/pricing/openrouter.rs:129-133 | the feed is refused exactly when no row is usable |
| `OpenRouter.IdsAndSlugsPriced` | crates/gateway-core/src/pricing/openrouter.rs:113-138 | the id of every usable row and the slug of every entry have a price; an id that is no slug costs what its own entry says |
| `OpenRouter.ShortNamesPriced` | crates/gateway-core/src/pricing/openrouter.rs:134-137 | a short name that all its slugs, or all its ids, share has the price of that id, slugs deciding first |
| `OpenRouter.SlugPrefersStandardRows` | crates/gateway-core/src/pricing/openrouter.rs:76-83 | a slug leads to a feed row without ':' in its id field whenever such a row with that slug was accepted |
| `Calculator.Round6Facts` | crates/gateway-core/src/pricing/calculator.rs:48-50 | rounding moves a cost by at most half a millionth, keeps it nonnegative and is idempotent |
| `Calculator.HalvesAway` | crates/gateway-core/src/pricing/calculator.rs:48-50 | halves are rounded away from zero |
| `Calculator.ThousandTokens` | crates/gateway-core/src/pricing/calculator.rs:33-46 | a thousand completion tokens cost the output rate, a thousand uncached prompt tokens the input rate |
| `Calculator.ThousandCached` | crates/gateway-core/src/pricing/calculator.rs:34-36 | a thousand cached prompt tokens cost the cached rate, or the input rate when there is none |
| `Calculator.CostIsSum` | crates/gateway-core/src/pricing/calculator.rs:39-41 | a usage costs the sum of its uncached prompt, cached prompt and completion, to within rounding |
| `Calculator.RatesAreSeparate` | crates/gateway-core/src/pricing/calculator.rs:39-41 | each rate matters only for its own tokens |
| `Calculator.CachingSaves` | crates/gateway-core/src/pricing/calculator.rs:35-40 | more cached tokens within a prompt change its cost by the difference of the two rates, to within rounding |
| `Calculator.NegativeCounts` | crates/gateway-core/src/pricing/calculator.rs:35-37 | a negative completion count adds nothing, more cached than prompt tokens leave no uncached ones, and a negative cached count is charged as more uncached prompt tokens |
| `Calculator.UnpricedHasNoCost` | crates/gateway-core/src/pricing/calculator.rs:23-31 | there is no cost exactly when there is no price |
| `RequestLog.MergedAttempts` | crates/gateway-api/src/logging.rs:135-145 | attempts merged into any metadata are the ones read back |
| `RequestLog.LogBuilder.MergeMetadata` | crates/gateway-api/src/logging.rs:135-145 | sets one key of an object and replaces anything else |
| `Attribution.StoredProviderIsCharged` | crates/gateway-storage/src/memory/mod.rs:319-333 | for every chain and run the provider read back from the record is the one the run is charged to |
| `Attribution.ForwardAndLog` | crates/gateway-api/src/routes/proxy.rs:307-511 | the provider priced made the last attempt and is the one the record leads back to; a 2xx passed on is its response; tokens and cost are recorded only for a complete body, the cost only for a success |
| `Attribution.PricedWhen` | crates/gateway-api/src/routes/proxy.rs:458-470 | a complete response is priced exactly for the statuses from 200 to 299, missing counts are zero, and without a model there is no price |
| `Attribution.AttemptAsLogged` | crates/gateway-core/src/proxy/fallback.rs:47-54 | the fields under which an attempt is logged |
| `Attribution.LogCacheHit` | crates/gateway-api/src/routes/proxy.rs:222-270 | a hit is free; its saving is priced under the serving provider or the primary; the record leads back to the serving provider or the namespace |
| `ProxyCache.EntryIsWritten` | crates/gateway-api/src/routes/proxy.rs:419-449 | after any writes and losses every entry is one that the write-back stored, with its provider |
| `ProxyCache.LookUp` | crates/gateway-api/src/routes/proxy.rs:179-220 | the key of a keyed request, and the stored entry exactly when the policy lets it answer and it is still there |
| `ProxyCache.HitAnswersTheSameRequest` | crates/gateway-api/src/routes/proxy.rs:179-220 | a hit replays a success that answered the same namespace, endpoint, scope and JSON body |
| `ProxyCache.ResponseCache.WriteBack` | crates/gateway-api/src/routes/proxy.rs:419-449 | stores the response under the key together with the provider that served it |
| `ProxyCache.Serve` | crates/gateway-api/src/routes/proxy.rs:164-511 | a hit exactly when the policy lets the stored entry answer and it is still there; `only-if-cached` never goes upstream; otherwise the chain runs and exactly a complete, fitting success of a keyed request is stored under the provider it is priced under; a body that is not JSON is neither looked up nor stored |
| `Recompute.DedupFacts` | crates/gateway-storage/src/memory/mod.rs:466-467 | deduplicating sorted keys leaves each key once, in order |
| `Recompute.MemoryLogStore.DistinctCostKeys` | crates/gateway-storage/src/memory/mod.rs:451-469 | the sorted enumeration, each once, of the keys of records in range with tokens, model and provider |
| `Recompute.MemoryLogStore.RecomputeCosts` | crates/gateway-storage/src/memory/mod.rs:471-507 | in place: exactly the records under the key are repriced, and counted |
| `Recompute.Sweep` | crates/gateway-api/src/routes/admin/pricing.rs:151-192 | every record becomes its swept form, each priced one counted once; priced keys counted and unpriced ones reported in order |
| `Recompute.SweepIsCalculator` | crates/gateway-core/src/pricing/calculator.rs:23-50 | the swept cost is the calculator's on the record's provider, 0 when cached |
| `Recompute.SweptExactly` | crates/gateway-storage/src/memory/mod.rs:487-493 | a priced record is repriced exactly when it has a token count and lies in the window, both ends included |
| `Recompute.NotSwept` | crates/gateway-api/src/routes/admin/pricing.rs:165-184 | a record without a model, a provider or a price for them is left alone |
| `Recompute.ProviderOrder` | crates/gateway-storage/src/memory/mod.rs:319-333 | the provider is the fallback used, or else the last attempt's, or else the namespace |
| `Recompute.LabelIs` | crates/gateway-api/src/routes/admin/pricing.rs:184-184 | models without a price are reported as provider/model |
| `Recompute.SweepTwice` | crates/gateway-api/src/routes/admin/pricing.rs:151-192 | two sweeps of the store with one catalog: the second leaves every record as the first left it and reports the same |
| `Recompute.SweepRowTwice` | crates/gateway-storage/src/memory/mod.rs:471-507 | a swept record is left as it is by another sweep |
| `Recompute.ForwardedKeepsItsCost` | crates/gateway-api/src/routes/proxy.rs:458-508 | a forwarded record is left as it is if and only if it is not a non-success with tokens for a priced model |
| `Recompute.RefusedRequestIsCharged` | crates/gateway-api/src/routes/proxy.rs:458-508 | such a record, as one refused attempt whose body reports a prompt token leaves it: free when it arrives, charged by the sweep at any price for its model |
| `Recompute.ReplayedKeepsItsSaving` | crates/gateway-api/src/routes/proxy.rs:239-268 | a hit on an entry that names its provider leads back to that provider and is left as it is by the sweep |
| `Recompute.HitKeepsItsSaving` | crates/gateway-api/src/routes/proxy.rs:419-449 | for every history of the cache, each hit leads back to the provider that served the stored response, its saving is priced under that provider, and the sweep leaves it as it is |
| `Cursor.CursorRoundTrip` | crates/gateway-storage/src/sqlite/logs.rs:521-529 | every 64-bit timestamp and every id, colons included, reads back from its cursor |
| `Cursor.Signs` | crates/gateway-storage/src/sqlite/logs.rs:525-529 | only negative timestamps are written with a sign, both signs are read, and what is out of range or has no digit is not a timestamp |
| `Pagination.PageFacts` | crates/gateway-storage/src/sqlite/logs.rs:62-138 | a page holds the first selected rows in strict order; a next cursor means a full page and marks exactly the rows after it; without one nothing is left |
| `Pagination.FilterParts` | crates/gateway-storage/src/sqlite/logs.rs:73-93 | each part of a filter keeps exactly the rows whose own column has the wanted value, never NULL, and both ends of the time range belong to it |
| `Pagination.FilterIsConjunction` | crates/gateway-storage/src/sqlite/logs.rs:73-93 | a filter keeps the rows that every part of it keeps |
| `Pagination.PageSizes` | crates/gateway-storage/src/sqlite/logs.rs:63-63 | fifty rows unless asked otherwise, never more than five hundred |
| `Pagination.NewestFirst` | crates/gateway-storage/src/sqlite/logs.rs:104-105 | rows come newest first, and those of one timestamp by id, the greatest first |
| `Pagination.NoRowTwice` | crates/gateway-storage/src/sqlite/logs.rs:62-138 | with arbitrary changes between pages the rows returned are strictly descending, all different, and each was in the table of its page and matches |
| `Pagination.NothingSkipped` | crates/gateway-storage/src/sqlite/logs.rs:95-104 | a matching row visible to all pages has been returned or lies past the next cursor |
| `Pagination.StableRowsExactlyOnce` | crates/gateway-storage/src/sqlite/logs.rs:62-138 | in a completed traversal every matching row present throughout is returned exactly once |
| `Pagination.ReadAll` | crates/gateway-storage/src/sqlite/logs.rs:62-138 | on an unchanged table following the cursors ends and yields exactly the filtered rows in order |
| `BatchWorker.LogWorker.TryAppend` | crates/gateway-storage/src/sqlite/logs.rs:48-60 | a full channel drops the record, a stopped worker refuses it, otherwise it is queued last |
| `BatchWorker.LogWorker.HandleNext` | crates/gateway-storage/src/sqlite/logs.rs:424-441 | one command is dealt with as the model's receive step |
| `BatchWorker.LogWorker.HandleTick` | crates/gateway-storage/src/sqlite/logs.rs:442-447 | a tick is the model's tick step |
| `BatchWorker.LogWorker.FlushBatch` | crates/gateway-storage/src/sqlite/logs.rs:457-519 | a nonempty buffer is handed over whole and emptied |
| `BatchWorker.LogWorker.DrainAndStop` | crates/gateway-storage/src/sqlite/logs.rs:415-455 | after the senders are gone everything buffered and queued is handed over in order |
| `BatchWorker.StepKeeps` | crates/gateway-storage/src/sqlite/logs.rs:415-455 | every step keeps order, sizes, the place of every queued flush and that no flush is lost |
| `BatchWorker.NothingLost` | crates/gateway-storage/src/sqlite/logs.rs:415-519 | at every point of every run batches, buffer and channel are the accepted records in order, and the buffer is below 200 |
| `BatchWorker.TickEmpties` | crates/gateway-storage/src/sqlite/logs.rs:442-447 | after a tick every record that has left the channel is in a batch |
| `BatchWorker.FullBatchGoes` | crates/gateway-storage/src/sqlite/logs.rs:427-433 | the 200th record hands the batch over without waiting for a tick |
| `BatchWorker.ShortBatchWaits` | crates/gateway-storage/src/sqlite/logs.rs:427-433 | a shorter one waits |
| `BatchWorker.DropsExactly` | crates/gateway-storage/src/sqlite/logs.rs:48-56 | a record is dropped exactly when 4096 commands are in the channel |
| `BatchWorker.FlushIsBarrier` | crates/gateway-storage/src/sqlite/logs.rs:404-441 | an acknowledged flush: every record accepted before it was enqueued has been handed to the insert |
| `BatchWorker.StopAcksAll` | crates/gateway-storage/src/sqlite/logs.rs:415-455 | once the worker has ended every enqueued flush has been acknowledged |
| `LogTable.ReachesExactly` | crates/gateway-storage/src/sqlite/logs.rs:457-519 | a record reaches the table exactly when its whole batch is stored, that is, when no id of the batch repeats in it or is in the table already |
| `LogTable.AllReachExactly` | crates/gateway-storage/src/sqlite/logs.rs:457-519 | everything handed over reaches the table in order if and only if no id repeats among it |
| `LogTable.AcceptedReachExactly` | crates/gateway-storage/src/sqlite/logs.rs:415-519 | when the worker has ended, the table is the accepted records in order if and only if their ids are all different |
| `LogTable.RepeatLosesBatch` | crates/gateway-storage/src/sqlite/logs.rs:512-518 | one id that is in the table already keeps the whole batch out |
| `Budget.BudgetManager.IncrBudget` | crates/gateway-storage/src/memory/mod.rs:633-645 | one entry grows by the amount, and its new value is returned |
| `Budget.BudgetManager.CheckBlock` | crates/gateway-api/src/budget.rs:75-95 | blocked if and only if some budget that applies has reached one of its blocking thresholds |
| `Budget.Matching` | crates/gateway-api/src/budget.rs:50-71 | exactly the configured budgets whose targets admit the caller |
| `Budget.AppliesTo` | crates/gateway-api/src/budget.rs:50-71 | a budget applies to the callers of its project and its key, each when it names one |
| `Budget.BucketIsPercentage` | crates/gateway-api/src/budget.rs:118-118 | a threshold's bucket is its whole percentage, between 0 and the largest 32-bit value |
| `Budget.NoAmount` | crates/gateway-api/src/budget.rs:83-87 | a budget without a positive amount counts as unused |
| `Budget.BudgetManager.RecordCost` | crates/gateway-api/src/budget.rs:99-126 | the loops leave the ledger of the recursive definition; a cost that is not positive changes nothing |
| `Budget.RecordAdds` | crates/gateway-api/src/budget.rs:99-110 | recording adds the cost once for each budget that applies, in its current period, and nothing elsewhere |
| `Budget.NotesExactly` | crates/gateway-api/src/budget.rs:116-124 | exactly the buckets of reached thresholds are noted, and exactly the new ones announced |
| `BudgetRuns.UsageNeverFalls` | crates/gateway-api/src/budget.rs:75-126 | in every interleaved run usage in a period never falls, so a block lasts for the period |
| `BudgetRuns.StepStaysWithin` | crates/gateway-api/src/budget.rs:75-126 | once blocking, usage plus the costs of requests past the check never grows |
| `BudgetRuns.OvershootBounded` | crates/gateway-api/src/budget.rs:75-126 | usage stays below at·amount plus the costs of the requests past the check when it was reached, that one included |
| `BudgetRuns.FiresAtMostOnce` | crates/gateway-api/src/budget.rs:116-124 | in every interleaved run each budget, period and bucket is announced at most once |
| `BudgetRuns.AnnouncedExactly` | crates/gateway-api/src/budget.rs:99-126 | with nobody notifying, a bucket has been announced if and only if usage has reached a threshold in it |
| `BudgetRuns.DistinctBucketsAnnounced` | crates/gateway-api/src/budget.rs:99-126 | with distinct buckets a threshold has been announced if and only if usage has reached it |
| `BudgetRuns.SharedBucket` | crates/gateway-api/src/budget.rs:118-118 | thresholds at 50% and 50.5%: one announcement for both |
| `BudgetRuns.RecordingAlone` | crates/gateway-api/src/budget.rs:99-126 | undisturbed, the steps of one request are the recording method's effect |
| `BudgetRuns.CheckingAlone` | crates/gateway-api/src/budget.rs:75-95 | undisturbed, the check steps of one request block it exactly when the method would |
| `SeedKeys.MemoryMetadataStore.UpsertSeededKey` | crates/gateway-storage/src/memory/mod.rs:144-177 | refused exactly for an administrator's id; otherwise that row alone is as given with birth and last use kept |
| `SeedKeys.MemoryMetadataStore.PruneSeededKeysNotIn` | crates/gateway-storage/src/memory/mod.rs:179-196 | exactly the project's config rows outside the list go, and are counted |
| `SeedKeys.Validate` | crates/gateway-api/src/seed_keys.rs:20-45 | succeeds exactly when every secret is usable, with the ids grouped by project |
| `SeedKeys.UpsertAll` | crates/gateway-api/src/seed_keys.rs:47-75 | the keys are upserted in order up to the first that an administrator owns |
| `SeedKeys.PruneAll` | crates/gateway-api/src/seed_keys.rs:85-101 | whatever the order of projects, exactly the undeclared config rows of mentioned projects and the default project go |
| `SeedKeys.Apply` | crates/gateway-api/src/seed_keys.rs:12-103 | succeeds if and only if every secret is usable and no declared id is an administrator's; an unusable secret changes nothing; administrators' rows are never changed |
| `SeedKeys.AppliedKeepsAdminRows` | crates/gateway-api/src/seed_keys.rs:12-103 | the applied state keeps every administrator's row |
| `SeedKeys.ConfigRowsAreDeclared` | crates/gateway-api/src/seed_keys.rs:77-103 | in every mentioned project and the default project the config rows are exactly the declared keys |
| `SeedKeys.StoredUnderItsSecret` | crates/gateway-api/src/seed_keys.rs:47-75 | a declared key is stored under the hash of its secret itself, with its prefix, last four characters, project, name and scopes |
| `SeedKeys.UsableExactly` | crates/gateway-core/src/config.rs:366-379 | a secret resolves to the variable that `env://` names or to itself, and is usable exactly when that begins with one of the two prefixes |
| `SeedKeys.OtherProjectsKept` | crates/gateway-api/src/seed_keys.rs:77-89 | undeclared rows of projects that are not mentioned stay |
| `SeedKeys.ApplyTwice` | crates/gateway-api/src/seed_keys.rs:12-103 | applying again at any time changes nothing |
| `SeedKeys.BirthAndLastUseKept` | crates/gateway-storage/src/memory/mod.rs:154-159 | created_at and last_used_at survive |
| `SeedKeys.PruneCommutes` | crates/gateway-api/src/seed_keys.rs:85-90 | pruning two projects gives the same rows in either order |
| `TieredKv.SqliteKvStore.Get` | crates/gateway-storage/src/sqlite/kv.rs:66-99 | a memory miss is served if and only if the table row exists and is unexpired; an expired row is dropped, a live one refilled |
| `TieredKv.SqliteKvStore.Put` | crates/gateway-storage/src/sqlite/kv.rs:101-128 | both tiers hold the value, the table with the 64-bit expiry |
| `TieredKv.SqliteKvStore.Delete` | crates/gateway-storage/src/sqlite/kv.rs:130-138 | the key is in neither tier |
| `TieredKv.SqliteKvStore.EvictExpired` | crates/gateway-storage/src/sqlite/kv.rs:41-61 | at most 5000 rows go, only expired ones, and all of them when there are fewer |
| `TieredKv.ReadIsLatest` | crates/gateway-storage/src/sqlite/kv.rs:22-139 | in every run a read returns nothing or the latest undeleted put, never ttl + 24 h or more after it, and always within the ttl |
| `TieredKv.ExpiryBound` | crates/gateway-storage/src/sqlite/kv.rs:102-103 | the stored expiry is put time plus lifetime unless the sum overflows, and then in the past |
| `TieredKv.OverflowedLife` | crates/gateway-storage/src/sqlite/kv.rs:102-103 | an entry whose expiry does not fit 64 bits is returned exactly while the memory tier holds it |
| `TieredKv.LifeGuaranteedExactly` | crates/gateway-storage/src/sqlite/kv.rs:101-128 | a put is readable for its whole life in every run if and only if its expiry fits 64 bits |
| `TieredKv.LostAtOnce` | crates/gateway-storage/src/sqlite/kv.rs:102-103 | a run that loses an entry inside its lifetime when it does not |
| `TieredKv.PastLife` | crates/gateway-storage/src/sqlite/kv.rs:66-99 | past its life an entry is returned exactly while the memory tier holds it |
| `TieredKv.ServedForADay` | crates/gateway-storage/src/sqlite/kv.rs:24-29 | an entry that is not evicted is served for a day after its put, whatever its lifetime |
| `TieredKv.StaleForADay` | crates/gateway-storage/src/sqlite/kv.rs:27-27 | the bound is sharp for every lifetime: a refill at its end is served a day later |
| `InterleavedKv.FreshExactly` | crates/gateway-storage/src/sqlite/kv.rs:66-138 | with reads, puts and deletes split into their steps, the memory tier only ever holds the put that began last if and only if, for every refill, the last write of its key to land before its fetch is the last one to begin before the refill |
| `InterleavedKv.HotForADay` | crates/gateway-storage/src/sqlite/kv.rs:24-29 | the memory tier serves an entry for the 24 hours after it was put there, as in the serial model |
| `InterleavedKv.StaleAfterRefill` | crates/gateway-storage/src/sqlite/kv.rs:71-91 | a put or delete that begins between fetch and refill brings the old value back for a day |
| `InterleavedKv.StaleBeforeRow` | crates/gateway-storage/src/sqlite/kv.rs:105-126 | a put that has done its memory half only brings the old value back for a day, with no write between fetch and refill |
| `InterleavedKv.TableIsLastLanded` | crates/gateway-storage/src/sqlite/kv.rs:106-136 | at every point of every run the table row of a key is the write that landed last, with its expiry |
| `InterleavedKv.RowsKeptExactly` | crates/gateway-storage/src/sqlite/kv.rs:77-84 | a put that landed last stays in the table for its life if and only if no read deletes the row of a live put that landed after the read met an expired one |
| `InterleavedKv.LostToExpiredRead` | crates/gateway-storage/src/sqlite/kv.rs:77-84 | a run in which a read that met an expired row takes a newer, live put out of the table |
| `Base64Len.DecodedBase64Len` | crates/gateway-api/src/routes/proxy.rs:791-808 | the loop's result depends only on the numbers of significant and padding bytes |
| `Base64Len.IgnoredBytes` | crates/gateway-api/src/routes/proxy.rs:795-797 | exactly space, tab, line feed, form feed and carriage return do not count |
| `Base64Len.PaddingOnly` | crates/gateway-api/src/routes/proxy.rs:803-807 | nothing but padding is no bytes, and padding never adds any |
| `Base64Len.Vectors` | crates/gateway-api/src/routes/proxy.rs:791-808 | the encodings against which the estimate is measured are those of the vectors in RFC 4648 |
| `Base64Len.EncodingMeasures` | crates/gateway-api/src/routes/proxy.rs:803-807 | for every byte string six bits per encoded byte less the padding is the original length, padded or not |
| `Base64Len.EstimateIsExact` | crates/gateway-api/src/routes/proxy.rs:791-808 | with whitespace anywhere the estimate is exact if and only if six times the encoding's length fits the machine word |
| `Base64Len.ShortTextIsExact` | crates/gateway-api/src/routes/proxy.rs:791-808 | exact for every text up to a sixth of the word range |

## Left out

- HTTP serving, upstream forwarding, header filtering, authentication, the admin UI and metrics: I/O and easy filters.
- Store errors: every call to a store succeeds, except the refusals modelled (a conflict, a full or closed channel).
- Redis key expiry and errors: the protocol theorems are about a key that does not expire while calls overlap.
- Postgres stores and SQL text: a page is modelled as filter, sort and take; the Postgres query ignores its cursor.
- The SQL form of the cost formula, which lacks two clamps at zero: the in-memory formula is the reference.
- BLAKE3, the keyed hash of secrets and response compression: only the bytes fed to a hash are modelled; a secret's hash is an arbitrary function.
- Parsing of YAML, JSON, numbers in feeds and environment files: the model starts from parsed values; a JSON number is its printed text.
- Calendar arithmetic: a period start is an arbitrary function of period kind and clock, monotone where a proof needs it.
- Floating-point rounding: money and rates are real numbers, and a feed price is never infinite or not a number.
- 64-bit overflow of window counters, token counts and the interval sums over them: these are unbounded integers here.
- The memory log store's capacity and its own query, and interleaving of appends with a recompute sweep.
- Inserts that fail for another reason than a repeated id, and rows purged later.
- Configuration reload in the middle of a run: limits, budgets and routes are fixed within one.
- Log fields that no property here reads (status texts, timings, bodies, client data).
- Cancellation of a request other than inside a Redis concurrency call, and of a token rollback.
- MemoryCounters.ConcurrencyPermit.Drop: the release closure is modelled by the store and key it captures.
- BatchWorker.LogWorker.HandleNext: which of receive and tick runs is left open, so the bias of the select loop is not used.
- BudgetRuns.RecordingAlone: for one clock reading; interleaved runs read the clock at every step.
- TieredKv.ReadIsLatest: both tiers read the same clock, and operations are serial; overlapping ones are in `InterleavedKv`.
- InterleavedKv.FreshExactly: both tiers read the same clock, and no operation fails or is cancelled between its steps.
- AbandonedTokens.LeaksExactly: for a request checked undisturbed on a store that need not be reachable; with other requests in between more configurations leak (`OvertakenLeaks`), all within the bound of `LeakNeedsFollower`; how many slots the others can take together is not modelled further. Window counters are unbounded, so a cap at the top of the 64-bit range can be exceeded here.
- ProxyCache.Serve: whether a body is deterministic and whether it fits are inputs; a blob not written by the gateway is not covered.
- RedisAdmission.RedisSlotSafety: fewer than 2^32 - 1 counts of a key are outstanding at any time, and caps are fixed.
