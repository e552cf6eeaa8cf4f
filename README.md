# A verified model of the proxy's cache and rate limiter

This project is a Dafny model of the request-handling core of a small Go HTTP
reverse proxy. The model covers four things:

- the in-memory response cache, an LRU list with a time-to-live per entry (`cache.go`);
- the token-bucket rate limiter, which keeps one bucket per client (`ratelimit.go`);
- the client-key derivation and the rate-limiting stage, with the headers, status
  and body it sends (`ratelimit.go`);
- the response-capturing writer and the caching stage, which serve a request
  from the cache or run the next handler and store its response (`middleware.go`).

Every engine is written in two layers:

- The specification is a snapshot datatype with pure transition functions:
  `CacheState` with `Lookup`, `Store` and `Cleared`;
  `BucketState` with `Refilled` and `Admit`;
  `LimiterState` with `LimiterAllow`, `Remaining`, `ResetTime`, `CleanupState` and `LimiterStats`;
  `CaptureState` with `CaptureWriteHeader` and `CaptureWrite`;
  and the stage functions `CachingStage` and `RateLimitStage`.
- The implementation is a class that updates its fields in place, as the Go
  objects do: `Cache`, `TokenBucket`, `RateLimiter` and `CachingResponseWriter`.
  Each method's `ensures` ties the new state, and every result, to the
  transition function applied to the old state.

The properties the Go code and its tests promise are lemmas over the
transition functions.

The model rests on these choices:

- Time is a parameter: an `Instant` is an integer count of nanoseconds
  (`clock.dfy`).
- Token balances are exact reals.
- Go's float-to-int conversion, which truncates toward zero, is `Trunc`.
- The `net/http` response writer that the stages write to is
  `Http.ResponseSink` (`http.dfy`).
  - It keeps a live header map, a committed flag, the status sent, a snapshot
    of the headers taken when the response is committed, and the body.
  - `net/http` itself is not part of this repository; `http.dfy` models only
    the behaviour the stages rely on.
- A downstream handler is a finite list of calls (`SetHeader`, `WriteHeader`,
  `Write`). A loop replays them on the capturing writer (`Replay`), or on the
  client's writer itself (`Serve`).
- Go's `strconv.Itoa` is `Strconv.Itoa` (`strconv.dfy`). Its partner `ParseInt`
  reads the number back.

## Model

| member | source | states |
|---|---|---|
| ResponseCache.NewCache | cache.go:34-41 | a new cache is empty and valid, with the given capacity and ttl converted to nanoseconds |
| ResponseCache.Lookup | cache.go:44-68 | the transition function of Get: an absent key misses; an expired entry misses and is removed; a live entry is returned and promoted |
| ResponseCache.Store | cache.go:71-99 | the transition function of Set: an existing entry is updated and promoted; a new one is pushed to the front and the tail evicted past capacity |
| ResponseCache.Expired | cache.go:52 | an entry is expired when now is after its expiry |
| ResponseCache.Promote | cache.go:63 | list.MoveToFront: the key first, then the others in their order |
| ResponseCache.EvictTail | cache.go:102-109 | evict: drop the back of the list and its map entry, if any |
| ResponseCache.RemoveKey | cache.go:112-116 | removeElement: drop the key from the list and the map |
| ResponseCache.Cleared | cache.go:119-125 | Clear: an empty map and list, capacity and ttl kept |
| ResponseCache.SizeIsEntryCount | cache.go:128-132 | the length of the recency list equals the number of map entries |
| ResponseCache.PromotePresent | cache.go:63 | moving a present key to the front keeps the same keys, each once |
| ResponseCache.PromoteFront | cache.go:63 | after MoveToFront the key is first and the order of the other keys is unchanged |
| ResponseCache.LookupKeepsValid | cache.go:44-68 | Get keeps the map and the list consistent and within the capacity |
| ResponseCache.StoreKeepsValid | cache.go:71-99 | Set keeps the map and the list consistent, so the size never exceeds the capacity |
| ResponseCache.StoreFullEvictsLru | cache.go:86-98 | Set of a new key on a full cache evicts exactly the least recently used key and puts the new one first |
| ResponseCache.StoreBelowCapacity | cache.go:86-98 | Set of a new key below capacity pushes it to the front and evicts nothing |
| ResponseCache.StoreExisting | cache.go:76-83 | Set of an existing key replaces response and expiry, moves the key to the front, and keeps size, capacity and the order of other keys |
| ResponseCache.LookupLive | cache.go:44-68 | Get of a live entry returns its response and only moves that key to the front |
| ResponseCache.LookupExpired | cache.go:52-60 | Get of an expired entry misses and removes exactly that entry, from the map and from the list, keeping capacity and ttl |
| ResponseCache.LookupAbsent | cache.go:44-50 | Get of an absent key misses and changes nothing |
| ResponseCache.StoreThenLookup | cache.go:71-99 | what Set stores, Get returns until the ttl has passed, when the capacity admits one entry |
| ResponseCache.ClearedIsEmpty | cache.go:119-125 | after Clear the cache is empty and valid, every Get misses, and capacity and ttl are kept |
| ResponseCache.EvictionScenario | cache_test.go:70-94 | capacity 2, Set k1, k2, k3: k1 is evicted and k2 and k3 are found |
| ResponseCache.PromotionScenario | cache_test.go:95-123 | capacity 3, Set k1, k2, k3, Get k1, Set k4: k2 is evicted and k1, k3 and k4 are found |
| ResponseCache.ThreeStored | cache_test.go:95-101 | three distinct keys stored in a cache of capacity 3 are all kept, newest first |
| ResponseCache.Cache.constructor | cache.go:34-41 | the new object's state is NewCache and it is valid |
| ResponseCache.Cache.Get | cache.go:44-68 | the result and the new state are those of Lookup, and the object stays valid |
| ResponseCache.Cache.Set | cache.go:71-99 | the new state is that of Store, and the object stays valid |
| ResponseCache.Cache.Put | cache.go:74-98 | the in-place update and promotion, or push and eviction, yield Store |
| ResponseCache.Cache.PushFront | cache.go:86-96 | the new entry is first in the list and in the map, and nothing else changes |
| ResponseCache.Cache.Evict | cache.go:102-109 | the new state is EvictTail: the back of the list is removed from list and map |
| ResponseCache.Cache.RemoveElement | cache.go:112-116 | the key is removed from both the map and the list |
| ResponseCache.Cache.Clear | cache.go:119-125 | the new state is Cleared and the object stays valid |
| ResponseCache.Cache.Size | cache.go:128-132 | the result is the list length, equal to the number of entries and within the capacity |
| ResponseCache.Cache.Stats | cache.go:135-139 | the results are the number of entries and the capacity |
| RateLimit.Min | ratelimit.go:220-225 | the result is one of the two arguments and not above either |
| RateLimit.Trunc | ratelimit.go:102 | a float-to-int conversion truncates toward zero |
| RateLimit.NewBucket | ratelimit.go:20-27 | the transition function of NewTokenBucket: full, with the given capacity and rate, refilled now |
| RateLimit.NewBucketFull | ratelimit.go:20-27 | a new bucket is full: an immediate refill changes nothing, it is in bounds for a non-negative capacity, and it admits exactly when the capacity is at least 1 |
| RateLimit.Refilled | ratelimit.go:45-52 | the transition function of refill: the elapsed seconds times the rate added, clamped to the capacity |
| RateLimit.Admit | ratelimit.go:30-42 | the transition function of TokenBucket.Allow: refill, then take a token if there is a whole one |
| RateLimit.RefilledTwice | ratelimit.go:45-52 | a second refill at the same instant changes nothing |
| RateLimit.NeverAboveCapacity | ratelimit.go:45-52 | refill and Allow never raise the balance above the capacity, and never change capacity or rate |
| RateLimit.RefillInBounds | ratelimit.go:45-52 | with a clock that does not run backwards and a non-negative rate, refill never loses tokens and keeps 0 <= tokens <= capacity |
| RateLimit.AdmitExactlyOne | ratelimit.go:30-42 | Allow admits exactly when the refilled balance holds a whole token, takes exactly one, and a denial takes nothing |
| RateLimit.RefillSameInstant | ratelimit.go:45-52 | refilling at the instant of the last refill changes nothing |
| RateLimit.BurstThenDeny | ratelimit.go:30-42 | with no time passing, a bucket holding n to n+1 tokens admits n requests and denies the next |
| RateLimit.NewBucketBurst | ratelimit_test.go:23-33 | a new bucket of capacity n admits n requests at once and denies the next |
| RateLimit.TokenBucket.constructor | ratelimit.go:20-27 | the new object's state is NewBucket |
| RateLimit.TokenBucket.Refill | ratelimit.go:45-52 | the new state is Refilled of the old one |
| RateLimit.TokenBucket.Allow | ratelimit.go:30-42 | the answer and the new state are those of Admit |
| RateLimit.TokenBucket.Tokens | ratelimit.go:55-61 | the bucket is refilled and the result is its new balance |
| RateLimit.LimiterAllow | ratelimit.go:81-94 | the transition function of RateLimiter.Allow: the key's bucket, or a new one of burst size and rpm/60, asked to admit |
| RateLimit.Remaining | ratelimit.go:97-106 | the transition function of GetRemainingTokens: the truncated refilled balance, or the burst size for an unseen key |
| RateLimit.ResetTime | ratelimit.go:109-124 | the transition function of GetResetTime: now when the key is absent or its bucket full, else now plus the truncated refill time in whole seconds |
| RateLimit.CleanupState | ratelimit.go:127-138 | the transition function of Cleanup: delete the buckets idle past the cutoff and full after a refill, refill those whose balance was read |
| RateLimit.Prunable | ratelimit.go:134 | the deletion test of Cleanup |
| RateLimit.Swept | ratelimit.go:134 | a kept bucket is refilled only when the short-circuit `&&` read its balance |
| RateLimit.LimiterStats | ratelimit.go:141-151 | the transition function of Stats: the count, the sum of the refilled balances, every bucket refilled |
| RateLimit.AllowKeepsValid | ratelimit.go:81-94 | Allow keeps every bucket at the configured capacity and rate, and within its capacity |
| RateLimit.AllowTouchesOnlyItsKey | ratelimit.go:81-94 | Allow adds only the key's bucket, made with the burst size and rpm/60 when new, and leaves other buckets unchanged |
| RateLimit.AllowIndependent | ratelimit.go:81-106 | one client's Allow changes neither the Allow answer nor the remaining count of any other client |
| RateLimit.FairnessScenario | ratelimit.go:81-94 | after client a exhausts a burst of n, a is denied and a new client b is admitted |
| RateLimit.AllowManyOneKey | ratelimit.go:81-94 | repeated Allow for one key adds no other key and keeps the configuration |
| RateLimit.AllowManyDrains | ratelimit_test.go:88-99 | n+1 Allow calls for a new key at one instant, with burst n, leave its bucket at zero tokens |
| RateLimit.AllowManyFromBucket | ratelimit.go:81-94 | k+1 Allow calls at one instant on a bucket holding k tokens leave it empty |
| RateLimit.RemainingNeverInserts | ratelimit.go:97-106 | GetRemainingTokens creates no bucket, and for an unseen key it reports what a new bucket would hold |
| RateLimit.ResetTimeMeaning | ratelimit.go:109-124 | for a positive rate the reset time is not before now and a whole number of seconds later; one second after it the bucket is full, and at it at most one second of tokens is missing |
| RateLimit.CleanupKeepsOwedBuckets | ratelimit.go:127-138 | Cleanup keeps every bucket not full after refill, and every bucket refilled at or after the cutoff |
| RateLimit.CleanupDeletesExactly | ratelimit.go:132-136 | Cleanup deletes a bucket exactly when its last refill is before the cutoff and it is full after a refill |
| RateLimit.CleanupUnobservable | ratelimit.go:127-138 | for a key that Cleanup deleted, Allow and GetRemainingTokens give the same answers and the same bucket as before |
| RateLimit.CleanupIdempotent | ratelimit.go:127-138 | with a non-negative age and no bucket from the future, a second Cleanup at the same instant changes nothing |
| RateLimit.SettledKept | ratelimit.go:30-151 | with a clock that does not run backwards and a non-negative configuration, Allow, GetRemainingTokens, GetResetTime, Cleanup and Stats keep every balance within [0, capacity] and no refill in the future |
| RateLimit.StatsBounds | ratelimit.go:141-151 | Stats reports every bucket, and the total balance is between 0 and count times the burst size |
| RateLimit.RefilledTotalBounds | ratelimit.go:146-148 | the sum of the refilled balances is between 0 and count copies of the burst size |
| RateLimit.RefillAllInBounds | ratelimit.go:146-148 | refilling every bucket keeps every balance between 0 and the burst size |
| RateLimit.RateLimiter.constructor | ratelimit.go:72-78 | a new limiter has no buckets and the given rpm and burst size |
| RateLimit.RateLimiter.Allow | ratelimit.go:81-94 | the answer and the new state are those of LimiterAllow; only the key's entry changes, and a created bucket is a new object |
| RateLimit.RateLimiter.GetRemainingTokens | ratelimit.go:97-106 | the result and the new state are those of Remaining, and no key is added |
| RateLimit.RateLimiter.GetResetTime | ratelimit.go:109-124 | the result and the new state are those of ResetTime, and no key is added; it requires a non-zero rate only where Go divides a positive deficit by the rate |
| RateLimit.RateLimiter.TokensOf | ratelimit.go:102 | only the key's bucket is refilled, and the result is its new balance |
| RateLimit.RateLimiter.Delete | ratelimit.go:135 | the key is removed from the limiter and no other bucket changes |
| RateLimit.RateLimiter.SweepKey | ratelimit.go:134-136 | one key is refilled when it is older than the cutoff, and deleted when it is then full |
| RateLimit.RateLimiter.Cleanup | ratelimit.go:127-138 | the new state is CleanupState of the old one, and kept keys keep their bucket objects |
| RateLimit.RateLimiter.Stats | ratelimit.go:141-151 | the count, the total and the new state are those of LimiterStats |
| RateLimit.RateLimiter.SumBalances | ratelimit.go:146-148 | every bucket is refilled, and the result is the sum of the new balances |
| RateLimit.IndexOf | ratelimit.go:159-163 | the result is the first index of the character, or none when it does not occur |
| RateLimit.LastIndexOf | ratelimit.go:170-174 | the result is the last index of the character, or none when it does not occur |
| RateLimit.ClientKey | ratelimit.go:154-180 | the key is the X-Forwarded-For value up to its first comma, else the peer address up to its last colon, else "unknown" |
| RateLimit.LimitStage | ratelimit.go:190-209 | the limiter calls of the stage: Allow, then GetResetTime on a denial, or GetRemainingTokens and GetResetTime on admission; Retry-After from the later clock read |
| RateLimit.LimitReply | ratelimit.go:185-215 | the writer calls of the stage: next alone without a limiter; five headers, 429 and the error body on a denial; three headers, then next, on admission |
| RateLimit.RateLimitStage | ratelimit.go:183-217 | the whole stage: the limiter decision followed by the reply |
| RateLimit.NonZeroRateDefined | ratelimit.go:119 | with a non-zero rpm the stage never divides by a zero rate |
| RateLimit.LimitStageDecision | ratelimit.go:190-213 | the stage rejects exactly when the client's bucket denies; the limit is rpm, Remaining is the balance after the token was taken, and, on a rejection and on an admission alike, the reset is a whole number of seconds after now |
| RateLimit.RetryAfterMeaning | ratelimit.go:194-200 | with the Retry-After clock read less than a second after now, Retry-After is the whole seconds to the reset, one less once any time has passed and the wait is at least a second |
| RateLimit.RetryAfterNonNegative | ratelimit.go:194-200 | on a rejection with a positive rate, Retry-After is non-negative and the reset is not before now |
| RateLimit.RejectedSends | ratelimit.go:196-204 | the rejection reply: 429, Content-Type application/json, the limit, Remaining "0", the reset, Retry-After and the error body, whatever next would do |
| RateLimit.AdmittedSends | ratelimit.go:211-215 | the admission reply: the three headers reach the client unless next sets them, with every byte and the status next sends |
| RateLimit.RejectedReply | ratelimit.go:192-204 | a rejection sends 429, Content-Type application/json, the limit, Remaining "0", the reset, Retry-After and the error body, and does not run next |
| RateLimit.AdmittedReply | ratelimit.go:207-215 | an admission sets the limit, remaining and reset headers before next runs; the client gets them unless next sets them, and every byte next writes |
| RateLimit.UnlimitedReply | ratelimit.go:185-188 | without a limiter next runs on the client's writer and no header is added |
| RateLimit.LimitDecision | ratelimit.go:190-209 | the limiter calls on the shared limiter yield LimitStage, and the limiter stays valid |
| RateLimit.Respond | ratelimit.go:196-215 | the writer calls on the client's writer yield LimitReply |
| RateLimit.RateLimitMiddleware | ratelimit.go:183-217 | the outcome, the limiter and the client's writer are those of RateLimitStage, and the limiter stays valid |
| Strconv.Itoa | ratelimit.go:197 | strconv.Itoa: a minus sign for a negative number, then the decimal digits |
| Strconv.ParseItoa | ratelimit.go:197-212 | every header number the stage writes reads back as the number it was made from |
| Http.HeaderAddThenGet | middleware.go:88 | Header.Add appends the value, and changes Get only for a name that had no value |
| Http.HeaderSetThenGet | middleware.go:91 | Header.Set makes Get return the value and changes no other name |
| Http.CommitIsFinal | middleware.go:117-119 | once the response is committed, the status and headers the client receives no longer change |
| Http.CommitsCons | middleware.go:32-46 | a call list commits exactly when its first call commits or the rest does |
| Http.Serve | ratelimit.go:215 | next.ServeHTTP on the client's writer: the handler's calls, in order |
| Http.ServeMeaning | ratelimit.go:215 | running next on a writer sends every byte it writes, commits exactly when it commits, and sends the status of its first committing call |
| Http.ServeKeepsHeader | ratelimit.go:211-215 | a header set before next runs reaches the client unchanged when next does not set it |
| Http.ServeSink | ratelimit.go:215 | the loop running the handler's calls on the writer yields Serve |
| Middleware.CacheKey | middleware.go:74-76 | generateCacheKey: the method, a bar, and the URL |
| Middleware.CacheKeyIdentifies | middleware.go:74-76 | when no method contains a bar, two requests have the same key exactly when method and URL are equal |
| Middleware.Contains | middleware.go:66 | strings.Contains holds exactly when the substring occurs at some index |
| Middleware.ShouldCache | middleware.go:53-71 | a response is cached exactly for GET with status below 400 and no "no-cache" or "private" in Cache-Control |
| Middleware.ShouldCacheCases | middleware_test.go:145-198 | GET 200 is cached; POST, 404, "no-cache" and "private, max-age=3600" are not |
| Middleware.NewCapture | middleware.go:22-30 | newCachingResponseWriter: status 200, empty body, not written |
| Middleware.CaptureWriteHeader | middleware.go:32-38 | the first WriteHeader latches the status and forwards it; later ones do nothing |
| Middleware.CaptureWrite | middleware.go:40-46 | Write commits with the captured status if needed, records the bytes and forwards them |
| Middleware.NewCaptureSynced | middleware.go:22-30 | a new capturing writer starts at 200, empty, unwritten, in step with its writer |
| Middleware.WriteHeaderLatches | middleware.go:32-38 | the first WriteHeader latches the status and commits; later ones change nothing |
| Middleware.WriteKeepsAndForwards | middleware.go:40-46 | Write commits with the captured status if needed, records the bytes and forwards them |
| Middleware.CachingResponseWriter.constructor | middleware.go:22-30 | the new writer's state is NewCapture of the wrapped writer |
| Middleware.CachingResponseWriter.WriteHeader | middleware.go:32-38 | the new state is CaptureWriteHeader of the old one |
| Middleware.CachingResponseWriter.Write | middleware.go:40-46 | the new state is CaptureWrite of the old one, and the result is the byte count |
| Middleware.CachingResponseWriter.SetHeader | middleware.go:48-50 | a header set through the capturing writer changes the wrapped writer's map |
| Middleware.StepMeaning | middleware.go:32-50 | one handler call keeps the capture in step and appends its output to both bodies |
| Middleware.Replay | middleware.go:99 | next.ServeHTTP on the capturing writer: the handler's calls, in order |
| Middleware.ReplayMeaning | middleware.go:98-99 | after the handler, both bodies gain every written byte, the status is the one latched first, and the commit and header results are known |
| Middleware.ServeNext | middleware.go:99 | running the handler's calls on the capturing writer yields Replay |
| Middleware.AddValuesAppends | middleware.go:87-89 | adding values one by one appends them to that name's values and changes no other name |
| Middleware.Merged | middleware.go:86-90 | every name's values are the existing values followed by the stored ones |
| Middleware.MergeStep | middleware.go:86-90 | adding one more name's values extends the merge by that name |
| Middleware.AddAll | middleware.go:87-89 | the writer's header gains the name's values in order, and nothing else changes |
| Middleware.AddHeaders | middleware.go:86-90 | the writer's header becomes Merged of the old header and the stored one, and nothing else changes |
| Middleware.CopyHeader | middleware.go:110-114 | the copy equals the header |
| Middleware.CachingStage | middleware.go:79-122 | the whole stage as written: a hit merges the stored headers, sets HIT and sends the stored response; a miss runs next, then stores with the clock read after next returned and sets MISS, or sets BYPASS |
| Middleware.CachingMiddleware | middleware.go:79-122 | the outcome, the new cache state and the client's writer are those of CachingStage, with the lookup at `now` and the store at `after`, and the cache stays valid |
| Middleware.HitServesStored | middleware.go:84-94 | a hit ignores the handler and sends the stored status and body, the stored headers added to the client's, and X-Cache HIT |
| Middleware.MissRunsHandler | middleware.go:97-120 | a miss forwards every written byte; it stores exactly the eligible responses, with latched status, final headers and whole body, created at the later clock read and found until that read plus the ttl, and sets MISS, or stores nothing and sets BYPASS |
| Middleware.MissThenHit | middleware_test.go:251-297 | after an eligible miss, a second request for the same key within the ttl of the store is a hit with the first response's status and body |
| Middleware.MissHeaderNotDelivered | middleware.go:117-119 | as written, a GET whose handler writes a body is a Miss, but the client receives no X-Cache header |
| Middleware.VerdictIgnoresXCache | middleware.go:65 | setting X-Cache does not change the caching decision |
| Middleware.FixedStepAnnounced | middleware.go:32-46 | with the correction, each call keeps the committed headers carrying the verdict and appends its output |
| Middleware.FixedReplayAnnounced | middleware.go:98-99 | with the correction, the whole handler run keeps that property and forwards every byte |
| Middleware.CachingStageFixed | middleware.go:97-120 | the corrected stage: X-Cache is set when the response commits, from the status and headers being committed; the store uses the clock read after next, as in CachingStage |
| Middleware.FixedDeliversXCache | middleware.go:97-120 | with the correction, the client receives X-Cache MISS exactly on a Miss and BYPASS exactly on a Bypass, and every written byte |

## Left out

- Mutexes and concurrency are not modelled: every operation is one atomic step, including the MoveToFront that cache.go's `Get` does under a read lock.
- The logging, error-recovery and timeout middlewares, `GetCacheMetrics`, configuration loading, the routes, the handlers, `main` and the server are not part of this model.
- Token balances are exact reals, so float64 rounding is not modelled.
- An `Instant` is an unbounded integer, so int64 overflow of times and durations is not modelled.
- The clock is a parameter. Reads that Go makes nanoseconds apart, with nothing slow between them, are one instant; this can hide a refill of a few nanoseconds, which can change a truncated balance or a comparison that falls exactly on an expiry:
  - in the rate-limiting stage the limiter's reads are one `now`: `NewTokenBucket`'s read and the refill in Allow (so a new bucket is refilled over zero time), the refill in GetRemainingTokens, and the refill and `time.Now()` in GetResetTime. The Retry-After read is its own instant `later` (`RetryAfterMeaning`);
  - in `Cleanup`, the cutoff and every bucket's `Tokens()` read are one `now`, and so are the per-bucket reads in `Stats`;
  - in the caching stage (`CachingStage`, `CachingMiddleware`, `CachingStageFixed`), `cache.Get`'s read is `now`, and the `CreatedAt` read and `cache.Set`'s expiry read, both after the next handler has returned, are one instant `after`.
- RFC 3339 time formatting is not defined: `Time.Format(time.RFC3339)` is the parameter `rfc3339` of the rate-limiting stage, so X-RateLimit-Reset is stated as that function of the reset instant.
- Header names are not canonicalised: `Header.Get`, `Set` and `Add` use the name as given.
- A nil cache is not modelled because `cachingMiddleware` calls `cache.Get` before its `cache != nil` test, so a nil cache fails at the lookup; `CachingMiddleware` takes a non-null `Cache`.
- The capturing writer's `headers` field is never read by the Go code; the model keeps it empty and unused.
- The error result of `Write` on the wrapped writer is not modelled: `Write` reports every byte as written.
- A downstream handler is a finite list of writer calls, and only `Header().Set`, `WriteHeader` and `Write` are covered. `Header().Add` and `Header().Del` by the handler (the proxy handler copies upstream headers with `Add`) are not modelled. Neither is a handler that reads the request or the writer's state.
- RateLimit.RateLimiter.GetResetTime: requires `ResetDefined`: a non-zero rate whenever the key has a bucket that is not full after the refill. Only there does Go divide the deficit by the rate: with a zero rate the quotient is +Inf, and converting it to a Duration gives a result the Go specification leaves to the implementation. An absent key and a full bucket are modelled for every rate. `ResetTime` shares this requirement; `LimitStage`, `RateLimitStage`, `LimitDecision` and `RateLimitMiddleware` require it at the state after Allow (`StageDefined`), and `NonZeroRateDefined` shows that a non-zero rpm suffices.
- RateLimit.StatsBounds: the bound is proved for a limiter that is `Settled`: every stored balance within [0, capacity] and no bucket refilled in the future. `SettledKept` shows that every limiter operation keeps this, from the empty limiter on, for a clock that does not run backwards and a non-negative rpm and burst size. A clock that runs backwards is not covered.

## Findings

| source | as written | input that shows it | evidently intended | confidence | as-written member | corrected member |
|---|---|---|---|---|---|---|
| middleware.go:117-119 | X-Cache MISS or BYPASS is set on the live header map after `next` has returned, when a handler that wrote anything has already committed the headers | an empty cache and a GET request whose handler writes "A": the outcome is Miss, but the delivered headers carry no X-Cache | the client receives X-Cache MISS when the response was cached and BYPASS when it was not | not executed | Middleware.MissHeaderNotDelivered | Middleware.FixedDeliversXCache |

The corrected stage is `Middleware.CachingStageFixed`. Its capturing writer sets
X-Cache just before the response commits, and bases the decision on the status
and headers being committed.
