/**
 * The token bucket, the per-client rate limiter, the client-key derivation
 * and the decision logic of the rate-limiting stage of ratelimit.go.
 *
 * Tokens are mathematical reals, not IEEE float64. Time is the parameter
 * `now` (nanoseconds on a monotonic clock). As for the cache, behaviour is
 * stated once as functions over snapshots (`BucketState`, `LimiterState`);
 * the classes `TokenBucket` and `RateLimiter` implement them in place.
 */
module RateLimit {
  import opened Wrappers
  import opened Clock
  import opened Http
  import opened Strconv

  /** Go `min` on float64. */
  function Min(a: real, b: real): (m: real)
    ensures m <= a && m <= b
    ensures m == a || m == b
  {
    if a < b then a else b
  }

  /** Go's conversion of a float to an integer type, which truncates toward zero. */
  function Trunc(x: real): (n: int)
    ensures x >= 0.0 ==> n >= 0 && n as real <= x < n as real + 1.0
    ensures x < 0.0 ==> n <= 0 && n as real - 1.0 < x <= n as real
  {
    if x >= 0.0 then x.Floor else -((-x).Floor)
  }

  lemma TruncOfInt(n: int)
    ensures Trunc(n as real) == n
  {
  }

  // ---------------------------------------------------------------------------
  // Token bucket

  datatype BucketState = BucketState(tokens: real, capacity: real, refillRate: real, lastRefill: Instant)

  /** Go `NewTokenBucket`: a bucket starts full. */
  function NewBucket(capacity: real, refillRate: real, now: Instant): BucketState
  {
    BucketState(capacity, capacity, refillRate, now)
  }

  /** Go `refill`: add the tokens earned since the last refill, clamped to the capacity. */
  function Refilled(b: BucketState, now: Instant): BucketState
  {
    var tokensToAdd := Seconds(now - b.lastRefill) * b.refillRate;
    b.(tokens := Min(b.capacity, b.tokens + tokensToAdd), lastRefill := now)
  }

  /** Go `TokenBucket.Allow`: refill, then take one token if there is a whole one. */
  function Admit(b: BucketState, now: Instant): (bool, BucketState)
  {
    var r := Refilled(b, now);
    if r.tokens >= 1.0 then (true, r.(tokens := r.tokens - 1.0)) else (false, r)
  }

  predicate InBounds(b: BucketState)
  {
    0.0 <= b.tokens <= b.capacity
  }

  /** The balance never exceeds the capacity, whatever the clock does. */
  lemma NeverAboveCapacity(b: BucketState, now: Instant)
    requires b.tokens <= b.capacity
    ensures Refilled(b, now).tokens <= b.capacity
    ensures Admit(b, now).1.tokens <= b.capacity
    ensures Admit(b, now).1.capacity == b.capacity && Admit(b, now).1.refillRate == b.refillRate
  {
  }

  /**
   * With a clock that does not run backwards and a rate that is not negative,
   * refilling never loses tokens and keeps 0 <= tokens <= capacity; so does Allow.
   */
  lemma RefillInBounds(b: BucketState, now: Instant)
    requires InBounds(b) && b.refillRate >= 0.0 && b.lastRefill <= now
    ensures InBounds(Refilled(b, now)) && InBounds(Admit(b, now).1)
    ensures Refilled(b, now).tokens >= b.tokens
  {
    var add := Seconds(now - b.lastRefill) * b.refillRate;
    assert Seconds(now - b.lastRefill) >= 0.0;
    assert add >= 0.0;
  }

  /** Allow admits exactly when the refilled balance holds a whole token, and a denial consumes nothing. */
  lemma AdmitExactlyOne(b: BucketState, now: Instant)
    ensures Admit(b, now).0 <==> Refilled(b, now).tokens >= 1.0
    ensures Admit(b, now).0 ==> Admit(b, now).1.tokens == Refilled(b, now).tokens - 1.0
    ensures !Admit(b, now).0 ==> Admit(b, now).1 == Refilled(b, now)
  {
  }

  /**
   * A new bucket is full: refilling it at once changes nothing, its balance is in
   * bounds for a non-negative capacity, and it admits a request exactly when the
   * capacity is at least one token.
   */
  lemma NewBucketFull(capacity: real, refillRate: real, now: Instant)
    ensures Refilled(NewBucket(capacity, refillRate, now), now) == NewBucket(capacity, refillRate, now)
    ensures capacity >= 0.0 ==> InBounds(NewBucket(capacity, refillRate, now))
    ensures Admit(NewBucket(capacity, refillRate, now), now).0 <==> capacity >= 1.0
  {
    assert Seconds(0) == 0.0;
  }

  /** A second refill at the same instant changes nothing. */
  lemma RefilledTwice(b: BucketState, now: Instant)
    ensures Refilled(Refilled(b, now), now) == Refilled(b, now)
  {
    assert Seconds(0) == 0.0;
  }

  /** Refilling at the instant of the last refill changes nothing. */
  lemma RefillSameInstant(b: BucketState)
    requires b.tokens <= b.capacity
    ensures Refilled(b, b.lastRefill) == b
  {
    assert Seconds(0) == 0.0;
  }

  /** `count` consecutive Allow calls at the same instant: the answers and the bucket after them. */
  function AdmitRun(b: BucketState, now: Instant, count: nat): (seq<bool>, BucketState)
    decreases count
  {
    if count == 0 then ([], b)
    else
      var (ok, b1) := Admit(b, now);
      var (rest, b2) := AdmitRun(b1, now, count - 1);
      ([ok] + rest, b2)
  }

  /**
   * With no time passing, a bucket holding between n and n + 1 tokens admits
   * exactly n consecutive requests and denies the next one.
   */
  lemma {:induction false} BurstThenDeny(b: BucketState, now: Instant, n: nat)
    requires b.lastRefill == now
    requires n as real <= b.tokens < n as real + 1.0 && b.tokens <= b.capacity
    ensures AdmitRun(b, now, n + 1).0 == seq(n, _ => true) + [false]
    decreases n
  {
    RefillSameInstant(b);
    if n > 0 {
      var b1 := Admit(b, now).1;
      assert b1 == b.(tokens := b.tokens - 1.0);
      BurstThenDeny(b1, now, n - 1);
      assert seq(n, _ => true) + [false] == [true] + (seq(n - 1, _ => true) + [false]);
    }
  }

  /** The token-bucket test: a new bucket of whole capacity n admits n requests at once, then denies. */
  lemma NewBucketBurst(n: nat, refillRate: real, now: Instant)
    ensures AdmitRun(NewBucket(n as real, refillRate, now), now, n + 1).0 == seq(n, _ => true) + [false]
  {
    BurstThenDeny(NewBucket(n as real, refillRate, now), now, n);
  }

  /** Go `TokenBucket`; the capacity and the rate never change after construction. */
  class TokenBucket {
    var tokens: real
    const capacity: real
    const refillRate: real
    var lastRefill: Instant

    function State(): BucketState
      reads this
    {
      BucketState(tokens, capacity, refillRate, lastRefill)
    }

    /** Go `NewTokenBucket`. */
    constructor (capacity: real, refillRate: real, now: Instant)
      ensures State() == NewBucket(capacity, refillRate, now)
    {
      tokens := capacity;
      this.capacity := capacity;
      this.refillRate := refillRate;
      lastRefill := now;
    }

    /** Go `refill`. */
    method Refill(now: Instant)
      modifies this
      ensures State() == Refilled(old(State()), now)
    {
      var elapsed := Seconds(now - lastRefill);
      var tokensToAdd := elapsed * refillRate;
      tokens := Min(capacity, tokens + tokensToAdd);
      lastRefill := now;
    }

    /** Go `TokenBucket.Allow`. */
    method Allow(now: Instant) returns (ok: bool)
      modifies this
      ensures (ok, State()) == Admit(old(State()), now)
    {
      Refill(now);
      if tokens >= 1.0 {
        tokens := tokens - 1.0;
        return true;
      }
      return false;
    }

    /** Go `Tokens`: refill, then report the balance. */
    method Tokens(now: Instant) returns (t: real)
      modifies this
      ensures State() == Refilled(old(State()), now)
      ensures t == tokens
    {
      Refill(now);
      t := tokens;
    }
  }

  // ---------------------------------------------------------------------------
  // Rate limiter

  datatype LimiterState = LimiterState(buckets: map<string, BucketState>, rpm: int, burstSize: int)

  /** The refill rate of every bucket: requests per minute as tokens per second. */
  function RefillRate(rpm: int): real
  {
    rpm as real / 60.0
  }

  /** Every bucket was made from the limiter's configuration and is within its capacity. */
  predicate ValidLimiter(st: LimiterState)
  {
    forall k :: k in st.buckets ==>
      && st.buckets[k].capacity == st.burstSize as real
      && st.buckets[k].refillRate == RefillRate(st.rpm)
      && st.buckets[k].tokens <= st.buckets[k].capacity
  }

  /** The bucket `key` has, or the one Allow would create for it. */
  function BucketFor(st: LimiterState, key: string, now: Instant): BucketState
  {
    if key in st.buckets then st.buckets[key]
    else NewBucket(st.burstSize as real, RefillRate(st.rpm), now)
  }

  /** Go `RateLimiter.Allow`: find or create the key's bucket, then ask it. */
  function LimiterAllow(st: LimiterState, key: string, now: Instant): (bool, LimiterState)
  {
    var (ok, b) := Admit(BucketFor(st, key, now), now);
    (ok, st.(buckets := st.buckets[key := b]))
  }

  /** Go `GetRemainingTokens`: the truncated balance after a refill, or the burst size for an unseen key. */
  function Remaining(st: LimiterState, key: string, now: Instant): (int, LimiterState)
  {
    if key in st.buckets then
      var b := Refilled(st.buckets[key], now);
      (Trunc(b.tokens), st.(buckets := st.buckets[key := b]))
    else (st.burstSize, st)
  }

  /**
   * GetResetTime divides the deficit by the refill rate only when the key has a
   * bucket that is not full after the refill; that division must not be by zero.
   */
  predicate ResetDefined(st: LimiterState, key: string, now: Instant)
  {
    (key in st.buckets && Refilled(st.buckets[key], now).tokens < st.buckets[key].capacity) ==>
      st.buckets[key].refillRate != 0.0
  }

  /** Go `GetResetTime`: now plus the time to refill the deficit, in whole seconds. */
  function ResetTime(st: LimiterState, key: string, now: Instant): (Instant, LimiterState)
    requires ResetDefined(st, key, now)
  {
    if key in st.buckets then
      var b := Refilled(st.buckets[key], now);
      var remainingTokens := b.capacity - b.tokens;
      var st' := st.(buckets := st.buckets[key := b]);
      if remainingTokens <= 0.0 then (now, st')
      else (now + Trunc(remainingTokens / b.refillRate) * Second, st')
    else (now, st)
  }

  /** The two conditions under which Cleanup deletes a bucket. */
  predicate Prunable(b: BucketState, cutoff: Instant, now: Instant)
  {
    b.lastRefill < cutoff && Refilled(b, now).tokens >= b.capacity
  }

  /**
   * Go `Cleanup(maxAge)`. The balance is read (and so the bucket refilled) only
   * for buckets whose last refill is before the cutoff: Go's `&&` short-circuits.
   */
  function CleanupState(st: LimiterState, maxAge: Duration, now: Instant): LimiterState
  {
    var cutoff := now - maxAge;
    st.(buckets := map k | k in st.buckets && !Prunable(st.buckets[k], cutoff, now) :: Swept(st.buckets[k], cutoff, now))
  }

  /** A bucket Cleanup keeps: refilled if its balance was read, untouched otherwise. */
  function Swept(b: BucketState, cutoff: Instant, now: Instant): BucketState
  {
    if b.lastRefill < cutoff then Refilled(b, now) else b
  }

  ghost function PickKey(m: map<string, BucketState>): string
    requires m != map[]
  {
    var k :| k in m; k
  }

  /** The sum of the balances of all buckets. */
  ghost function SumTokens(m: map<string, BucketState>): real
    decreases |m|
  {
    if m == map[] then 0.0
    else
      var k := PickKey(m);
      m[k].tokens + SumTokens(m - {k})
  }

  /** The sum can be taken apart at any key. */
  lemma {:induction false} SumTokensAt(m: map<string, BucketState>, k: string)
    requires k in m
    ensures SumTokens(m) == m[k].tokens + SumTokens(m - {k})
    decreases |m|
  {
    var j := PickKey(m);
    if j != k {
      assert |m - {j}| < |m|;
      SumTokensAt(m - {j}, k);
      assert |m - {k}| < |m|;
      SumTokensAt(m - {k}, j);
      assert m - {j} - {k} == m - {k} - {j};
    }
  }

  /** Every balance in `m` is within [0, c]. */
  predicate AllWithin(m: map<string, BucketState>, c: real)
  {
    forall k :: k in m ==> 0.0 <= m[k].tokens <= c
  }

  /** n copies of c added up; the same as n * c, but without a product for the solver. */
  function Times(n: nat, c: real): real
  {
    if n == 0 then 0.0 else c + Times(n - 1, c)
  }

  lemma {:induction false} SumTokensBelow(m: map<string, BucketState>, c: real)
    requires AllWithin(m, c)
    ensures 0.0 <= SumTokens(m) <= Times(|m|, c)
    decreases |m|
  {
    if m != map[] {
      var k := PickKey(m);
      var rest := m - {k};
      assert |m| == |rest| + 1;
      SumTokensBelow(rest, c);
    }
  }

  /** Every bucket refilled to `now`. */
  function RefillAll(m: map<string, BucketState>, now: Instant): map<string, BucketState>
  {
    map k | k in m :: Refilled(m[k], now)
  }

  /** Go `RateLimiter.Stats`: the number of buckets and their total balance (reading it refills each bucket). */
  ghost function LimiterStats(st: LimiterState, now: Instant): (int, real, LimiterState)
  {
    var refilled := RefillAll(st.buckets, now);
    (|st.buckets|, SumTokens(refilled), st.(buckets := refilled))
  }

  // Properties of the limiter

  lemma AllowKeepsValid(st: LimiterState, key: string, now: Instant)
    requires ValidLimiter(st)
    ensures ValidLimiter(LimiterAllow(st, key, now).1)
  {
    NeverAboveCapacity(BucketFor(st, key, now), now);
  }

  /**
   * Allow for one key creates a bucket of the configured size and rate if there
   * was none, touches only that key's bucket, and answers from that bucket alone.
   */
  lemma AllowTouchesOnlyItsKey(st: LimiterState, key: string, now: Instant)
    ensures var r := LimiterAllow(st, key, now).1;
      && r.buckets.Keys == st.buckets.Keys + {key}
      && (forall k :: k in st.buckets && k != key ==> r.buckets[k] == st.buckets[k])
      && r.buckets[key].capacity == BucketFor(st, key, now).capacity
      && (key !in st.buckets ==> r.buckets[key].capacity == st.burstSize as real
                                 && r.buckets[key].refillRate == RefillRate(st.rpm))
  {
  }

  /** Fairness: what one client does changes no other client's answer. */
  lemma AllowIndependent(st: LimiterState, a: string, b: string, now: Instant)
    requires a != b
    ensures LimiterAllow(LimiterAllow(st, a, now).1, b, now).0 == LimiterAllow(st, b, now).0
    ensures Remaining(LimiterAllow(st, a, now).1, b, now).0 == Remaining(st, b, now).0
  {
    var s1 := LimiterAllow(st, a, now).1;
    assert BucketFor(s1, b, now) == BucketFor(st, b, now);
  }

  /** Example of fairness: client `a` exhausts a burst of n; client `b` still gets its first request. */
  lemma FairnessScenario(rpm: int, n: nat, a: string, b: string, now: Instant)
    requires a != b && n >= 1
    ensures var s := AllowMany(LimiterState(map[], rpm, n), a, now, n + 1);
      && LimiterAllow(s, a, now).0 == false
      && LimiterAllow(s, b, now).0 == true
  {
    var s0 := LimiterState(map[], rpm, n);
    AllowManyOneKey(s0, a, now, n + 1);
    var s := AllowMany(s0, a, now, n + 1);
    assert b !in s.buckets;
    AllowManyDrains(s0, a, now, n);
    // `a` is empty and was refilled at this instant; `b` gets a new, full bucket
    RefillSameInstant(s.buckets[a]);
    var newBucket := NewBucket(n as real, RefillRate(rpm), now);
    assert BucketFor(s, b, now) == newBucket;
    RefillSameInstant(newBucket);
  }

  /** `count` consecutive Allow calls for one key at one instant. */
  function AllowMany(st: LimiterState, key: string, now: Instant, count: nat): LimiterState
    decreases count
  {
    if count == 0 then st else AllowMany(LimiterAllow(st, key, now).1, key, now, count - 1)
  }

  lemma {:induction false} AllowManyOneKey(st: LimiterState, key: string, now: Instant, count: nat)
    ensures AllowMany(st, key, now, count).buckets.Keys <= st.buckets.Keys + {key}
    ensures AllowMany(st, key, now, count).rpm == st.rpm
    ensures AllowMany(st, key, now, count).burstSize == st.burstSize
    decreases count
  {
    if count > 0 {
      AllowManyOneKey(LimiterAllow(st, key, now).1, key, now, count - 1);
    }
  }

  /**
   * From a limiter with no bucket for `key` and a whole burst size n, n + 1 Allow
   * calls at one instant leave the key's bucket empty: the next Allow is denied.
   */
  lemma AllowManyDrains(st: LimiterState, key: string, now: Instant, n: nat)
    requires key !in st.buckets && st.burstSize == n
    ensures var s := AllowMany(st, key, now, n + 1);
      key in s.buckets && s.buckets[key] == BucketState(0.0, n as real, RefillRate(st.rpm), now)
  {
    var b := NewBucket(n as real, RefillRate(st.rpm), now);
    var s1 := LimiterAllow(st, key, now).1;
    RefillSameInstant(b);
    if n == 0 {
      assert s1.buckets[key] == b;
    } else {
      assert s1.buckets[key] == b.(tokens := n as real - 1.0);
      AllowManyFromBucket(s1, key, now, n, n - 1);
    }
  }

  lemma {:induction false} AllowManyFromBucket(st: LimiterState, key: string, now: Instant, count: nat, k: nat)
    requires key in st.buckets && st.buckets[key].lastRefill == now
    requires st.buckets[key].tokens == k as real && k as real <= st.buckets[key].capacity
    requires count == k + 1
    ensures var s := AllowMany(st, key, now, count);
      key in s.buckets && s.buckets[key] == st.buckets[key].(tokens := 0.0)
    decreases count
  {
    var b := st.buckets[key];
    RefillSameInstant(b);
    var s1 := LimiterAllow(st, key, now).1;
    if k == 0 {
      assert s1.buckets[key] == b;
      assert AllowMany(s1, key, now, 0) == s1;
    } else {
      assert s1.buckets[key] == b.(tokens := k as real - 1.0);
      AllowManyFromBucket(s1, key, now, count - 1, k - 1);
    }
  }

  /** GetRemainingTokens never creates a bucket; for an unseen key it reports what a new bucket would hold. */
  lemma RemainingNeverInserts(st: LimiterState, key: string, now: Instant)
    ensures Remaining(st, key, now).1.buckets.Keys == st.buckets.Keys
    ensures key !in st.buckets ==>
      Remaining(st, key, now).0 == Trunc(Refilled(BucketFor(st, key, now), now).tokens)
  {
    if key !in st.buckets {
      RefillSameInstant(BucketFor(st, key, now));
      TruncOfInt(st.burstSize);
    }
  }

  /**
   * The reset time is the refill time of the deficit cut to whole seconds: with a
   * positive rate it is not before now, one second later the bucket is full, and at
   * the reset time itself at most one second's worth of tokens is still missing.
   */
  lemma ResetTimeMeaning(st: LimiterState, key: string, now: Instant)
    requires key in st.buckets && st.buckets[key].refillRate > 0.0
    ensures var (t, st') := ResetTime(st, key, now);
      var b := st'.buckets[key];
      && now <= t
      && (t - now) % Second == 0
      && Refilled(b, t + Second).tokens == b.capacity
      && Refilled(b, t).tokens >= b.capacity - b.refillRate
  {
    var (t, st') := ResetTime(st, key, now);
    var b := st'.buckets[key];
    var d := b.capacity - b.tokens;
    if d > 0.0 {
      var q := d / b.refillRate;
      var n := Trunc(q);
      assert t == now + n * Second;
      assert Seconds(t + Second - b.lastRefill) == (n + 1) as real;
      assert Seconds(t - b.lastRefill) == n as real;
      assert q * b.refillRate == d;
      assert (n + 1) as real * b.refillRate >= d by {
        assert (n + 1) as real > q;
      }
      assert n as real * b.refillRate >= d - b.refillRate by {
        assert n as real > q - 1.0;
        assert (n as real - (q - 1.0)) * b.refillRate >= 0.0;
      }
    } else {
      assert t == now;
      assert Seconds(Second) == 1.0;
    }
  }

  /** Cleanup keeps every bucket that is not full after a refill, and every bucket refilled at or after the cutoff. */
  lemma CleanupKeepsOwedBuckets(st: LimiterState, maxAge: Duration, now: Instant, key: string)
    requires key in st.buckets
    requires Refilled(st.buckets[key], now).tokens < st.buckets[key].capacity
          || st.buckets[key].lastRefill >= now - maxAge
    ensures key in CleanupState(st, maxAge, now).buckets
  {
  }

  /** Cleanup deletes a bucket exactly when its last refill is before the cutoff and it is full after a refill. */
  lemma CleanupDeletesExactly(st: LimiterState, maxAge: Duration, now: Instant, key: string)
    requires key in st.buckets
    ensures key !in CleanupState(st, maxAge, now).buckets <==>
      st.buckets[key].lastRefill < now - maxAge && Refilled(st.buckets[key], now).tokens >= st.buckets[key].capacity
  {
  }

  /**
   * Pruning is unobservable: for a deleted key, Allow and GetRemainingTokens answer
   * after Cleanup exactly as before, since the bucket Allow then creates starts full.
   */
  lemma CleanupUnobservable(st: LimiterState, maxAge: Duration, now: Instant, key: string)
    requires ValidLimiter(st) && key in st.buckets
    requires key !in CleanupState(st, maxAge, now).buckets
    ensures LimiterAllow(CleanupState(st, maxAge, now), key, now).0 == LimiterAllow(st, key, now).0
    ensures LimiterAllow(CleanupState(st, maxAge, now), key, now).1.buckets[key] == LimiterAllow(st, key, now).1.buckets[key]
    ensures Remaining(CleanupState(st, maxAge, now), key, now).0 == Remaining(st, key, now).0
  {
    var b := st.buckets[key];
    var newBucket := NewBucket(st.burstSize as real, RefillRate(st.rpm), now);
    assert Refilled(b, now).tokens == b.capacity;
    assert Refilled(b, now) == newBucket;
    RefillSameInstant(newBucket);
    TruncOfInt(st.burstSize);
  }

  /** With a non-negative age and a monotonic clock, a second Cleanup at the same instant changes nothing. */
  lemma CleanupIdempotent(st: LimiterState, maxAge: Duration, now: Instant)
    requires maxAge >= 0
    requires forall k :: k in st.buckets ==> st.buckets[k].lastRefill <= now && st.buckets[k].tokens <= st.buckets[k].capacity
    ensures CleanupState(CleanupState(st, maxAge, now), maxAge, now) == CleanupState(st, maxAge, now)
  {
    var once := CleanupState(st, maxAge, now);
    var twice := CleanupState(once, maxAge, now);
    forall k | k in once.buckets
      ensures k in twice.buckets && twice.buckets[k] == once.buckets[k]
    {
      assert once.buckets[k].lastRefill >= now - maxAge;
    }
    assert twice.buckets == once.buckets;
  }

  /** Every balance is within [0, capacity], and no bucket was refilled after `now`. */
  predicate Settled(st: LimiterState, now: Instant)
  {
    forall k :: k in st.buckets ==> InBounds(st.buckets[k]) && st.buckets[k].lastRefill <= now
  }

  /**
   * With a clock that does not run backwards and a non-negative configuration, every
   * limiter operation keeps the balances within bounds and no refill in the future.
   * A new limiter has no buckets, so it starts settled.
   */
  lemma SettledKept(st: LimiterState, key: string, maxAge: Duration, before: Instant, now: Instant)
    requires ValidLimiter(st) && st.rpm >= 0 && st.burstSize >= 0
    requires Settled(st, before) && before <= now
    ensures Settled(st, now)
    ensures Settled(LimiterAllow(st, key, now).1, now)
    ensures Settled(Remaining(st, key, now).1, now)
    ensures ResetDefined(st, key, now) ==> Settled(ResetTime(st, key, now).1, now)
    ensures Settled(CleanupState(st, maxAge, now), now)
    ensures Settled(LimiterStats(st, now).2, now)
  {
    forall k | k in st.buckets
      ensures InBounds(Refilled(st.buckets[k], now)) && InBounds(Admit(st.buckets[k], now).1)
    {
      RefillInBounds(st.buckets[k], now);
    }
    RefillInBounds(BucketFor(st, key, now), now);
  }

  /**
   * Stats reports every bucket, and the reported balance is at least zero and at
   * most a full burst per bucket.
   */
  lemma StatsBounds(st: LimiterState, now: Instant)
    requires ValidLimiter(st) && st.rpm >= 0
    requires Settled(st, now)
    ensures LimiterStats(st, now).0 == |st.buckets|
    ensures 0.0 <= LimiterStats(st, now).1 <= (|st.buckets| * st.burstSize) as real
  {
    RefilledTotalBounds(st, now);
    TimesIsProduct(|st.buckets|, st.burstSize);
    assert LimiterStats(st, now) == (|st.buckets|, SumTokens(RefillAll(st.buckets, now)), st.(buckets := RefillAll(st.buckets, now)));
  }

  /** n copies of c added up is n * c. */
  lemma {:induction false} TimesIsProduct(n: nat, c: int)
    ensures Times(n, c as real) == (n * c) as real
  {
    if n > 0 {
      TimesIsProduct(n - 1, c);
      assert n * c == (n - 1) * c + c;
    }
  }

  lemma RefilledTotalBounds(st: LimiterState, now: Instant)
    requires ValidLimiter(st) && st.rpm >= 0
    requires Settled(st, now)
    ensures 0.0 <= SumTokens(RefillAll(st.buckets, now)) <= Times(|st.buckets|, st.burstSize as real)
  {
    RefillAllInBounds(st, now);
    RefillAllSize(st.buckets, now);
    SumTokensBelow(RefillAll(st.buckets, now), st.burstSize as real);
  }

  lemma RefillAllSize(m: map<string, BucketState>, now: Instant)
    ensures |RefillAll(m, now)| == |m|
  {
    assert RefillAll(m, now).Keys == m.Keys;
  }

  lemma RefillAllInBounds(st: LimiterState, now: Instant)
    requires ValidLimiter(st) && st.rpm >= 0
    requires Settled(st, now)
    ensures AllWithin(RefillAll(st.buckets, now), st.burstSize as real)
  {
    forall k | k in st.buckets {
      RefillInBounds(st.buckets[k], now);
    }
  }

  /** No two keys share a bucket object. */
  predicate Unaliased(m: map<string, TokenBucket>)
  {
    forall a, b :: a in m && b in m && a != b ==> m[a] != m[b]
  }

  /** Go `RateLimiter`: a map from client key to its own bucket object. */
  class RateLimiter {
    var buckets: map<string, TokenBucket>
    const rpm: int
    const burstSize: int

    ghost function Abstract(): LimiterState
      reads this, buckets.Values
    {
      LimiterState(map k | k in buckets :: buckets[k].State(), rpm, burstSize)
    }

    /** No two keys share a bucket object, and every bucket obeys the limiter's configuration. */
    ghost predicate Valid()
      reads this, buckets.Values
    {
      && Unaliased(buckets)
      && ValidLimiter(Abstract())
    }

    /** Go `NewRateLimiter`. */
    constructor (rpm: int, burstSize: int)
      ensures Valid() && Abstract() == LimiterState(map[], rpm, burstSize)
    {
      buckets := map[];
      this.rpm := rpm;
      this.burstSize := burstSize;
    }

    method Allow(key: string, now: Instant) returns (ok: bool)
      requires Valid()
      modifies this, buckets.Values
      ensures Valid()
      ensures (ok, Abstract()) == LimiterAllow(old(Abstract()), key, now)
      ensures key in buckets && buckets == old(buckets)[key := buckets[key]]
      ensures key in old(buckets) ==> buckets[key] == old(buckets[key])
      ensures key !in old(buckets) ==> fresh(buckets[key])
    {
      ghost var before := Abstract();
      if key !in buckets {
        var refillRate := RefillRate(rpm);
        var created := new TokenBucket(burstSize as real, refillRate, now);
        buckets := buckets[key := created];
      }
      var bucket := buckets[key];
      assert bucket.State() == BucketFor(before, key, now);
      ok := bucket.Allow(now);
      AllowKeepsValid(before, key, now);
      assert Abstract().buckets == before.buckets[key := bucket.State()];
    }

    method GetRemainingTokens(key: string, now: Instant) returns (n: int)
      requires Valid()
      modifies buckets.Values
      ensures Valid() && buckets == old(buckets)
      ensures (n, Abstract()) == Remaining(old(Abstract()), key, now)
    {
      ghost var before := Abstract();
      if key in buckets {
        var bucket := buckets[key];
        var t := bucket.Tokens(now);
        n := Trunc(t);
        NeverAboveCapacity(before.buckets[key], now);
        assert Abstract().buckets == before.buckets[key := bucket.State()];
        return;
      }
      n := burstSize;
    }

    method GetResetTime(key: string, now: Instant) returns (t: Instant)
      requires Valid() && ResetDefined(Abstract(), key, now)
      modifies buckets.Values
      ensures Valid() && buckets == old(buckets)
      ensures (t, Abstract()) == ResetTime(old(Abstract()), key, now)
    {
      ghost var before := Abstract();
      if key in buckets {
        var bucket := buckets[key];
        var tokens := bucket.Tokens(now);
        var remainingTokens := bucket.capacity - tokens;
        NeverAboveCapacity(before.buckets[key], now);
        assert Abstract().buckets == before.buckets[key := bucket.State()];
        if remainingTokens <= 0.0 {
          return now;
        }
        var secondsToRefill := remainingTokens / bucket.refillRate;
        return now + Trunc(secondsToRefill) * Second;
      }
      return now;
    }

    /** Go `rl.buckets[key].Tokens()`: refill one key's bucket and read its balance. */
    method TokensOf(key: string, now: Instant) returns (t: real)
      requires Unaliased(buckets) && key in buckets
      modifies buckets[key]
      ensures Abstract().buckets == old(Abstract()).buckets[key := Refilled(old(Abstract()).buckets[key], now)]
      ensures t == Abstract().buckets[key].tokens
    {
      ghost var before := Abstract();
      var bucket := buckets[key];
      t := bucket.Tokens(now);
      assert Abstract().buckets == before.buckets[key := bucket.State()];
    }

    /** Go `delete(rl.buckets, key)`. */
    method Delete(key: string)
      modifies this
      ensures buckets == old(buckets) - {key}
      ensures Abstract().buckets == old(Abstract()).buckets - {key}
      ensures Unaliased(old(buckets)) ==> Unaliased(buckets)
    {
      buckets := buckets - {key};
    }

    /** The body of Go's Cleanup loop for one key. */
    method SweepKey(key: string, cutoff: Instant, now: Instant)
      requires Unaliased(buckets) && key in buckets
      modifies this, buckets[key]
      ensures Unaliased(buckets)
      ensures buckets == old(buckets) || buckets == old(buckets) - {key}
      ensures Abstract().buckets == SweepOne(old(Abstract()).buckets, key, cutoff, now)
    {
      var bucket := buckets[key];
      if bucket.lastRefill < cutoff {
        var tokens := TokensOf(key, now);
        if tokens >= bucket.capacity {
          Delete(key);
        }
      }
    }

    /** Go `Cleanup`: one pass over the keys, deleting the idle, full buckets. */
    method Cleanup(maxAge: Duration, now: Instant)
      requires Valid()
      modifies this, buckets.Values
      ensures Valid()
      ensures Abstract() == CleanupState(old(Abstract()), maxAge, now)
      ensures buckets.Keys <= old(buckets).Keys && forall k :: k in buckets ==> buckets[k] == old(buckets)[k]
    {
      ghost var before := Abstract();
      ghost var objects := buckets;
      var cutoff := now - maxAge;
      var todo := buckets.Keys;
      while todo != {}
        invariant Unaliased(buckets) && todo <= buckets.Keys
        invariant buckets.Keys <= objects.Keys && forall k :: k in buckets ==> buckets[k] == objects[k]
        invariant SweepInv(before.buckets, todo, Abstract().buckets, cutoff, now)
        decreases todo
      {
        var key :| key in todo;
        ghost var cur := Abstract().buckets;
        SweepVisit(before.buckets, todo, cur, key, cutoff, now);
        SweepKey(key, cutoff, now);
        todo := todo - {key};
      }
      SweepDone(before, maxAge, now, cutoff, todo, Abstract().buckets);
    }

    /** Go `RateLimiter.Stats`: the number of buckets and the sum of their balances, read one by one. */
    method Stats(now: Instant) returns (count: int, totalTokens: real)
      requires Valid()
      modifies buckets.Values
      ensures Valid() && buckets == old(buckets)
      ensures (count, totalTokens, Abstract()) == LimiterStats(old(Abstract()), now)
    {
      ghost var before := Abstract();
      StatsKeepsValid(before, now);
      assert before.buckets.Keys == buckets.Keys;
      count := |buckets|;
      totalTokens := SumBalances(now);
    }

    /** The loop of Go `Stats`: refill every bucket and add up the balances. */
    method SumBalances(now: Instant) returns (totalTokens: real)
      requires Unaliased(buckets)
      modifies buckets.Values
      ensures buckets == old(buckets)
      ensures Abstract().buckets == RefillAll(old(Abstract()).buckets, now)
      ensures totalTokens == SumTokens(Abstract().buckets)
    {
      ghost var before := Abstract();
      totalTokens := 0.0;
      var todo := buckets.Keys;
      ghost var done: map<string, BucketState> := map[];
      while todo != {}
        invariant Unaliased(buckets) && todo <= buckets.Keys
        invariant StatsInv(before.buckets, todo, done, Abstract().buckets, totalTokens, now)
        decreases todo
      {
        var key :| key in todo;
        ghost var cur := Abstract().buckets;
        var tokens := TokensOf(key, now);
        StatsStep(before.buckets, todo, done, cur, totalTokens, key, now);
        done := done[key := Refilled(before.buckets[key], now)];
        totalTokens := totalTokens + tokens;
        todo := todo - {key};
      }
      PartlyRefilledDone(before.buckets, done, now);
    }
  }

  /** What Stats knows after visiting every key outside `todo`. */
  ghost predicate StatsInv(m: map<string, BucketState>, todo: set<string>, done: map<string, BucketState>,
                           cur: map<string, BucketState>, total: real, now: Instant)
  {
    && todo <= m.Keys
    && done.Keys == m.Keys - todo
    && (forall k :: k in done ==> done[k] == Refilled(m[k], now))
    && cur == PartlyRefilled(m, todo, now)
    && total == SumTokens(done)
  }

  lemma StatsStep(m: map<string, BucketState>, todo: set<string>, done: map<string, BucketState>,
                  cur: map<string, BucketState>, total: real, key: string, now: Instant)
    requires StatsInv(m, todo, done, cur, total, now) && key in todo
    ensures key in cur
    ensures StatsInv(m, todo - {key}, done[key := Refilled(m[key], now)], cur[key := Refilled(cur[key], now)],
                     total + Refilled(cur[key], now).tokens, now)
  {
    PartlyRefilledStep(m, todo, key, now);
    SumTokensExtend(done, key, Refilled(m[key], now));
  }

  /** The buckets part-way through Cleanup: the keys in `todo` are not yet visited. */
  function PartlySwept(m: map<string, BucketState>, todo: set<string>, cutoff: Instant, now: Instant): map<string, BucketState>
  {
    map k | k in m && (k in todo || !Prunable(m[k], cutoff, now)) ::
      if k in todo then m[k] else Swept(m[k], cutoff, now)
  }

  ghost predicate SweepInv(m: map<string, BucketState>, todo: set<string>, cur: map<string, BucketState>,
                           cutoff: Instant, now: Instant)
  {
    todo <= m.Keys && cur == PartlySwept(m, todo, cutoff, now)
  }

  /** What visiting one key does to the buckets: refill it if idle, then drop it if full. */
  function SweepOne(m: map<string, BucketState>, key: string, cutoff: Instant, now: Instant): map<string, BucketState>
    requires key in m
  {
    if m[key].lastRefill < cutoff then
      var r := Refilled(m[key], now);
      if r.tokens >= r.capacity then m - {key} else m[key := r]
    else m
  }

  /** One Cleanup step: visiting `key` turns the map for `todo` into the map for `todo - {key}`. */
  lemma SweepVisit(m: map<string, BucketState>, todo: set<string>, cur: map<string, BucketState>,
                   key: string, cutoff: Instant, now: Instant)
    requires SweepInv(m, todo, cur, cutoff, now) && key in todo
    ensures key in cur
    ensures SweepInv(m, todo - {key}, SweepOne(cur, key, cutoff, now), cutoff, now)
  {
    var want := PartlySwept(m, todo - {key}, cutoff, now);
    assert SweepOne(cur, key, cutoff, now) == want;
  }

  lemma SweepDone(st: LimiterState, maxAge: Duration, now: Instant, cutoff: Instant, todo: set<string>,
                  cur: map<string, BucketState>)
    requires cutoff == now - maxAge && todo == {}
    requires ValidLimiter(st) && SweepInv(st.buckets, todo, cur, cutoff, now)
    ensures st.(buckets := cur) == CleanupState(st, maxAge, now)
    ensures ValidLimiter(st.(buckets := cur))
  {
    CleanupKeepsValid(st, maxAge, now);
  }

  /** The buckets part-way through Stats: the keys in `todo` are not yet refilled. */
  function PartlyRefilled(m: map<string, BucketState>, todo: set<string>, now: Instant): map<string, BucketState>
  {
    map k | k in m :: if k in todo then m[k] else Refilled(m[k], now)
  }

  lemma PartlyRefilledStep(m: map<string, BucketState>, todo: set<string>, key: string, now: Instant)
    requires key in todo && key in m
    ensures var cur := PartlyRefilled(m, todo, now);
      cur[key := Refilled(cur[key], now)] == PartlyRefilled(m, todo - {key}, now)
  {
  }

  lemma PartlyRefilledDone(m: map<string, BucketState>, done: map<string, BucketState>, now: Instant)
    requires done.Keys == m.Keys
    requires forall k :: k in done ==> done[k] == Refilled(m[k], now)
    ensures done == RefillAll(m, now) == PartlyRefilled(m, {}, now)
  {
  }

  lemma CleanupKeepsValid(st: LimiterState, maxAge: Duration, now: Instant)
    requires ValidLimiter(st)
    ensures ValidLimiter(CleanupState(st, maxAge, now))
  {
    forall k | k in st.buckets {
      NeverAboveCapacity(st.buckets[k], now);
    }
  }

  lemma StatsKeepsValid(st: LimiterState, now: Instant)
    requires ValidLimiter(st)
    ensures ValidLimiter(LimiterStats(st, now).2)
  {
    forall k | k in st.buckets {
      NeverAboveCapacity(st.buckets[k], now);
    }
  }

  /** Adding one more bucket to the sum adds its balance. */
  lemma SumTokensExtend(m: map<string, BucketState>, key: string, b: BucketState)
    requires key !in m
    ensures SumTokens(m[key := b]) == b.tokens + SumTokens(m)
  {
    SumTokensAt(m[key := b], key);
    assert m[key := b] - {key} == m;
  }

  // ---------------------------------------------------------------------------
  // Client identity

  /** The index of the first `c` in `s`. */
  function IndexOf(s: string, c: char): (r: Option<nat>)
    ensures r.Some? ==> r.value < |s| && s[r.value] == c && c !in s[..r.value]
    ensures r.None? ==> c !in s
  {
    if s == [] then None
    else if s[0] == c then Some(0)
    else match IndexOf(s[1..], c)
      case None => None
      case Some(i) => Some(i + 1)
  }

  /** The index of the last `c` in `s`. */
  function LastIndexOf(s: string, c: char): (r: Option<nat>)
    ensures r.Some? ==> r.value < |s| && s[r.value] == c && c !in s[r.value + 1..]
    ensures r.None? ==> c !in s
  {
    if s == [] then None
    else if s[|s| - 1] == c then Some(|s| - 1)
    else LastIndexOf(s[..|s| - 1], c)
  }

  const XForwardedFor := "X-Forwarded-For"
  const UnknownClient := "unknown"

  /**
   * Go `getClientKey`: the forwarded-for value up to its first comma; otherwise
   * the peer address up to its last colon (the port taken off); otherwise "unknown".
   */
  function ClientKey(req: Request): (key: string)
    ensures var xff := HeaderGet(req.header, XForwardedFor);
      && (xff != "" && ',' in xff ==> key + [','] <= xff && ',' !in key)
      && (xff != "" && ',' !in xff ==> key == xff)
      && (xff == "" && ':' in req.remoteAddr ==>
            key + [':'] <= req.remoteAddr && ':' !in req.remoteAddr[|key| + 1..])
      && (xff == "" && req.remoteAddr != "" && ':' !in req.remoteAddr ==> key == req.remoteAddr)
      && (xff == "" && req.remoteAddr == "" ==> key == UnknownClient)
  {
    var xff := HeaderGet(req.header, XForwardedFor);
    if xff != "" then
      match IndexOf(xff, ',')
      case Some(i) => xff[..i]
      case None => xff
    else if req.remoteAddr != "" then
      match LastIndexOf(req.remoteAddr, ':')
      case Some(i) => req.remoteAddr[..i]
      case None => req.remoteAddr
    else UnknownClient
  }

  // ---------------------------------------------------------------------------
  // The rate-limiting stage

  const RateLimitBody := "{\"error\":\"rate_limit_exceeded\",\"message\":\"Too many requests\"}"
  const ContentType := "Content-Type"
  const ApplicationJson := "application/json"
  const LimitHeader := "X-RateLimit-Limit"
  const RemainingHeader := "X-RateLimit-Remaining"
  const ResetHeader := "X-RateLimit-Reset"
  const RetryAfterHeader := "Retry-After"

  /** The bytes of a string of ASCII characters. */
  function Ascii(s: string): seq<byte>
  {
    seq(|s|, i requires 0 <= i < |s| => ((s[i] as int) % 256) as byte)
  }

  /**
   * What the limiter decides for a request: `limit` is the X-RateLimit-Limit value,
   * `remaining` X-RateLimit-Remaining, `reset` the instant X-RateLimit-Reset names,
   * and `retryAfter` the Retry-After value in seconds.
   */
  datatype LimitOutcome =
    | Unlimited
    | Rejected(limit: int, reset: Instant, retryAfter: int)
    | Admitted(limit: int, remaining: int, reset: Instant)

  /** GetResetTime, wherever the stage calls it, divides by a non-zero rate. */
  predicate StageDefined(st: LimiterState, key: string, now: Instant)
  {
    ResetDefined(LimiterAllow(st, key, now).1, key, now)
  }

  /**
   * The limiter calls of `rateLimitMiddleware`. The limiter's own clock reads are one
   * instant `now`; `later` is the clock read for Retry-After, after GetResetTime.
   */
  function LimitStage(st: Option<LimiterState>, req: Request, now: Instant, later: Instant)
    : (LimitOutcome, Option<LimiterState>)
    requires st.Some? ==> StageDefined(st.value, ClientKey(req), now)
  {
    if st.None? then (Unlimited, st)
    else
      var key := ClientKey(req);
      var (ok, s1) := LimiterAllow(st.value, key, now);
      if !ok then
        var (reset, s2) := ResetTime(s1, key, now);
        (Rejected(s1.rpm, reset, Trunc(Seconds(reset - later))), Some(s2))
      else
        var (remaining, s2) := Remaining(s1, key, now);
        RefilledTwice(s1.buckets[key], now);
        var (reset, s3) := ResetTime(s2, key, now);
        (Admitted(s1.rpm, remaining, reset), Some(s3))
  }

  /**
   * The writer calls of `rateLimitMiddleware`. `rfc3339` is Go's `Time.Format(time.RFC3339)`,
   * which this model does not define.
   */
  function LimitReply(sink: SinkState, out: LimitOutcome, next: seq<HandlerCall>, rfc3339: Instant -> string): SinkState
  {
    match out
    case Unlimited => Serve(sink, next)
    case Rejected(limit, reset, retryAfter) =>
      var s1 := SinkSetHeader(sink, ContentType, ApplicationJson);
      var s2 := SinkSetHeader(s1, LimitHeader, Itoa(limit));
      var s3 := SinkSetHeader(s2, RemainingHeader, "0");
      var s4 := SinkSetHeader(s3, ResetHeader, rfc3339(reset));
      var s5 := SinkSetHeader(s4, RetryAfterHeader, Itoa(retryAfter));
      SinkWrite(SinkWriteHeader(s5, StatusTooManyRequests), Ascii(RateLimitBody))
    case Admitted(limit, remaining, reset) =>
      var s1 := SinkSetHeader(sink, LimitHeader, Itoa(limit));
      var s2 := SinkSetHeader(s1, RemainingHeader, Itoa(remaining));
      var s3 := SinkSetHeader(s2, ResetHeader, rfc3339(reset));
      Serve(s3, next)
  }

  /** Go `rateLimitMiddleware` for one request: the outcome, the limiter after it, and the client's writer. */
  function RateLimitStage(st: Option<LimiterState>, sink: SinkState, req: Request, next: seq<HandlerCall>,
                          now: Instant, later: Instant, rfc3339: Instant -> string)
    : (LimitOutcome, Option<LimiterState>, SinkState)
    requires st.Some? ==> StageDefined(st.value, ClientKey(req), now)
  {
    var (out, st') := LimitStage(st, req, now, later);
    (out, st', LimitReply(sink, out, next, rfc3339))
  }

  /** A limiter whose rate is not zero can always compute the reset time. */
  lemma NonZeroRateDefined(st: LimiterState, key: string, now: Instant)
    requires ValidLimiter(st) && st.rpm != 0
    ensures StageDefined(st, key, now)
  {
    AllowKeepsValid(st, key, now);
  }

  /**
   * The stage rejects exactly when the client's bucket denies; on admission the
   * headers come from the same bucket reading that admitted the request: the
   * remaining count is the truncated balance after the token was taken. Either way
   * the reset is a whole number of seconds after now.
   */
  lemma LimitStageDecision(st: LimiterState, req: Request, now: Instant, later: Instant)
    requires StageDefined(st, ClientKey(req), now)
    ensures var key := ClientKey(req);
      var (ok, s1) := LimiterAllow(st, key, now);
      var (out, s') := LimitStage(Some(st), req, now, later);
      && s' == Some(s1)
      && (out.Rejected? <==> !ok)
      && (out.Admitted? <==> ok)
      && (out.Admitted? ==> out.limit == st.rpm && out.remaining == Trunc(s1.buckets[key].tokens)
                            && (out.reset - now) % Second == 0)
      && (out.Rejected? ==> out.limit == st.rpm && (out.reset - now) % Second == 0)
  {
    var key := ClientKey(req);
    var s1 := LimiterAllow(st, key, now).1;
    assert s1.buckets[key].lastRefill == now;
    RefillSameInstant(s1.buckets[key]);
    assert s1.buckets[key := Refilled(s1.buckets[key], now)] == s1.buckets;
  }

  /**
   * Retry-After is the wait to the reset in whole seconds, counted from the later
   * clock read and truncated: one second less than the wait from `now` once any
   * time has passed and the wait is at least a second.
   */
  lemma RetryAfterMeaning(st: LimiterState, req: Request, now: Instant, later: Instant)
    requires StageDefined(st, ClientKey(req), now)
    requires now <= later < now + Second
    ensures var (out, _) := LimitStage(Some(st), req, now, later);
      out.Rejected? ==>
        var k := (out.reset - now) / Second;
        && out.reset == now + k * Second
        && out.retryAfter == (if later > now && k >= 1 then k - 1 else k)
  {
    var key := ClientKey(req);
    var s1 := LimiterAllow(st, key, now).1;
    var out := LimitStage(Some(st), req, now, later).0;
    if out.Rejected? {
      var k := (out.reset - now) / Second;
      assert out.reset == now + k * Second;
      var d := later - now;
      assert Seconds(out.reset - later) == k as real - Seconds(d);
      assert 0.0 <= Seconds(d) < 1.0;
      assert d == 0 ==> Seconds(d) == 0.0;
      TruncOfInt(k);
    }
  }

  /** With a positive rate and a Retry-After read within the second, Retry-After is never negative. */
  lemma RetryAfterNonNegative(st: LimiterState, req: Request, now: Instant, later: Instant)
    requires ValidLimiter(st) && st.rpm > 0
    requires now <= later < now + Second
    ensures StageDefined(st, ClientKey(req), now)
    ensures var (out, _) := LimitStage(Some(st), req, now, later);
      out.Rejected? ==> out.retryAfter >= 0 && out.reset >= now
  {
    var key := ClientKey(req);
    var s1 := LimiterAllow(st, key, now).1;
    NonZeroRateDefined(st, key, now);
    AllowKeepsValid(st, key, now);
    RetryAfterMeaning(st, req, now, later);
    var out := LimitStage(Some(st), req, now, later).0;
    if out.Rejected? {
      ResetTimeMeaning(s1, key, now);
    }
  }

  /**
   * The reply to a rejection: status 429, Content-Type application/json, the limit,
   * Remaining "0", the reset instant, Retry-After and the error body, and the next
   * handler is not run: the reply is the same whatever it would have done.
   */
  lemma RejectedSends(sink: SinkState, limit: int, reset: Instant, retryAfter: int,
                      next: seq<HandlerCall>, rfc3339: Instant -> string)
    requires !sink.committed
    ensures var s' := LimitReply(sink, Rejected(limit, reset, retryAfter), next, rfc3339);
      && s'.committed && s'.sentStatus == StatusTooManyRequests
      && s'.body == sink.body + Ascii(RateLimitBody)
      && HeaderGet(s'.sentHeader, ContentType) == ApplicationJson
      && HeaderGet(s'.sentHeader, RemainingHeader) == "0"
      && ParseInt(HeaderGet(s'.sentHeader, LimitHeader)) == Some(limit)
      && ParseInt(HeaderGet(s'.sentHeader, RetryAfterHeader)) == Some(retryAfter)
      && HeaderGet(s'.sentHeader, ResetHeader) == rfc3339(reset)
      && forall other :: LimitReply(sink, Rejected(limit, reset, retryAfter), other, rfc3339) == s'
  {
    ParseItoa(limit);
    ParseItoa(retryAfter);
  }

  /** A request the limiter rejects gets the rejection reply, with the configured limit. */
  lemma RejectedReply(st: LimiterState, sink: SinkState, req: Request, next: seq<HandlerCall>,
                      now: Instant, later: Instant, rfc3339: Instant -> string)
    requires StageDefined(st, ClientKey(req), now) && !sink.committed
    ensures var (out, st', s') := RateLimitStage(Some(st), sink, req, next, now, later, rfc3339);
      out.Rejected? ==>
        && s'.committed && s'.sentStatus == StatusTooManyRequests
        && s'.body == sink.body + Ascii(RateLimitBody)
        && HeaderGet(s'.sentHeader, ContentType) == ApplicationJson
        && HeaderGet(s'.sentHeader, RemainingHeader) == "0"
        && ParseInt(HeaderGet(s'.sentHeader, LimitHeader)) == Some(st.rpm)
        && ParseInt(HeaderGet(s'.sentHeader, RetryAfterHeader)) == Some(out.retryAfter)
        && HeaderGet(s'.sentHeader, ResetHeader) == rfc3339(out.reset)
        && forall other :: RateLimitStage(Some(st), sink, req, other, now, later, rfc3339) == (out, st', s')
  {
    LimitStageDecision(st, req, now, later);
    var (out, st') := LimitStage(Some(st), req, now, later);
    if out.Rejected? {
      RejectedSends(sink, out.limit, out.reset, out.retryAfter, next, rfc3339);
    }
  }

  /**
   * The reply to an admission: the next handler runs on the client's writer after the
   * limit, remaining and reset headers are set; the client gets every byte the handler
   * writes, and those headers unless the handler sets them itself.
   */
  lemma AdmittedSends(sink: SinkState, limit: int, remaining: int, reset: Instant,
                      next: seq<HandlerCall>, rfc3339: Instant -> string)
    requires !sink.committed
    requires LeavesHeader(next, LimitHeader) && LeavesHeader(next, RemainingHeader) && LeavesHeader(next, ResetHeader)
    ensures var s' := LimitReply(sink, Admitted(limit, remaining, reset), next, rfc3339);
      && s'.body == sink.body + Written(next)
      && s'.committed == Commits(next)
      && (Commits(next) ==> s'.sentStatus == LatchedStatus(next, StatusOK))
      && ParseInt(Outgoing(s', LimitHeader)) == Some(limit)
      && ParseInt(Outgoing(s', RemainingHeader)) == Some(remaining)
      && Outgoing(s', ResetHeader) == rfc3339(reset)
  {
    var s1 := SinkSetHeader(sink, LimitHeader, Itoa(limit));
    var s2 := SinkSetHeader(s1, RemainingHeader, Itoa(remaining));
    var s3 := SinkSetHeader(s2, ResetHeader, rfc3339(reset));
    ServeMeaning(s3, next);
    ServeKeepsHeader(s3, next, LimitHeader);
    ServeKeepsHeader(s3, next, RemainingHeader);
    ServeKeepsHeader(s3, next, ResetHeader);
    ParseItoa(limit);
    ParseItoa(remaining);
  }

  /** A request the limiter admits gets the admission reply, with the configured limit. */
  lemma AdmittedReply(st: LimiterState, sink: SinkState, req: Request, next: seq<HandlerCall>,
                      now: Instant, later: Instant, rfc3339: Instant -> string)
    requires StageDefined(st, ClientKey(req), now) && !sink.committed
    requires LeavesHeader(next, LimitHeader) && LeavesHeader(next, RemainingHeader) && LeavesHeader(next, ResetHeader)
    ensures var (out, _, s') := RateLimitStage(Some(st), sink, req, next, now, later, rfc3339);
      out.Admitted? ==>
        && s'.body == sink.body + Written(next)
        && s'.committed == Commits(next)
        && (Commits(next) ==> s'.sentStatus == LatchedStatus(next, StatusOK))
        && ParseInt(Outgoing(s', LimitHeader)) == Some(st.rpm)
        && ParseInt(Outgoing(s', RemainingHeader)) == Some(out.remaining)
        && Outgoing(s', ResetHeader) == rfc3339(out.reset)
  {
    LimitStageDecision(st, req, now, later);
    var out := LimitStage(Some(st), req, now, later).0;
    if out.Admitted? {
      AdmittedSends(sink, out.limit, out.remaining, out.reset, next, rfc3339);
    }
  }

  /** Without a limiter the next handler runs on the client's writer and the stage adds no header. */
  lemma UnlimitedReply(sink: SinkState, req: Request, next: seq<HandlerCall>,
                       now: Instant, later: Instant, rfc3339: Instant -> string)
    ensures var (out, st', s') := RateLimitStage(None, sink, req, next, now, later, rfc3339);
      && out == Unlimited && st' == None
      && s'.body == sink.body + Written(next)
      && forall name :: LeavesHeader(next, name) ==> Outgoing(s', name) == Outgoing(sink, name)
  {
    ServeMeaning(sink, next);
    forall name | LeavesHeader(next, name)
      ensures Outgoing(Serve(sink, next), name) == Outgoing(sink, name)
    {
      ServeKeepsHeader(sink, next, name);
    }
  }

  /** The limiter calls of `rateLimitMiddleware` for one request. */
  method LimitDecision(limiter: RateLimiter, req: Request, now: Instant, later: Instant) returns (out: LimitOutcome)
    requires limiter.Valid() && StageDefined(limiter.Abstract(), ClientKey(req), now)
    modifies limiter, limiter.buckets.Values
    ensures limiter.Valid()
    ensures (out, Some(limiter.Abstract())) == LimitStage(Some(old(limiter.Abstract())), req, now, later)
  {
    var clientKey := ClientKey(req);
    var ok := limiter.Allow(clientKey, now);
    if !ok {
      var resetTime := limiter.GetResetTime(clientKey, now);
      return Rejected(limiter.rpm, resetTime, Trunc(Seconds(resetTime - later)));
    }
    ghost var s1 := limiter.Abstract();
    var remaining := limiter.GetRemainingTokens(clientKey, now);
    RefilledTwice(s1.buckets[clientKey], now);
    var resetTime := limiter.GetResetTime(clientKey, now);
    return Admitted(limiter.rpm, remaining, resetTime);
  }

  /** The writer calls of `rateLimitMiddleware`, ending with the next handler when it is called. */
  method Respond(w: ResponseSink, out: LimitOutcome, next: seq<HandlerCall>, rfc3339: Instant -> string)
    modifies w
    ensures w.State() == LimitReply(old(w.State()), out, next, rfc3339)
  {
    match out {
      case Unlimited =>
        ServeSink(w, next);
      case Rejected(limit, reset, retryAfter) =>
        w.SetHeader(ContentType, ApplicationJson);
        w.SetHeader(LimitHeader, Itoa(limit));
        w.SetHeader(RemainingHeader, "0");
        w.SetHeader(ResetHeader, rfc3339(reset));
        w.SetHeader(RetryAfterHeader, Itoa(retryAfter));
        w.WriteHeader(StatusTooManyRequests);
        var _ := w.Write(Ascii(RateLimitBody));
      case Admitted(limit, remaining, reset) =>
        w.SetHeader(LimitHeader, Itoa(limit));
        w.SetHeader(RemainingHeader, Itoa(remaining));
        w.SetHeader(ResetHeader, rfc3339(reset));
        ServeSink(w, next);
    }
  }

  /** Go `rateLimitMiddleware` serving one request on writer `w`, with the shared limiter or none. */
  method RateLimitMiddleware(limiter: RateLimiter?, w: ResponseSink, req: Request, next: seq<HandlerCall>,
                             now: Instant, later: Instant, rfc3339: Instant -> string)
    returns (out: LimitOutcome)
    requires limiter != null ==> limiter.Valid() && StageDefined(limiter.Abstract(), ClientKey(req), now)
    modifies w, if limiter != null then {limiter} + limiter.buckets.Values else {}
    ensures limiter != null ==> limiter.Valid()
    ensures (out, if limiter == null then None else Some(limiter.Abstract()), w.State()) ==
      RateLimitStage(if limiter == null then None else Some(old(limiter.Abstract())), old(w.State()),
                     req, next, now, later, rfc3339)
  {
    if limiter == null {
      out := Unlimited;
      Respond(w, out, next, rfc3339);
      return;
    }
    ghost var st := limiter.Abstract();
    out := LimitDecision(limiter, req, now, later);
    ghost var st' := limiter.Abstract();
    assert (out, Some(st')) == LimitStage(Some(st), req, now, later);
    Respond(w, out, next, rfc3339);
    assert limiter.Abstract() == st';
  }
}
