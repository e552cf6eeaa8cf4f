/**
 * The LRU + TTL response cache of cache.go.
 *
 * The Go cache keeps a map from key to list element and a doubly linked
 * recency list whose front is the most recently used entry. Here the list is
 * a sequence of keys, index 0 being the front, and the map holds the entries
 * themselves. All operations are sequential (the Go locks are not modelled)
 * and the clock is the parameter `now`.
 *
 * The behaviour is stated once, as functions over a snapshot `CacheState`
 * (Lookup for Get, Store for Set, Cleared for Clear); the class `Cache`
 * implements them in place, and the lemmas prove what the source promises.
 */
module ResponseCache {
  import opened Wrappers
  import opened Clock
  import opened Http

  /** A snapshot of an upstream response (Go `CachedResponse`). */
  datatype CachedResponse = CachedResponse(statusCode: int, headers: Header, body: seq<byte>, createdAt: Instant)

  /** Go `CacheEntry`: the key it is stored under, the response, the absolute expiry. */
  datatype CacheEntry = CacheEntry(key: string, response: CachedResponse, expiry: Instant)

  // ---------------------------------------------------------------------------
  // The recency order

  predicate Distinct(s: seq<string>)
  {
    forall i, j :: 0 <= i < j < |s| ==> s[i] != s[j]
  }

  /** The recency order with `k` taken out (Go `list.Remove` of k's element). */
  function Without(s: seq<string>, k: string): (r: seq<string>)
    ensures forall x :: x in r <==> x in s && x != k
    ensures |r| <= |s|
  {
    if s == [] then []
    else if s[0] == k then Without(s[1..], k)
    else [s[0]] + Without(s[1..], k)
  }

  /** Go `list.MoveToFront` (and `PushFront` of a key not yet present). */
  function Promote(s: seq<string>, k: string): seq<string>
  {
    [k] + Without(s, k)
  }

  lemma DistinctTail(s: seq<string>)
    requires Distinct(s) && s != []
    ensures Distinct(s[1..]) && s[0] !in s[1..]
  {
    forall i, j | 0 <= i < j < |s[1..]| ensures s[1..][i] != s[1..][j] {
      assert s[1..][i] == s[i + 1] && s[1..][j] == s[j + 1];
    }
    forall i | 0 <= i < |s[1..]| ensures s[1..][i] != s[0] {
      assert s[1..][i] == s[i + 1];
    }
  }

  lemma DistinctCons(x: string, t: seq<string>)
    requires Distinct(t) && x !in t
    ensures Distinct([x] + t)
  {
    var s := [x] + t;
    forall i, j | 0 <= i < j < |s| ensures s[i] != s[j] {
      assert s[j] == t[j - 1];
      if i > 0 { assert s[i] == t[i - 1]; }
    }
  }

  lemma {:induction false} WithoutDistinct(s: seq<string>, k: string)
    requires Distinct(s)
    ensures Distinct(Without(s, k))
  {
    if s != [] {
      DistinctTail(s);
      WithoutDistinct(s[1..], k);
      if s[0] != k {
        DistinctCons(s[0], Without(s[1..], k));
      }
    }
  }

  lemma {:induction false} WithoutPresent(s: seq<string>, k: string)
    requires Distinct(s) && k in s
    ensures |Without(s, k)| == |s| - 1
  {
    DistinctTail(s);
    if s[0] != k {
      assert k in s[1..];
      WithoutPresent(s[1..], k);
    } else {
      WithoutAbsent(s[1..], k);
    }
  }

  lemma {:induction false} WithoutAbsent(s: seq<string>, k: string)
    requires k !in s
    ensures Without(s, k) == s
  {
    if s != [] {
      assert k !in s[1..];
      WithoutAbsent(s[1..], k);
    }
  }

  /** Taking a key out twice is taking it out once. */
  lemma {:induction false} WithoutTwice(s: seq<string>, k: string)
    ensures Without(Without(s, k), k) == Without(s, k)
  {
    WithoutAbsent(Without(s, k), k);
  }

  /** Taking out two keys commutes; so the relative order of the other keys never changes. */
  lemma {:induction false} WithoutCommutes(s: seq<string>, a: string, b: string)
    ensures Without(Without(s, a), b) == Without(Without(s, b), a)
  {
    if s != [] {
      WithoutCommutes(s[1..], a, b);
    }
  }

  /** Promotion moves only `k`: with `k` taken out, the order is as before. */
  lemma PromoteKeepsOthers(s: seq<string>, k: string)
    ensures Without(Promote(s, k), k) == Without(s, k)
  {
    assert Promote(s, k)[0] == k && Promote(s, k)[1..] == Without(s, k);
    WithoutTwice(s, k);
  }

  /** Dropping the tail of a sequence without duplicates takes out exactly the tail key. */
  lemma DropLast(s: seq<string>)
    requires Distinct(s) && |s| > 0
    ensures Distinct(s[..|s| - 1])
    ensures forall x :: x in s[..|s| - 1] <==> x in s && x != s[|s| - 1]
  {
    var n := |s|;
    forall x
      ensures x in s[..n - 1] <==> x in s && x != s[n - 1]
    {
      if x in s[..n - 1] {
        var i :| 0 <= i < n - 1 && s[..n - 1][i] == x;
        assert s[i] == x;
      }
      if x in s && x != s[n - 1] {
        var i :| 0 <= i < n && s[i] == x;
        assert s[..n - 1][i] == x;
      }
    }
  }

  /** A sequence without duplicates has as many distinct elements as positions. */
  lemma {:induction false} DistinctCount(s: seq<string>)
    requires Distinct(s)
    ensures |set x | x in s| == |s|
  {
    if s != [] {
      DistinctTail(s);
      DistinctCount(s[1..]);
      assert (set x | x in s) == {s[0]} + (set x | x in s[1..]);
    }
  }

  // ---------------------------------------------------------------------------
  // The cache as a value

  datatype CacheState = CacheState(capacity: int, ttl: Duration, items: map<string, CacheEntry>, lru: seq<string>)

  /** The size the cache never exceeds: `capacity`, or 0 when the capacity is not positive. */
  function Bound(capacity: int): nat
  {
    if capacity < 0 then 0 else capacity
  }

  /** The map and the recency order hold the same keys, each once, and each entry knows its key. */
  predicate Consistent(st: CacheState)
  {
    && Distinct(st.lru)
    && (forall k :: k in st.items ==> k in st.lru && st.items[k].key == k)
    && (forall i :: 0 <= i < |st.lru| ==> st.lru[i] in st.items)
  }

  predicate ValidCache(st: CacheState)
  {
    Consistent(st) && |st.lru| <= Bound(st.capacity)
  }

  /** Go `Size`: the length of the recency list. */
  function Size(st: CacheState): nat
  {
    |st.lru|
  }

  /** Go `NewCache(capacity, ttlSeconds)`. */
  function NewCache(capacity: int, ttlSeconds: int): (st: CacheState)
    ensures ValidCache(st) && Size(st) == 0 && st.items == map[]
    ensures st.capacity == capacity && st.ttl == ttlSeconds * Second
  {
    CacheState(capacity, ttlSeconds * Second, map[], [])
  }

  /** Go `removeElement`. */
  function RemoveKey(st: CacheState, key: string): CacheState
  {
    st.(items := st.items - {key}, lru := Without(st.lru, key))
  }

  /** Go `evict`: drop the tail of the recency list, if there is one. */
  function EvictTail(st: CacheState): CacheState
  {
    if st.lru == [] then st
    else st.(items := st.items - {st.lru[|st.lru| - 1]}, lru := st.lru[..|st.lru| - 1])
  }

  /** Is the entry under `key` past its expiry at `now` (Go `time.Now().After(entry.Expiry)`)? */
  predicate Expired(st: CacheState, key: string, now: Instant)
    requires key in st.items
  {
    now > st.items[key].expiry
  }

  /** Go `Get`: the response found, if any, and the cache afterwards. */
  function Lookup(st: CacheState, key: string, now: Instant): (Option<CachedResponse>, CacheState)
  {
    if key !in st.items then (None, st)
    else if Expired(st, key, now) then (None, RemoveKey(st, key))
    else (Some(st.items[key].response), st.(lru := Promote(st.lru, key)))
  }

  /** Go `Set`: replace and promote an existing entry, or push a new one and evict past capacity. */
  function Store(st: CacheState, key: string, response: CachedResponse, now: Instant): CacheState
  {
    if key in st.items then
      var e := st.items[key];
      st.(items := st.items[key := e.(response := response, expiry := now + st.ttl)], lru := Promote(st.lru, key))
    else
      var pushed := st.(items := st.items[key := CacheEntry(key, response, now + st.ttl)], lru := [key] + st.lru);
      if |pushed.lru| > st.capacity then EvictTail(pushed) else pushed
  }

  /** Go `Clear`. */
  function Cleared(st: CacheState): CacheState
  {
    st.(items := map[], lru := [])
  }

  // ---------------------------------------------------------------------------
  // Properties

  /** The number of entries equals the length of the recency list. */
  lemma SizeIsEntryCount(st: CacheState)
    requires Consistent(st)
    ensures |st.items| == Size(st)
  {
    DistinctCount(st.lru);
    assert st.items.Keys == set x | x in st.lru;
  }

  /** Promoting a present key keeps the same keys, each once, and the same length. */
  lemma PromotePresent(s: seq<string>, k: string)
    requires Distinct(s) && k in s
    ensures Distinct(Promote(s, k)) && |Promote(s, k)| == |s|
    ensures forall x :: x in Promote(s, k) <==> x in s
  {
    WithoutPresent(s, k);
    WithoutDistinct(s, k);
    DistinctCons(k, Without(s, k));
  }

  lemma LookupKeepsValid(st: CacheState, key: string, now: Instant)
    requires ValidCache(st)
    ensures ValidCache(Lookup(st, key, now).1)
  {
    if key in st.items {
      var r := Lookup(st, key, now).1;
      if Expired(st, key, now) {
        WithoutPresent(st.lru, key);
        WithoutDistinct(st.lru, key);
      } else {
        PromotePresent(st.lru, key);
      }
      forall i | 0 <= i < |r.lru| ensures r.lru[i] in r.items {
        assert r.lru[i] in r.lru;
      }
    }
  }

  /** Every Set keeps the invariant, so the size never exceeds the capacity. */
  lemma StoreKeepsValid(st: CacheState, key: string, response: CachedResponse, now: Instant)
    requires ValidCache(st)
    ensures ValidCache(Store(st, key, response, now))
  {
    var r := Store(st, key, response, now);
    if key in st.items {
      PromotePresent(st.lru, key);
      forall i | 0 <= i < |r.lru| ensures r.lru[i] in r.items {
        assert r.lru[i] in r.lru;
      }
    } else {
      var e := CacheEntry(key, response, now + st.ttl);
      var pushed := [key] + st.lru;
      DistinctCons(key, st.lru);
      forall i | 0 <= i < |pushed| ensures pushed[i] in st.items[key := e] {
        if i > 0 { assert pushed[i] == st.lru[i - 1]; }
      }
      if |pushed| > st.capacity {
        DropLast(pushed);
        var tail := pushed[|pushed| - 1];
        assert r.items == st.items[key := e] - {tail};
        assert r.lru == pushed[..|pushed| - 1];
        forall k | k in r.items ensures k in r.lru && r.items[k].key == k {
          assert k in pushed && k != tail;
        }
        forall i | 0 <= i < |r.lru| ensures r.lru[i] in r.items {
          assert r.lru[i] in r.lru;
        }
      }
    }
  }

  /** Set on a new key when the cache is full evicts exactly the least recently used entry. */
  lemma StoreFullEvictsLru(st: CacheState, key: string, response: CachedResponse, now: Instant)
    requires ValidCache(st) && key !in st.items
    requires st.capacity >= 1 && Size(st) == st.capacity
    ensures var r := Store(st, key, response, now);
      && Size(r) == Size(st)
      && r.lru == [key] + st.lru[..Size(st) - 1]
      && r.items.Keys == st.items.Keys - {st.lru[Size(st) - 1]} + {key}
      && r.items[key] == CacheEntry(key, response, now + st.ttl)
      && forall k :: k in r.items && k != key ==> r.items[k] == st.items[k]
  {
    var tail := st.lru[Size(st) - 1];
    assert tail in st.items;
    assert tail != key;
  }

  /** Set on a new key below capacity evicts nothing. */
  lemma StoreBelowCapacity(st: CacheState, key: string, response: CachedResponse, now: Instant)
    requires ValidCache(st) && key !in st.items && Size(st) < st.capacity
    ensures var r := Store(st, key, response, now);
      && Size(r) == Size(st) + 1
      && r.lru == [key] + st.lru
      && r.items == st.items[key := CacheEntry(key, response, now + st.ttl)]
  {
  }

  /**
   * Set on an existing key replaces the response, resets the expiry, moves the key
   * to the front and changes nothing else. It needs only what a valid cache gives:
   * the entry knows its key and the recency list holds each key once.
   */
  lemma StoreExisting(st: CacheState, key: string, response: CachedResponse, now: Instant)
    requires key in st.items && st.items[key].key == key && key in st.lru && Distinct(st.lru)
    ensures var r := Store(st, key, response, now);
      && r.items == st.items[key := CacheEntry(key, response, now + st.ttl)]
      && r.lru[0] == key
      && Without(r.lru, key) == Without(st.lru, key)
      && Size(r) == Size(st)
      && r.capacity == st.capacity && r.ttl == st.ttl
  {
    PromoteFront(st.lru, key);
  }

  /** Promoting a present key puts it first, keeps the length and moves nothing else. */
  lemma PromoteFront(s: seq<string>, k: string)
    requires Distinct(s) && k in s
    ensures Promote(s, k)[0] == k && |Promote(s, k)| == |s|
    ensures Without(Promote(s, k), k) == Without(s, k)
  {
    PromotePresent(s, k);
    PromoteKeepsOthers(s, k);
  }

  /** Get of a live entry returns it and moves only that key to the front. */
  lemma LookupLive(st: CacheState, key: string, now: Instant)
    requires ValidCache(st) && key in st.items && now <= st.items[key].expiry
    ensures var (found, r) := Lookup(st, key, now);
      && found == Some(st.items[key].response)
      && r.items == st.items
      && r.lru[0] == key
      && Without(r.lru, key) == Without(st.lru, key)
      && Size(r) == Size(st)
      && r.capacity == st.capacity && r.ttl == st.ttl
  {
    WithoutPresent(st.lru, key);
    PromoteKeepsOthers(st.lru, key);
  }

  /** Get of an expired entry finds nothing and purges just that entry. */
  lemma LookupExpired(st: CacheState, key: string, now: Instant)
    requires ValidCache(st) && key in st.items && now > st.items[key].expiry
    ensures var (found, r) := Lookup(st, key, now);
      && found == None
      && key !in r.items
      && r.items == st.items - {key}
      && r.lru == Without(st.lru, key)
      && Size(r) == Size(st) - 1
      && r.capacity == st.capacity && r.ttl == st.ttl
  {
    WithoutPresent(st.lru, key);
  }

  /** Get of an absent key finds nothing and changes nothing. */
  lemma LookupAbsent(st: CacheState, key: string, now: Instant)
    requires key !in st.items
    ensures Lookup(st, key, now) == (None, st)
  {
  }

  /** What Set stores, Get returns until the entry expires, provided the capacity admits one entry. */
  lemma StoreThenLookup(st: CacheState, key: string, response: CachedResponse, now: Instant, later: Instant)
    requires ValidCache(st) && st.capacity >= 1
    requires later <= now + st.ttl
    ensures Lookup(Store(st, key, response, now), key, later).0 == Some(response)
  {
    var r := Store(st, key, response, now);
    if key !in st.items && |[key] + st.lru| > st.capacity {
      assert st.lru != [];
      assert r.lru == ([key] + st.lru)[..|st.lru|];
      assert r.lru[0] == key;
    }
    assert key in r.items;
  }

  /** After Clear the cache is empty, every Get misses, and capacity and ttl are kept. */
  lemma ClearedIsEmpty(st: CacheState, key: string, now: Instant)
    ensures ValidCache(Cleared(st)) && Size(Cleared(st)) == 0
    ensures Lookup(Cleared(st), key, now).0 == None
    ensures Cleared(st).capacity == st.capacity && Cleared(st).ttl == st.ttl
  {
  }

  /**
   * The eviction test of cache_test.go: capacity 2, Set k1, k2, k3 (all at `now`);
   * then k1 is gone and k2 and k3 are found.
   */
  lemma EvictionScenario(k1: string, k2: string, k3: string, ttlSeconds: nat, now: Instant, r: CachedResponse)
    requires k1 != k2 && k1 != k3 && k2 != k3
    ensures var s := Store(Store(Store(NewCache(2, ttlSeconds), k1, r, now), k2, r, now), k3, r, now);
      && Size(s) == 2
      && Lookup(s, k1, now).0 == None
      && Lookup(s, k2, now).0 == Some(r)
      && Lookup(s, k3, now).0 == Some(r)
  {
    var s1 := Store(NewCache(2, ttlSeconds), k1, r, now);
    assert s1.lru == [k1];
    var s2 := Store(s1, k2, r, now);
    assert s2.lru == [k2, k1];
    var s3 := Store(s2, k3, r, now);
    assert s3.lru == [k3, k2];
    assert s3.items.Keys == {k2, k3};
  }

  /**
   * The LRU test of cache_test.go: capacity 3, Set k1, k2, k3, Get k1, Set k4;
   * then k2, the least recently used, is gone and k1, k3, k4 are found.
   */
  lemma PromotionScenario(k1: string, k2: string, k3: string, k4: string, ttlSeconds: nat, now: Instant, r: CachedResponse)
    requires k1 != k2 && k1 != k3 && k1 != k4 && k2 != k3 && k2 != k4 && k3 != k4
    ensures var s := Store(Lookup(Store(Store(Store(NewCache(3, ttlSeconds), k1, r, now), k2, r, now), k3, r, now), k1, now).1, k4, r, now);
      && Size(s) == 3
      && Lookup(s, k2, now).0 == None
      && Lookup(s, k1, now).0 == Some(r)
      && Lookup(s, k3, now).0 == Some(r)
      && Lookup(s, k4, now).0 == Some(r)
  {
    var s3 := Store(Store(Store(NewCache(3, ttlSeconds), k1, r, now), k2, r, now), k3, r, now);
    ThreeStored(k1, k2, k3, ttlSeconds, now, r);
    var s4 := Lookup(s3, k1, now).1;
    assert Without([k1], k1) == [];
    assert Without([k2, k1], k1) == [k2] + Without([k1], k1);
    assert Without([k3, k2, k1], k1) == [k3] + Without([k2, k1], k1);
    assert s4 == s3.(lru := [k1, k3, k2]);
    var s5 := Store(s4, k4, r, now);
    assert s5.lru == [k4, k1, k3];
    assert s5.items.Keys == {k1, k3, k4};
  }

  /** Three distinct keys stored at one instant into a cache of capacity 3: all are kept, newest first. */
  lemma ThreeStored(k1: string, k2: string, k3: string, ttlSeconds: nat, now: Instant, r: CachedResponse)
    requires k1 != k2 && k1 != k3 && k2 != k3
    ensures var e := (k: string) => CacheEntry(k, r, now + ttlSeconds * Second);
      Store(Store(Store(NewCache(3, ttlSeconds), k1, r, now), k2, r, now), k3, r, now)
        == CacheState(3, ttlSeconds * Second, map[k1 := e(k1), k2 := e(k2), k3 := e(k3)], [k3, k2, k1])
  {
    var s1 := Store(NewCache(3, ttlSeconds), k1, r, now);
    assert s1.lru == [k1];
    var s2 := Store(s1, k2, r, now);
    assert s2.lru == [k2, k1];
  }

  // ---------------------------------------------------------------------------
  // The cache object

  /** Go `Cache`: capacity and ttl are fixed at construction; the map and the list change in place. */
  class Cache {
    const capacity: int
    const ttl: Duration
    var items: map<string, CacheEntry>
    var lru: seq<string>

    ghost function State(): CacheState
      reads this
    {
      CacheState(capacity, ttl, items, lru)
    }

    ghost predicate Valid()
      reads this
    {
      ValidCache(State())
    }

    /** Go `NewCache`. */
    constructor (capacity: int, ttlSeconds: int)
      ensures Valid() && State() == NewCache(capacity, ttlSeconds)
    {
      this.capacity := capacity;
      ttl := ttlSeconds * Second;
      items := map[];
      lru := [];
    }

    method Get(key: string, now: Instant) returns (resp: Option<CachedResponse>)
      requires Valid()
      modifies this
      ensures Valid()
      ensures (resp, State()) == Lookup(old(State()), key, now)
    {
      LookupKeepsValid(State(), key, now);
      if key in items {
        var entry := items[key];
        if now > entry.expiry {
          RemoveElement(key);
          return None;
        }
        lru := Promote(lru, key);
        return Some(entry.response);
      }
      return None;
    }

    method Set(key: string, response: CachedResponse, now: Instant)
      requires Valid()
      modifies this
      ensures Valid()
      ensures State() == Store(old(State()), key, response, now)
    {
      StoreKeepsValid(State(), key, response, now);
      Put(key, response, now);
    }

    /** The body of Go `Set`: update in place and promote, or push to the front and evict past capacity. */
    method Put(key: string, response: CachedResponse, now: Instant)
      modifies this
      ensures State() == Store(old(State()), key, response, now)
    {
      if key in items {
        var entry := items[key];
        items := items[key := entry.(response := response, expiry := now + ttl)];
        lru := Promote(lru, key);
        return;
      }
      PushFront(CacheEntry(key, response, now + ttl));
      if |lru| > capacity {
        Evict();
      }
    }

    /** `list.PushFront` and the map insertion of a new entry. */
    method PushFront(entry: CacheEntry)
      modifies this
      ensures State() == old(State()).(items := old(items)[entry.key := entry], lru := [entry.key] + old(lru))
    {
      lru := [entry.key] + lru;
      items := items[entry.key := entry];
    }

    /** Go `evict`. */
    method Evict()
      modifies this
      ensures State() == EvictTail(old(State()))
    {
      if lru != [] {
        var back := lru[|lru| - 1];
        items := items - {back};
        lru := lru[..|lru| - 1];
      }
    }

    /** Go `removeElement`. */
    method RemoveElement(key: string)
      modifies this
      ensures State() == RemoveKey(old(State()), key)
    {
      items := items - {key};
      lru := Without(lru, key);
    }

    method Clear()
      requires Valid()
      modifies this
      ensures Valid() && State() == Cleared(old(State()))
    {
      items := map[];
      lru := [];
    }

    /** Go `Size`: the list length, which is also the number of entries, within the capacity. */
    method Size() returns (n: int)
      requires Valid()
      ensures n == |lru| && n == |items| && n <= Bound(capacity)
    {
      SizeIsEntryCount(State());
      n := |lru|;
    }

    /** Go `Stats`: the number of entries and the capacity. */
    method Stats() returns (size: int, cap: int)
      requires Valid()
      ensures size == |items| && cap == capacity
    {
      SizeIsEntryCount(State());
      size, cap := |lru|, capacity;
    }
  }
}
