/**
 * The caching stage of middleware.go: the cache key, the eligibility test,
 * the response writer that captures what the next handler produces, and the
 * HIT / MISS / BYPASS decision.
 *
 * The next handler is given as the list of calls it makes on its response
 * writer (`HandlerCall`); running it is replaying that list. The clock is given
 * as two parameters: `now` is read by the lookup before the handler runs, and
 * `after` by the store once it has returned. The cache is the `Cache` class of
 * ResponseCache.
 */
module Middleware {
  import opened Wrappers
  import opened Clock
  import opened Http
  import opened ResponseCache

  const XCache := "X-Cache"
  const CacheControl := "Cache-Control"
  const MethodGet := "GET"

  // ---------------------------------------------------------------------------
  // Cache key

  /** Go `generateCacheKey`: the method and the URL, joined by '|'. */
  function CacheKey(req: Request): string
  {
    req.httpMethod + "|" + req.url
  }

  /**
   * The key identifies the request by method and URL: equal methods and URLs give
   * equal keys, and, for methods without a '|', equal keys come only from equal
   * methods and URLs.
   */
  lemma CacheKeyIdentifies(a: Request, b: Request)
    requires '|' !in a.httpMethod && '|' !in b.httpMethod
    ensures CacheKey(a) == CacheKey(b) <==> a.httpMethod == b.httpMethod && a.url == b.url
  {
    if CacheKey(a) == CacheKey(b) {
      FirstBar(a.httpMethod, a.url);
      FirstBar(b.httpMethod, b.url);
      var k, ma, mb := CacheKey(a), a.httpMethod, b.httpMethod;
      assert |ma| == |mb|;
      assert ma == k[..|ma|] && mb == k[..|mb|];
      assert a.url == k[|ma| + 1..] && b.url == k[|mb| + 1..];
    }
  }

  /** In a key, the first '|' is the one after the method. */
  lemma FirstBar(m: string, u: string)
    requires '|' !in m
    ensures (m + "|" + u)[|m|] == '|'
    ensures forall i :: 0 <= i < |m| ==> (m + "|" + u)[i] != '|'
  {
    forall i | 0 <= i < |m| ensures (m + "|" + u)[i] != '|' {
      assert (m + "|" + u)[i] == m[i];
    }
  }

  // ---------------------------------------------------------------------------
  // Eligibility

  /** `sub` occurs in `s` at index `i`. */
  predicate OccursAt(s: string, sub: string, i: nat)
  {
    i + |sub| <= |s| && s[i..i + |sub|] == sub
  }

  lemma OccursShift(s: string, sub: string)
    requires s != []
    ensures forall i: nat :: OccursAt(s[1..], sub, i) <==> OccursAt(s, sub, i + 1)
  {
    forall i: nat | OccursAt(s, sub, i + 1) ensures OccursAt(s[1..], sub, i) {
      assert s[1..][i..i + |sub|] == s[i + 1..i + 1 + |sub|];
    }
    forall i: nat | OccursAt(s[1..], sub, i) ensures OccursAt(s, sub, i + 1) {
      assert s[1..][i..i + |sub|] == s[i + 1..i + 1 + |sub|];
    }
  }

  /** Go `strings.Contains`: is `sub` a substring of `s`? */
  function Contains(s: string, sub: string): (b: bool)
    ensures b <==> exists i: nat :: OccursAt(s, sub, i)
    decreases |s|
  {
    if sub <= s then
      assert OccursAt(s, sub, 0);
      true
    else if s == [] then
      assert forall i: nat :: !OccursAt(s, sub, i);
      false
    else
      OccursShift(s, sub);
      assert !OccursAt(s, sub, 0);
      assert forall i: nat :: OccursAt(s, sub, i) ==> i == 0 || OccursAt(s[1..], sub, i - 1);
      Contains(s[1..], sub)
  }

  /**
   * Go `shouldCacheResponse`: only GET requests, only statuses below 400, and
   * only when Cache-Control names neither "no-cache" nor "private" anywhere in it.
   */
  function ShouldCache(req: Request, status: int, header: Header): (b: bool)
    ensures b <==>
      && req.httpMethod == MethodGet
      && status < 400
      && !(exists i: nat :: OccursAt(HeaderGet(header, CacheControl), "no-cache", i))
      && !(exists i: nat :: OccursAt(HeaderGet(header, CacheControl), "private", i))
  {
    if req.httpMethod != MethodGet then false
    else if status >= 400 then false
    else
      var cacheControl := HeaderGet(header, CacheControl);
      if Contains(cacheControl, "no-cache") || Contains(cacheControl, "private") then false
      else true
  }

  /** The eligibility cases of middleware_test.go. */
  lemma ShouldCacheCases(url: string, h: Header, remoteAddr: string)
    ensures ShouldCache(Request("GET", url, h, remoteAddr), 200, map[])
    ensures !ShouldCache(Request("POST", url, h, remoteAddr), 200, map[])
    ensures !ShouldCache(Request("GET", url, h, remoteAddr), 404, map[])
    ensures !ShouldCache(Request("GET", url, h, remoteAddr), 200, map[CacheControl := ["no-cache"]])
    ensures !ShouldCache(Request("GET", url, h, remoteAddr), 200, map[CacheControl := ["private, max-age=3600"]])
  {
    assert OccursAt("no-cache", "no-cache", 0);
    assert OccursAt("private, max-age=3600", "private", 0);
    assert forall i: nat :: !OccursAt("", "no-cache", i) && !OccursAt("", "private", i);
  }

  // ---------------------------------------------------------------------------
  // The capturing response writer

  /** The fields of Go's `cachingResponseWriter`, and the writer it wraps. */
  datatype CaptureState = CaptureState(statusCode: int, body: seq<byte>, written: bool, sink: SinkState)

  /** Go `newCachingResponseWriter`. */
  function NewCapture(sink: SinkState): CaptureState
  {
    CaptureState(StatusOK, [], false, sink)
  }

  /** Go `cachingResponseWriter.WriteHeader`: only the first call latches the status and forwards it. */
  function CaptureWriteHeader(c: CaptureState, code: int): CaptureState
  {
    if !c.written then c.(statusCode := code, sink := SinkWriteHeader(c.sink, code), written := true)
    else c
  }

  /** Go `cachingResponseWriter.Write`: commit the current status if needed, keep the data, forward it. */
  function CaptureWrite(c: CaptureState, data: seq<byte>): CaptureState
  {
    var c1 := if !c.written then CaptureWriteHeader(c, c.statusCode) else c;
    c1.(body := c1.body + data, sink := SinkWrite(c1.sink, data))
  }

  /** `crw.Header().Set(name, value)`: Header returns the wrapped writer's map. */
  function CaptureSetHeader(c: CaptureState, name: string, value: string): CaptureState
  {
    c.(sink := SinkSetHeader(c.sink, name, value))
  }

  /** The capture has committed exactly when the wrapped writer has, and with the same status. */
  predicate Synced(c: CaptureState)
  {
    && c.written == c.sink.committed
    && (c.written ==> c.sink.sentStatus == c.statusCode)
  }

  /** A fresh capture on a fresh writer: status 200, no body, nothing written, in step with the writer. */
  lemma NewCaptureSynced(h: Header)
    ensures var c := NewCapture(FreshSink(h));
      c.statusCode == StatusOK && c.body == [] && !c.written && Synced(c)
  {
  }

  /** Only the first WriteHeader has an effect; the downstream writer gets the same status. */
  lemma WriteHeaderLatches(c: CaptureState, code: int, code2: int)
    requires Synced(c)
    ensures var c1 := CaptureWriteHeader(c, code);
      && Synced(c1) && c1.written
      && c1.statusCode == (if c.written then c.statusCode else code)
      && CaptureWriteHeader(c1, code2) == c1
  {
  }

  /** Write keeps the data and forwards it, committing the current status (200 by default) first. */
  lemma WriteKeepsAndForwards(c: CaptureState, data: seq<byte>)
    requires Synced(c)
    ensures var c1 := CaptureWrite(c, data);
      && Synced(c1) && c1.written
      && c1.statusCode == c.statusCode
      && c1.body == c.body + data
      && c1.sink.body == c.sink.body + data
  {
  }

  /** Go `cachingResponseWriter`. The `headers` field is allocated and never used, as in the source. */
  class CachingResponseWriter {
    const w: ResponseSink
    var statusCode: int
    var body: seq<byte>
    var headers: Header
    var written: bool

    ghost function State(): CaptureState
      reads this, w
    {
      CaptureState(statusCode, body, written, w.State())
    }

    /** Go `newCachingResponseWriter`. */
    constructor (w: ResponseSink)
      ensures this.w == w && State() == NewCapture(w.State()) && headers == map[]
    {
      this.w := w;
      statusCode := StatusOK;
      body := [];
      headers := map[];
      written := false;
    }

    method WriteHeader(code: int)
      modifies this, w
      ensures State() == CaptureWriteHeader(old(State()), code)
    {
      if !written {
        statusCode := code;
        w.WriteHeader(code);
        written := true;
      }
    }

    method Write(data: seq<byte>) returns (n: int)
      modifies this, w
      ensures State() == CaptureWrite(old(State()), data)
      ensures n == |data|
    {
      if !written {
        WriteHeader(statusCode);
      }
      body := body + data;
      n := w.Write(data);
    }

    /** `crw.Header().Set(name, value)`. */
    method SetHeader(name: string, value: string)
      modifies w
      ensures State() == CaptureSetHeader(old(State()), name, value)
    {
      w.SetHeader(name, value);
    }
  }

  // ---------------------------------------------------------------------------
  // The next handler, run on the capturing writer

  function Step(c: CaptureState, call: HandlerCall): CaptureState
  {
    match call
    case SetHeader(name, value) => CaptureSetHeader(c, name, value)
    case WriteHeader(code) => CaptureWriteHeader(c, code)
    case Write(data) => CaptureWrite(c, data)
  }

  /** `next.ServeHTTP(crw, r)`: the handler's calls, in order. */
  function Replay(c: CaptureState, calls: seq<HandlerCall>): CaptureState
    decreases |calls|
  {
    if calls == [] then c else Replay(Step(c, calls[0]), calls[1..])
  }

  /** What one call does to a capture that is in step with its writer. */
  lemma StepMeaning(c: CaptureState, call: HandlerCall)
    requires Synced(c)
    ensures Synced(Step(c, call))
    ensures Step(c, call).body == c.body + Output(call)
    ensures Step(c, call).sink.body == c.sink.body + Output(call)
    ensures Step(c, call).written == (c.written || !call.SetHeader?)
    ensures Step(c, call).statusCode ==
      (if c.written || call.SetHeader? then c.statusCode else if call.WriteHeader? then call.code else c.statusCode)
    ensures Step(c, call).sink.header == HeaderBy(c.sink.header, call)
  {
  }

  /**
   * What the capture holds after the handler ran: the body is the concatenation
   * of all writes, which the client receives too; the status is the one the first
   * committing call latched; it is in step with the downstream writer throughout.
   */
  lemma {:induction false} ReplayMeaning(c: CaptureState, calls: seq<HandlerCall>)
    requires Synced(c)
    ensures Synced(Replay(c, calls))
    ensures Replay(c, calls).body == c.body + Written(calls)
    ensures Replay(c, calls).sink.body == c.sink.body + Written(calls)
    ensures Replay(c, calls).statusCode == (if c.written then c.statusCode else LatchedStatus(calls, c.statusCode))
    ensures Replay(c, calls).written == (c.written || Commits(calls))
    ensures Replay(c, calls).sink.header == HeaderAfter(c.sink.header, calls)
    decreases |calls|
  {
    if calls != [] {
      var c1 := Step(c, calls[0]);
      StepMeaning(c, calls[0]);
      ReplayMeaning(c1, calls[1..]);
      CommitsCons(calls);
      assert c.body + Output(calls[0]) + Written(calls[1..]) == c.body + Written(calls);
      assert c.sink.body + Output(calls[0]) + Written(calls[1..]) == c.sink.body + Written(calls);
    } else {
      assert !Commits(calls);
    }
  }

  /** Run the next handler on the capturing writer. */
  method ServeNext(crw: CachingResponseWriter, calls: seq<HandlerCall>)
    modifies crw, crw.w
    ensures crw.State() == Replay(old(crw.State()), calls)
  {
    for i := 0 to |calls|
      invariant Replay(old(crw.State()), calls) == Replay(crw.State(), calls[i..])
    {
      match calls[i] {
        case SetHeader(name, value) => crw.SetHeader(name, value);
        case WriteHeader(code) => crw.WriteHeader(code);
        case Write(data) => var _ := crw.Write(data);
      }
      assert calls[i..][1..] == calls[i + 1..];
    }
  }

  // ---------------------------------------------------------------------------
  // Header maps on the HIT and MISS paths

  /** `Header.Add(name, v)` for each `v` of `vs`, in order. */
  function AddValues(h: Header, name: string, vs: seq<string>): Header
    decreases |vs|
  {
    if vs == [] then h else HeaderAdd(AddValues(h, name, vs[..|vs| - 1]), name, vs[|vs| - 1])
  }

  /** Adding several values appends them, in order, to those already under the name. */
  lemma {:induction false} AddValuesAppends(h: Header, name: string, vs: seq<string>)
    ensures AddValues(h, name, vs) == if vs == [] then h else h[name := Values(h, name) + vs]
    decreases |vs|
  {
    if vs != [] {
      var init, v := vs[..|vs| - 1], vs[|vs| - 1];
      assert init + [v] == vs;
      AddValuesAppends(h, name, init);
      if init == [] {
        assert AddValues(h, name, vs) == HeaderAdd(h, name, v);
      } else {
        var h1 := h[name := Values(h, name) + init];
        assert AddValues(h, name, vs) == HeaderAdd(h1, name, v);
        assert Values(h, name) + init + [v] == Values(h, name) + vs;
        UpdateTwice(h, name, Values(h, name) + init, Values(h, name) + vs);
      }
    }
  }

  lemma UpdateTwice(h: Header, name: string, first: seq<string>, second: seq<string>)
    ensures h[name := first][name := second] == h[name := second]
  {
  }

  /** `h` with the values of `extra` under the names in `names` appended. */
  function MergedHeader(h: Header, extra: Header, names: set<string>): Header
  {
    map k | k in h.Keys + (names * extra.Keys) && (k in h || Values(extra, k) != []) ::
      Values(h, k) + (if k in names then Values(extra, k) else [])
  }

  /** Adding every value of `extra` to `h`: each name ends with its values in `h`, then those in `extra`. */
  function Merged(h: Header, extra: Header): (r: Header)
    ensures forall name :: Values(r, name) == Values(h, name) + Values(extra, name)
    ensures forall name :: name in r <==> name in h || Values(extra, name) != []
  {
    MergedHeader(h, extra, extra.Keys)
  }

  /** Membership and values of a partial merge, name by name. */
  lemma MergedAt(h: Header, extra: Header, names: set<string>, k: string)
    ensures k in MergedHeader(h, extra, names) <==> k in h || (k in names && Values(extra, k) != [])
    ensures Values(MergedHeader(h, extra, names), k) == Values(h, k) + (if k in names then Values(extra, k) else [])
  {
  }

  lemma MergeStep(h: Header, extra: Header, names: set<string>, key: string)
    requires key in extra && key !in names
    ensures (if extra[key] == [] then MergedHeader(h, extra, names)
             else MergedHeader(h, extra, names)[key := Values(MergedHeader(h, extra, names), key) + extra[key]])
            == MergedHeader(h, extra, names + {key})
  {
    var m := MergedHeader(h, extra, names);
    var rhs := MergedHeader(h, extra, names + {key});
    if extra[key] == [] {
      MergeSame(m, rhs, h, extra, names, key);
    } else {
      MergeAppend(m, rhs, h, extra, names, key);
    }
  }

  lemma MergeSame(m: Header, rhs: Header, h: Header, extra: Header, names: set<string>, key: string)
    requires key in extra && key !in names && extra[key] == []
    requires m == MergedHeader(h, extra, names) && rhs == MergedHeader(h, extra, names + {key})
    ensures m == rhs
  {
    forall k ensures k in m <==> k in rhs
    ensures k in m ==> m[k] == rhs[k]
    {
      MergedAt(h, extra, names, k);
      MergedAt(h, extra, names + {key}, k);
    }
  }

  lemma MergeAppend(m: Header, rhs: Header, h: Header, extra: Header, names: set<string>, key: string)
    requires key in extra && key !in names && extra[key] != []
    requires m == MergedHeader(h, extra, names) && rhs == MergedHeader(h, extra, names + {key})
    ensures m[key := Values(m, key) + extra[key]] == rhs
  {
    var lhs := m[key := Values(m, key) + extra[key]];
    forall k ensures k in lhs <==> k in rhs
    ensures k in lhs ==> lhs[k] == rhs[k]
    {
      MergedAt(h, extra, names, k);
      MergedAt(h, extra, names + {key}, k);
    }
  }

  /** One name's values added to a partial merge extend it by that name. */
  lemma MergeAdded(h: Header, extra: Header, names: set<string>, key: string, added: Header)
    requires key in extra && key !in names
    requires added == AddValues(MergedHeader(h, extra, names), key, extra[key])
    ensures added == MergedHeader(h, extra, names + {key})
  {
    AddValuesAppends(MergedHeader(h, extra, names), key, extra[key]);
    MergeStep(h, extra, names, key);
  }

  lemma MergedNone(h: Header, extra: Header)
    ensures MergedHeader(h, extra, {}) == h
  {
    var m := MergedHeader(h, extra, {});
    assert m.Keys == h.Keys;
    forall k | k in m ensures m[k] == h[k] {
    }
  }

  /** The inner loop of the HIT path: `w.Header().Add(key, value)` for each value in order. */
  method AddAll(w: ResponseSink, key: string, values: seq<string>)
    modifies w
    ensures w.State() == old(w.State()).(header := AddValues(old(w.header), key, values))
  {
    ghost var h0 := w.header;
    for j := 0 to |values|
      invariant w.header == AddValues(h0, key, values[..j])
      invariant w.State() == old(w.State()).(header := w.header)
    {
      assert values[..j + 1][..j] == values[..j];
      w.AddHeader(key, values[j]);
    }
    assert values[..|values|] == values;
  }

  /** The HIT path's nested loops: every stored value added to the client's header map. */
  method AddHeaders(w: ResponseSink, extra: Header)
    modifies w
    ensures w.State() == old(w.State()).(header := Merged(old(w.header), extra))
  {
    ghost var h0 := w.header;
    var names := extra.Keys;
    ghost var done: set<string> := {};
    MergedNone(h0, extra);
    while names != {}
      invariant names + done == extra.Keys && names !! done
      invariant w.header == MergedHeader(h0, extra, done)
      invariant w.State() == old(w.State()).(header := w.header)
      decreases names
    {
      var key :| key in names;
      AddAll(w, key, extra[key]);
      MergeAdded(h0, extra, done, key, w.header);
      done := done + {key};
      names := names - {key};
    }
    assert done == extra.Keys;
    assert w.header == Merged(h0, extra);
  }

  /** The MISS path's header copy: every name with a copy of its values. */
  method CopyHeader(h: Header) returns (c: Header)
    ensures c == h
  {
    c := map[];
    var todo := h.Keys;
    while todo != {}
      invariant todo <= h.Keys
      invariant c.Keys == h.Keys - todo
      invariant forall k :: k in c ==> c[k] == h[k]
      decreases todo
    {
      var key :| key in todo;
      var values := h[key];
      c := c[key := values[..]];
      todo := todo - {key};
    }
  }

  // ---------------------------------------------------------------------------
  // The caching stage

  /** The value `cachingMiddleware` puts in X-Cache. */
  datatype Outcome = Hit | Miss | Bypass

  /**
   * `cachingMiddleware` for one request: the outcome, the cache after it, and the client's
   * writer. The lookup reads the clock at `now`; the stored response is created, and its
   * expiry counted, from `after`, once the handler has returned.
   */
  function CachingStage(cs: CacheState, sink: SinkState, req: Request, next: seq<HandlerCall>,
                        now: Instant, after: Instant)
    : (Outcome, CacheState, SinkState)
  {
    var key := CacheKey(req);
    var (found, cs1) := Lookup(cs, key, now);
    match found
    case Some(resp) =>
      var s1 := SinkSetHeader(sink.(header := Merged(sink.header, resp.headers)), XCache, "HIT");
      (Hit, cs1, SinkWrite(SinkWriteHeader(s1, resp.statusCode), resp.body))
    case None =>
      var c := Replay(NewCapture(sink), next);
      if ShouldCache(req, c.statusCode, c.sink.header) then
        var stored := CachedResponse(c.statusCode, c.sink.header, c.body, after);
        (Miss, Store(cs1, key, stored, after), SinkSetHeader(c.sink, XCache, "MISS"))
      else
        (Bypass, cs1, SinkSetHeader(c.sink, XCache, "BYPASS"))
  }

  /** Go `cachingMiddleware(cache, next)` serving one request on writer `w`. */
  method CachingMiddleware(cache: Cache, w: ResponseSink, req: Request, next: seq<HandlerCall>,
                           now: Instant, after: Instant)
    returns (outcome: Outcome)
    requires cache.Valid()
    modifies cache, w
    ensures cache.Valid()
    ensures (outcome, cache.State(), w.State()) == CachingStage(old(cache.State()), old(w.State()), req, next, now, after)
  {
    var cacheKey := CacheKey(req);
    var cached := cache.Get(cacheKey, now);
    if cached.Some? {
      var resp := cached.value;
      AddHeaders(w, resp.headers);
      w.SetHeader(XCache, "HIT");
      w.WriteHeader(resp.statusCode);
      var _ := w.Write(resp.body);
      return Hit;
    }
    var crw := new CachingResponseWriter(w);
    ServeNext(crw, next);
    if ShouldCache(req, crw.statusCode, w.header) {
      var headers := CopyHeader(w.header);
      var resp := CachedResponse(crw.statusCode, headers, crw.body, after);
      cache.Set(cacheKey, resp, after);
      w.SetHeader(XCache, "MISS");
      outcome := Miss;
    } else {
      w.SetHeader(XCache, "BYPASS");
      outcome := Bypass;
    }
  }

  // Properties of the stage

  /**
   * A hit does not run the handler: the client gets the stored status and body,
   * the stored headers added to its own, and X-Cache "HIT".
   */
  lemma HitServesStored(cs: CacheState, sink: SinkState, req: Request, next: seq<HandlerCall>,
                        now: Instant, after: Instant, resp: CachedResponse)
    requires Lookup(cs, CacheKey(req), now).0 == Some(resp) && !sink.committed
    ensures var (out, cs', s') := CachingStage(cs, sink, req, next, now, after);
      && out == Hit
      && cs' == Lookup(cs, CacheKey(req), now).1
      && s'.committed && s'.sentStatus == resp.statusCode
      && s'.body == sink.body + resp.body
      && HeaderGet(s'.sentHeader, XCache) == "HIT"
      && (forall name :: name != XCache ==>
            Values(s'.sentHeader, name) == Values(sink.header, name) + Values(resp.headers, name))
    ensures forall other: seq<HandlerCall>, otherAfter: Instant ::
      CachingStage(cs, sink, req, other, now, otherAfter) == CachingStage(cs, sink, req, next, now, after)
  {
  }

  /**
   * A miss runs the handler once on a fresh writer. The client gets every byte the
   * handler wrote. An eligible result is stored under the request's key with the
   * latched status, the final headers and the whole body, created at `after` and
   * found until `after` plus the ttl, and X-Cache is "MISS".
   * Otherwise nothing is stored, the key stays absent, and X-Cache is "BYPASS".
   */
  lemma MissRunsHandler(cs: CacheState, h: Header, req: Request, next: seq<HandlerCall>,
                        now: Instant, after: Instant, later: Instant)
    requires ValidCache(cs) && cs.capacity >= 1 && later <= after + cs.ttl
    requires Lookup(cs, CacheKey(req), now).0 == None
    ensures var (out, cs', s') := CachingStage(cs, FreshSink(h), req, next, now, after);
      var status := LatchedStatus(next, StatusOK);
      var header := HeaderAfter(h, next);
      && s'.body == Written(next)
      && s'.committed == Commits(next)
      && (out == Miss <==> ShouldCache(req, status, header))
      && (out == Miss ==>
            && Lookup(cs', CacheKey(req), later).0 == Some(CachedResponse(status, header, Written(next), after))
            && HeaderGet(s'.header, XCache) == "MISS")
      && (out == Bypass ==>
            && cs' == Lookup(cs, CacheKey(req), now).1
            && Lookup(cs', CacheKey(req), later).0 == None
            && HeaderGet(s'.header, XCache) == "BYPASS")
  {
    var key := CacheKey(req);
    var cs1 := Lookup(cs, key, now).1;
    var c0 := NewCapture(FreshSink(h));
    ReplayMeaning(c0, next);
    LookupKeepsValid(cs, key, now);
    assert key !in cs1.items by {
      if key in cs.items {
        LookupExpired(cs, key, now);
      }
    }
    var c := Replay(c0, next);
    if ShouldCache(req, c.statusCode, c.sink.header) {
      StoreThenLookup(cs1, key, CachedResponse(c.statusCode, c.sink.header, c.body, after), after, later);
    }
  }

  /**
   * Two GET requests for the same URL: an eligible first response is what the second
   * request is served, when it arrives within the ttl of the first one's store.
   */
  lemma MissThenHit(cs: CacheState, h: Header, req: Request, next: seq<HandlerCall>, now: Instant, after: Instant,
                    sink2: SinkState, req2: Request, next2: seq<HandlerCall>, later: Instant, after2: Instant)
    requires ValidCache(cs) && cs.capacity >= 1 && later <= after + cs.ttl
    requires Lookup(cs, CacheKey(req), now).0 == None
    requires CacheKey(req2) == CacheKey(req) && !sink2.committed
    requires CachingStage(cs, FreshSink(h), req, next, now, after).0 == Miss
    ensures var cs' := CachingStage(cs, FreshSink(h), req, next, now, after).1;
      var (out2, _, s2) := CachingStage(cs', sink2, req2, next2, later, after2);
      && out2 == Hit
      && s2.sentStatus == LatchedStatus(next, StatusOK)
      && s2.body == sink2.body + Written(next)
  {
    MissRunsHandler(cs, h, req, next, now, after, later);
    var cs' := CachingStage(cs, FreshSink(h), req, next, now, after).1;
    var stored := CachedResponse(LatchedStatus(next, StatusOK), HeaderAfter(h, next), Written(next), after);
    HitServesStored(cs', sink2, req2, next2, later, after2, stored);
  }

  // ---------------------------------------------------------------------------
  // X-Cache on the MISS and BYPASS paths

  /**
   * As written, the MISS and BYPASS header is set after the handler has returned. A
   * handler that wrote a body has committed the response by then, so the client
   * receives a response without X-Cache, although the writer's live map shows "MISS".
   */
  lemma MissHeaderNotDelivered(url: string, remoteAddr: string, now: Instant, after: Instant)
    ensures var (out, _, s') :=
      CachingStage(NewCache(10, 60), FreshSink(map[]), Request("GET", url, map[], remoteAddr), [Write([65])], now, after);
      && out == Miss
      && HeaderGet(s'.header, XCache) == "MISS"
      && HeaderGet(Delivered(s').sentHeader, XCache) == ""
  {
    var req := Request("GET", url, map[], remoteAddr);
    ShouldCacheCases(url, map[], remoteAddr);
    assert Replay(NewCapture(FreshSink(map[])), [Write([65])]).sink.sentHeader == map[];
  }

  /** The X-Cache value for a response that commits with `status` and `header`. */
  function Verdict(req: Request, status: int, header: Header): string
  {
    if ShouldCache(req, status, header) then "MISS" else "BYPASS"
  }

  /** The corrected writer's commit hook: X-Cache is set just before the status goes out. */
  function Announce(c: CaptureState, req: Request, code: int): CaptureState
  {
    if c.written then c else CaptureSetHeader(c, XCache, Verdict(req, code, c.sink.header))
  }

  function FixedStep(req: Request, c: CaptureState, call: HandlerCall): CaptureState
  {
    match call
    case SetHeader(name, value) => CaptureSetHeader(c, name, value)
    case WriteHeader(code) => CaptureWriteHeader(Announce(c, req, code), code)
    case Write(data) => CaptureWrite(Announce(c, req, c.statusCode), data)
  }

  function FixedReplay(req: Request, c: CaptureState, calls: seq<HandlerCall>): CaptureState
    decreases |calls|
  {
    if calls == [] then c else FixedReplay(req, FixedStep(req, c, calls[0]), calls[1..])
  }

  /** Once committed, the headers that went out carry the verdict for the committed status. */
  predicate Announced(req: Request, c: CaptureState)
  {
    && Synced(c)
    && (c.written ==> HeaderGet(c.sink.sentHeader, XCache) == Verdict(req, c.statusCode, c.sink.sentHeader))
  }

  /** Setting X-Cache does not change Cache-Control, so it does not change the verdict. */
  lemma VerdictIgnoresXCache(req: Request, status: int, h: Header, v: string)
    ensures Verdict(req, status, HeaderSet(h, XCache, v)) == Verdict(req, status, h)
  {
    HeaderSetThenGet(h, XCache, v, CacheControl);
  }

  lemma FixedStepAnnounced(req: Request, c: CaptureState, call: HandlerCall)
    requires Announced(req, c)
    ensures Announced(req, FixedStep(req, c, call))
    ensures FixedStep(req, c, call).sink.body == c.sink.body + Output(call)
  {
    if !c.written && !call.SetHeader? {
      var code := if call.WriteHeader? then call.code else c.statusCode;
      var v := Verdict(req, code, c.sink.header);
      VerdictIgnoresXCache(req, code, c.sink.header, v);
      HeaderSetThenGet(c.sink.header, XCache, v, XCache);
    }
  }

  lemma {:induction false} FixedReplayAnnounced(req: Request, c: CaptureState, calls: seq<HandlerCall>)
    requires Announced(req, c)
    ensures Announced(req, FixedReplay(req, c, calls))
    ensures FixedReplay(req, c, calls).sink.body == c.sink.body + Written(calls)
    decreases |calls|
  {
    if calls != [] {
      FixedStepAnnounced(req, c, calls[0]);
      FixedReplayAnnounced(req, FixedStep(req, c, calls[0]), calls[1..]);
      assert c.sink.body + Output(calls[0]) + Written(calls[1..]) == c.sink.body + Written(calls);
    }
  }

  /**
   * The corrected stage: the capturing writer sets X-Cache when the response commits,
   * deciding on the status and headers being committed; when the handler commits
   * nothing, X-Cache is set afterwards, before the server commits.
   */
  function CachingStageFixed(cs: CacheState, sink: SinkState, req: Request, next: seq<HandlerCall>,
                             now: Instant, after: Instant)
    : (Outcome, CacheState, SinkState)
  {
    var key := CacheKey(req);
    var (found, cs1) := Lookup(cs, key, now);
    match found
    case Some(resp) =>
      var s1 := SinkSetHeader(sink.(header := Merged(sink.header, resp.headers)), XCache, "HIT");
      (Hit, cs1, SinkWrite(SinkWriteHeader(s1, resp.statusCode), resp.body))
    case None =>
      var c := FixedReplay(req, NewCapture(sink), next);
      var header := if c.written then c.sink.sentHeader else c.sink.header;
      var s' := if c.written then c.sink else SinkSetHeader(c.sink, XCache, Verdict(req, c.statusCode, header));
      if ShouldCache(req, c.statusCode, header) then
        (Miss, Store(cs1, key, CachedResponse(c.statusCode, header, c.body, after), after), s')
      else
        (Bypass, cs1, s')
  }

  /**
   * With the correction, the client receives X-Cache "MISS" exactly when the response
   * was stored and "BYPASS" exactly when it was not, and still every byte the
   * handler wrote.
   */
  lemma FixedDeliversXCache(cs: CacheState, h: Header, req: Request, next: seq<HandlerCall>,
                            now: Instant, after: Instant)
    requires Lookup(cs, CacheKey(req), now).0 == None
    ensures var (out, _, s') := CachingStageFixed(cs, FreshSink(h), req, next, now, after);
      && out != Hit
      && (HeaderGet(Delivered(s').sentHeader, XCache) == "MISS" <==> out == Miss)
      && (HeaderGet(Delivered(s').sentHeader, XCache) == "BYPASS" <==> out == Bypass)
      && s'.body == Written(next)
  {
    var c0 := NewCapture(FreshSink(h));
    FixedReplayAnnounced(req, c0, next);
    var c := FixedReplay(req, c0, next);
    if !c.written {
      var v := Verdict(req, c.statusCode, c.sink.header);
      HeaderSetThenGet(c.sink.header, XCache, v, XCache);
    }
  }
}
