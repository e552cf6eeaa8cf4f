/**
 * The parts of Go's net/http that the pipeline stages touch: header maps,
 * the request fields they read, and the server's response writer. The writer
 * toward the client is an external collaborator; it is modelled only as far
 * as the stages depend on it: a live header map that handlers edit, and a
 * commit point (the first WriteHeader or Write) at which the status and a
 * snapshot of the header map are sent. Header names are taken to be in
 * canonical form already; `textproto` canonicalisation is not modelled.
 */
module Http {

  newtype byte = b: int | 0 <= b < 256

  /** Go's `http.Header`: name to list of values, order within a name kept. */
  type Header = map<string, seq<string>>

  /** The values stored under `name`, or none. */
  function Values(h: Header, name: string): seq<string>
  {
    if name in h then h[name] else []
  }

  /** Go's `Header.Get`: the first value under `name`, or "" when there is none. */
  function HeaderGet(h: Header, name: string): string
  {
    if Values(h, name) == [] then "" else Values(h, name)[0]
  }

  /** Go's `Header.Set`: replace every value under `name` by the single `value`. */
  function HeaderSet(h: Header, name: string, value: string): Header
  {
    h[name := [value]]
  }

  /** Go's `Header.Add`: append `value` to those under `name`. */
  function HeaderAdd(h: Header, name: string, value: string): Header
  {
    h[name := Values(h, name) + [value]]
  }

  /** Get after Add: the first value stays first, so Add changes Get only for a name that had none. */
  lemma HeaderAddThenGet(h: Header, name: string, value: string, other: string)
    ensures HeaderGet(HeaderAdd(h, name, value), name) == (if Values(h, name) == [] then value else HeaderGet(h, name))
    ensures other != name ==> HeaderGet(HeaderAdd(h, name, value), other) == HeaderGet(h, other)
    ensures Values(HeaderAdd(h, name, value), name) == Values(h, name) + [value]
  {
  }

  /** Get after Set: the value just set, and no other name changes. */
  lemma HeaderSetThenGet(h: Header, name: string, value: string, other: string)
    ensures HeaderGet(HeaderSet(h, name, value), name) == value
    ensures other != name ==> HeaderGet(HeaderSet(h, name, value), other) == HeaderGet(h, other)
  {
  }

  /** The request fields the stages read. `url` is `req.URL.String()`. */
  datatype Request = Request(httpMethod: string, url: string, header: Header, remoteAddr: string)

  const StatusOK: int := 200
  const StatusTooManyRequests: int := 429

  /** What the client connection has received so far, and the live header map. */
  datatype SinkState = SinkState(
    header: Header,       // the map `w.Header()` returns; edits after the commit are not sent
    committed: bool,      // the status line and headers have been sent
    sentStatus: int,      // the status sent at the commit
    sentHeader: Header,   // the header map as it was at the commit
    body: seq<byte>)      // every byte written to the client

  /** A response writer on which nothing has happened yet. */
  function FreshSink(header: Header): SinkState
  {
    SinkState(header, false, StatusOK, map[], [])
  }

  /** `WriteHeader(code)`: the first call commits; later calls are ignored. */
  function SinkWriteHeader(s: SinkState, code: int): SinkState
  {
    if s.committed then s
    else s.(committed := true, sentStatus := code, sentHeader := s.header)
  }

  /** `Write(data)`: commits with 200 if nothing was committed, then sends `data`. */
  function SinkWrite(s: SinkState, data: seq<byte>): SinkState
  {
    var c := SinkWriteHeader(s, StatusOK);
    c.(body := c.body + data)
  }

  function SinkSetHeader(s: SinkState, name: string, value: string): SinkState
  {
    s.(header := HeaderSet(s.header, name, value))
  }

  /** What the client sees once the handler has returned: the server commits with 200 if no one did. */
  function Delivered(s: SinkState): SinkState
  {
    SinkWriteHeader(s, StatusOK)
  }

  /** Once committed, the status and headers the client sees never change again. */
  lemma {:induction false} CommitIsFinal(s: SinkState, code: int, data: seq<byte>, name: string, value: string)
    requires s.committed
    ensures SinkWriteHeader(s, code) == s
    ensures SinkWrite(s, data).sentStatus == s.sentStatus && SinkWrite(s, data).sentHeader == s.sentHeader
    ensures SinkSetHeader(s, name, value).sentHeader == s.sentHeader
    ensures Delivered(SinkSetHeader(s, name, value)).sentHeader == s.sentHeader
  {
  }

  // ---------------------------------------------------------------------------
  // A handler, as the list of calls it makes on its response writer

  /** One call the next handler makes on the writer it is given. */
  datatype HandlerCall =
    | SetHeader(name: string, value: string)
    | WriteHeader(code: int)
    | Write(data: seq<byte>)

  /** The bytes one call sends. */
  function Output(call: HandlerCall): seq<byte>
  {
    if call.Write? then call.data else []
  }

  /** The header map after one call: only Set changes it. */
  function HeaderBy(h: Header, call: HandlerCall): Header
  {
    if call.SetHeader? then HeaderSet(h, call.name, call.value) else h
  }

  /** Everything the handler writes, in order. */
  function Written(calls: seq<HandlerCall>): seq<byte>
    decreases |calls|
  {
    if calls == [] then [] else Output(calls[0]) + Written(calls[1..])
  }

  /** Some call commits the response. */
  predicate Commits(calls: seq<HandlerCall>)
  {
    exists i :: 0 <= i < |calls| && !calls[i].SetHeader?
  }

  /** The status of the first committing call: its code for WriteHeader, `dflt` for Write or none. */
  function LatchedStatus(calls: seq<HandlerCall>, dflt: int): int
    decreases |calls|
  {
    if calls == [] then dflt
    else match calls[0]
      case WriteHeader(code) => code
      case Write(_) => dflt
      case SetHeader(_, _) => LatchedStatus(calls[1..], dflt)
  }

  /** The header map after the handler's Set calls, applied in order. */
  function HeaderAfter(h: Header, calls: seq<HandlerCall>): Header
    decreases |calls|
  {
    if calls == [] then h else HeaderAfter(HeaderBy(h, calls[0]), calls[1..])
  }

  lemma CommitsCons(calls: seq<HandlerCall>)
    requires calls != []
    ensures Commits(calls) <==> !calls[0].SetHeader? || Commits(calls[1..])
  {
    if Commits(calls[1..]) {
      var i :| 0 <= i < |calls[1..]| && !calls[1..][i].SetHeader?;
      assert !calls[i + 1].SetHeader?;
    }
    if Commits(calls) && calls[0].SetHeader? {
      var i :| 0 <= i < |calls| && !calls[i].SetHeader?;
      assert i > 0 && !calls[1..][i - 1].SetHeader?;
    }
  }

  /** One call applied to the writer itself. */
  function SinkStep(s: SinkState, call: HandlerCall): SinkState
  {
    match call
    case SetHeader(name, value) => SinkSetHeader(s, name, value)
    case WriteHeader(code) => SinkWriteHeader(s, code)
    case Write(data) => SinkWrite(s, data)
  }

  /** `next.ServeHTTP(w, r)` on the writer itself: the handler's calls, in order. */
  function Serve(s: SinkState, calls: seq<HandlerCall>): SinkState
    decreases |calls|
  {
    if calls == [] then s else Serve(SinkStep(s, calls[0]), calls[1..])
  }

  /**
   * Running a handler on a writer sends everything it writes, leaves the header map
   * its Set calls make, commits exactly when a call commits, and on an uncommitted
   * writer sends the status of the first committing call.
   */
  lemma {:induction false} ServeMeaning(s: SinkState, calls: seq<HandlerCall>)
    ensures Serve(s, calls).body == s.body + Written(calls)
    ensures Serve(s, calls).header == HeaderAfter(s.header, calls)
    ensures Serve(s, calls).committed == (s.committed || Commits(calls))
    ensures !s.committed && Commits(calls) ==> Serve(s, calls).sentStatus == LatchedStatus(calls, StatusOK)
    ensures s.committed ==> Serve(s, calls).sentStatus == s.sentStatus && Serve(s, calls).sentHeader == s.sentHeader
    decreases |calls|
  {
    if calls != [] {
      ServeMeaning(SinkStep(s, calls[0]), calls[1..]);
      CommitsCons(calls);
      assert s.body + Output(calls[0]) + Written(calls[1..]) == s.body + Written(calls);
    } else {
      assert !Commits(calls);
    }
  }

  /** No call of `calls` sets `name`. */
  predicate LeavesHeader(calls: seq<HandlerCall>, name: string)
  {
    forall i :: 0 <= i < |calls| && calls[i].SetHeader? ==> calls[i].name != name
  }

  /** The value of `name` the client gets if the response were committed now. */
  function Outgoing(s: SinkState, name: string): string
  {
    HeaderGet(Delivered(s).sentHeader, name)
  }

  /**
   * A header set before the handler runs, on a writer not yet committed, reaches the
   * client unchanged when the handler never sets it, whenever the handler commits.
   */
  lemma {:induction false} ServeKeepsHeader(s: SinkState, calls: seq<HandlerCall>, name: string)
    requires LeavesHeader(calls, name)
    ensures Outgoing(Serve(s, calls), name) == Outgoing(s, name)
    decreases |calls|
  {
    if calls != [] {
      var s1 := SinkStep(s, calls[0]);
      if calls[0].SetHeader? {
        assert calls[0].name != name;
        HeaderSetThenGet(s.header, calls[0].name, calls[0].value, name);
      }
      assert Outgoing(s1, name) == Outgoing(s, name);
      assert LeavesHeader(calls[1..], name) by {
        forall i | 0 <= i < |calls[1..]| && calls[1..][i].SetHeader?
          ensures calls[1..][i].name != name
        {
          assert calls[1..][i] == calls[i + 1];
        }
      }
      ServeKeepsHeader(s1, calls[1..], name);
    }
  }

  /** The server's response writer: a live object shared by every stage of a request. */
  class ResponseSink {
    var header: Header
    var committed: bool
    var sentStatus: int
    var sentHeader: Header
    var body: seq<byte>

    ghost function State(): SinkState
      reads this
    {
      SinkState(header, committed, sentStatus, sentHeader, body)
    }

    constructor (header: Header)
      ensures State() == FreshSink(header)
    {
      this.header := header;
      committed := false;
      sentStatus := StatusOK;
      sentHeader := map[];
      body := [];
    }

    method WriteHeader(code: int)
      modifies this
      ensures State() == SinkWriteHeader(old(State()), code)
    {
      if !committed {
        committed := true;
        sentStatus := code;
        sentHeader := header;
      }
    }

    method Write(data: seq<byte>) returns (n: int)
      modifies this
      ensures State() == SinkWrite(old(State()), data)
      ensures n == |data|
    {
      if !committed {
        WriteHeader(StatusOK);
      }
      body := body + data;
      n := |data|;
    }

    method SetHeader(name: string, value: string)
      modifies this
      ensures State() == SinkSetHeader(old(State()), name, value)
    {
      header := HeaderSet(header, name, value);
    }

    method AddHeader(name: string, value: string)
      modifies this
      ensures State() == old(State()).(header := HeaderAdd(old(header), name, value))
    {
      header := HeaderAdd(header, name, value);
    }
  }

  /** Run the next handler on `w` itself. */
  method ServeSink(w: ResponseSink, calls: seq<HandlerCall>)
    modifies w
    ensures w.State() == Serve(old(w.State()), calls)
  {
    for i := 0 to |calls|
      invariant Serve(old(w.State()), calls) == Serve(w.State(), calls[i..])
    {
      match calls[i] {
        case SetHeader(name, value) => w.SetHeader(name, value);
        case WriteHeader(code) => w.WriteHeader(code);
        case Write(data) => var _ := w.Write(data);
      }
      assert calls[i..][1..] == calls[i + 1..];
    }
  }
}
