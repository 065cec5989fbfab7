/**
The user side of the HTTP/1 capture (ebpftracer/l7/http1_parser.go): header blocks put together from
events, requests paired with responses and, when bodies are kept, responses held until their body is
complete. `State` is what an Http1Parser remembers; ParseAt and Flush are functions of it.
*/
module Http1Parser {
  import opened Bytes
  import opened Http1Walk
  import opened Wrappers
  import Utf8

  // ---------------------------------------------------------------------------
  // Start lines
  // ---------------------------------------------------------------------------

  /** The position of the first `sep`, |b| when there is none. */
  function IndexByte(b: bytes, sep: byte): (i: nat)
    ensures i <= |b| && (i < |b| ==> b[i] == sep) && forall k :: 0 <= k < i ==> b[k] != sep
  {
    if b == [] || b[0] == sep then 0 else IndexByte(b[1..], sep) + 1
  }

  /** The part before the first `sep`, all of it when there is none. */
  function Before(b: bytes, sep: byte): bytes {
    b[..IndexByte(b, sep)]
  }

  /** The part after the first `sep`, nothing when there is none. */
  function After(b: bytes, sep: byte): bytes {
    if IndexByte(b, sep) < |b| then b[IndexByte(b, sep) + 1..] else []
  }

  function TrimCr(b: bytes): bytes {
    if b != [] && b[|b| - 1] == CR then b[..|b| - 1] else b
  }

  function StartLine(block: bytes): bytes {
    TrimCr(Before(block, LF))
  }

  predicate IsHttpMethod(m: bytes) {
    m in {Ascii("GET"), Ascii("HEAD"), Ascii("POST"), Ascii("PUT"), Ascii("PATCH"), Ascii("DELETE"), Ascii("CONNECT"),
          Ascii("OPTIONS"), Ascii("TRACE")}
  }

  /** parseHttp1RequestLine: the method and the path. */
  function ParseRequestLine(block: bytes): Option<(bytes, bytes)> {
    var line := StartLine(block);
    var m := Before(line, SP);
    if |m| == |line| || !IsHttpMethod(m) then None else Some((m, Before(After(line, SP), SP)))
  }

  function ParseDigits(b: bytes): Option<nat> {
    if b == [] then Some(0)
    else if !IsDigit(b[|b| - 1]) then None
    else match ParseDigits(b[..|b| - 1])
      case None => None
      case Some(n) => Some(n * 10 + (b[|b| - 1] - 48))
  }

  /** strconv.Atoi on 64 bits. */
  function Atoi(b: bytes): Option<int> {
    var negative := b != [] && b[0] == 45;
    var digits := if b != [] && (b[0] == 45 || b[0] == 43) then b[1..] else b;
    if digits == [] then None
    else match ParseDigits(digits)
      case None => None
      case Some(n) =>
        var v: int := if negative then 0 - n else n;
        if -0x8000_0000_0000_0000 <= v < 0x8000_0000_0000_0000 then Some(v) else None
  }

  const HTTP_SLASH := Ascii("HTTP/")
  const RESPONSE_PREFIX := Ascii("HTTP/1.")

  /** parseHttp1StatusLine: the status code. */
  function ParseStatusLine(block: bytes): Option<int> {
    var line := StartLine(block);
    var version := Before(line, SP);
    if |version| == |line| || !(HTTP_SLASH <= version) then None else Atoi(Before(After(line, SP), SP))
  }

  // ---------------------------------------------------------------------------
  // The data
  // ---------------------------------------------------------------------------

  const HEADERS_MAX: nat := 4096
  const HOLD_MAX: int := 5_000_000_000

  datatype Headers = Headers(contentLength: int, chunked: bool, contentType: bytes, contentEncoding: bytes)

  /** `headersOf` stands for parseHttp1Headers and `keep` for BodyOptions.Decide. */
  datatype Options = Options(enabled: bool, maxBytes: nat, wait: int,
                             headersOf: bytes -> Headers, keep: (bytes, bytes, bytes) -> bool)

  /** bodyCollector: up to max bytes of a body. */
  datatype Collector = Collector(max: nat, buf: bytes)

  const RELEASED := Collector(0, [])

  function Add(c: Collector, b: bytes): Collector {
    if |c.buf| < c.max then c.(buf := c.buf + Take(b, c.max - |c.buf|)) else c
  }

  datatype Pending = Pending(verb: bytes, path: bytes, time: nat, hdr: Headers, body: Collector)

  datatype Exchange = Exchange(req: Pending, status: int, hdr: Headers, body: Collector, duration: int,
                               at: int, lastEvent: int, noBody: bool, released: bool)

  datatype Request = Request(verb: bytes, path: bytes, status: int, duration: int,
                             requestBody: bytes, responseBody: bytes, requestSize: int, responseSize: int, at: int)

  datatype State = State(clientBuf: bytes, clientBufStart: nat, serverBuf: bytes,
                         pending: Option<Pending>, response: Option<Exchange>)

  const EMPTY := State([], 0, [], None, None)

  /** time.Duration(kernelTime - req.kernelTime): a difference of 64-bit counters, as a signed number. */
  function Elapsed(now: nat, since: nat): int {
    var d := (now - since) % 0x1_0000_0000_0000_0000;
    if d < 0x8000_0000_0000_0000 then d else d - 0x1_0000_0000_0000_0000
  }

  lemma ElapsedIsTheDifference(now: nat, since: nat)
    requires -0x8000_0000_0000_0000 <= now - since < 0x8000_0000_0000_0000
    ensures Elapsed(now, since) == now - since
  {
  }

  predicate IsHeld(p: State) {
    p.response.Some? && !p.response.value.released
  }

  // ---------------------------------------------------------------------------
  // Releasing
  // ---------------------------------------------------------------------------

  function FinishBody(o: Options, c: Collector, hdr: Headers): bytes {
    var b := Utf8.CutUtf8(c.buf, o.maxBytes);
    if c.buf == [] || !o.keep(hdr.contentType, hdr.contentEncoding, b) then [] else b
  }

  function Finish(o: Options, ex: Exchange): Request {
    Request(ex.req.verb, ex.req.path, ex.status, ex.duration,
            FinishBody(o, ex.req.body, ex.req.hdr), if ex.noBody then [] else FinishBody(o, ex.body, ex.hdr),
            if ex.req.hdr.chunked then -1 else ex.req.hdr.contentLength,
            if ex.hdr.chunked then -1 else ex.hdr.contentLength, ex.at)
  }

  function Release(ex: Exchange): Exchange {
    ex.(released := true, req := ex.req.(body := RELEASED), body := RELEASED)
  }

  /** finish: the exchange is handed out, and its bodies are given back. */
  function FinishHeld(o: Options, p: State): (State, seq<Request>)
    requires p.response.Some?
  {
    (p.(response := Some(Release(p.response.value))), [Finish(o, p.response.value)])
  }

  function ReleaseResponse(o: Options, p: State): (State, seq<Request>) {
    if IsHeld(p) then FinishHeld(o, p) else (p, [])
  }

  function Flush(o: Options, p: State, now: int): (State, seq<Request>) {
    if IsHeld(p) && (now - p.response.value.lastEvent >= o.wait || now - p.response.value.at >= HOLD_MAX) then FinishHeld(o, p)
    else (p, [])
  }

  // ---------------------------------------------------------------------------
  // Events
  // ---------------------------------------------------------------------------

  function TrimLeadingCrlf(b: bytes): bytes {
    if |b| >= 2 && b[..2] == CRLF then TrimLeadingCrlf(b[2..]) else b
  }

  predicate EndsBlock(buf: bytes) {
    |buf| >= 4 && buf[|buf| - 4..] == HEADER_END
  }

  predicate Complete(buf: bytes) {
    EndsBlock(buf) || |buf| >= HEADERS_MAX
  }

  /** The payload as it is appended to a header buffer: empty lines before a block are dropped. */
  function Incoming(buf: bytes, payload: bytes): bytes {
    if buf == [] then TrimLeadingCrlf(payload) else payload
  }

  function OnRequest(o: Options, p: State, block: bytes, time: nat): (State, seq<Request>) {
    match ParseRequestLine(block)
    case None => (p, [])
    case Some((m, path)) =>
      var (q, out) := if o.enabled then ReleaseResponse(o, p) else (p, []);
      var hdr := if o.enabled then o.headersOf(block) else Headers(0, false, [], []);
      (q.(pending := Some(Pending(m, path, time, hdr, Collector(if o.enabled then o.maxBytes else 0, [])))), out)
  }

  function OnClientHeaders(o: Options, p: State, payload: bytes, time: nat): (State, seq<Request>) {
    var more := Incoming(p.clientBuf, payload);
    if p.clientBuf == [] && more == [] then (p, [])
    else
      var start := if p.clientBuf == [] then time else p.clientBufStart;
      var buf := p.clientBuf + more;
      if Complete(buf) then OnRequest(o, p.(clientBuf := [], clientBufStart := start), buf, start)
      else (p.(clientBuf := buf, clientBufStart := start), [])
  }

  function OnClientData(o: Options, p: State, payload: bytes): State {
    if !o.enabled then p
    else match p.pending
      case Some(req) => p.(pending := Some(req.(body := Add(req.body, payload))))
      case None =>
        match p.response
        case Some(ex) => p.(response := Some(ex.(req := ex.req.(body := Add(ex.req.body, payload)))))
        case None => p
  }

  predicate NoBody(verb: bytes, status: int, hdr: Headers) {
    verb == Ascii("HEAD") || status < 200 || status == 204 || status == 304 || hdr.contentLength == 0
  }

  function OnResponse(o: Options, p: State, block: bytes, time: nat, now: int): (State, seq<Request>) {
    var status := ParseStatusLine(block);
    if !o.enabled then
      if status.None? || p.pending.None? then (p, [])
      else
        var req := p.pending.value;
        (p.(pending := None),
         [Request(req.verb, req.path, status.value, Elapsed(time, req.time), [], [], 0, 0, 0)])
    else
      var (q, out) := ReleaseResponse(o, p);
      if status.None? || q.pending.None? then (q, out)
      else
        var req := q.pending.value;
        var hdr := o.headersOf(block);
        var ex := Exchange(req, status.value, hdr, Collector(o.maxBytes, []), Elapsed(time, req.time), now, now,
                           NoBody(req.verb, status.value, hdr), false);
        var t := q.(pending := None, response := Some(ex));
        if ex.noBody then
          var (u, more) := FinishHeld(o, t);
          (u, out + more)
        else (t, out)
  }

  function OnServerHeaders(o: Options, p: State, payload: bytes, time: nat, now: int): (State, seq<Request>) {
    var more := Incoming(p.serverBuf, payload);
    if p.serverBuf == [] && more == [] then (p, [])
    else
      var buf := p.serverBuf + more;
      if Complete(buf) then OnResponse(o, p.(serverBuf := []), buf, time, now)
      else (p.(serverBuf := buf), [])
  }

  function OnBodyData(o: Options, p: State, payload: bytes, now: int): (State, seq<Request>) {
    if !o.enabled || !IsHeld(p) then (p, [])
    else
      var ex := p.response.value.(body := Add(p.response.value.body, payload), lastEvent := now);
      var q := p.(response := Some(ex));
      if !ex.hdr.chunked && ex.hdr.contentLength > 0 && (|ex.body.buf| >= ex.hdr.contentLength || |ex.body.buf| >= ex.body.max)
      then FinishHeld(o, q)
      else (q, [])
  }

  /** The end of the first header block in b, -1 when it has none. */
  function BlockEnd(b: bytes): (i: int)
    ensures i == -1 || 4 <= i <= |b|
  {
    if |b| < 4 then -1
    else if b[..4] == HEADER_END then 4
    else if BlockEnd(b[1..]) == -1 then -1 else BlockEnd(b[1..]) + 1
  }

  ghost predicate NoneEnds(b: bytes, k: nat)
    requires k <= |b| + 1
  {
    forall j :: 4 <= j < k ==> !EndsBlock(b[..j])
  }

  lemma EndsLater(b: bytes, j: nat)
    requires 5 <= j <= |b|
    ensures EndsBlock(b[..j]) == EndsBlock(b[1..][..j - 1])
  {
    assert b[..j][j - 4..] == b[1..][..j - 1][j - 5..];
  }

  lemma NoneEndsLater(b: bytes, k: nat)
    requires 5 <= k <= |b| && !EndsBlock(b[..4])
    ensures NoneEnds(b, k) <==> NoneEnds(b[1..], k - 1)
  {
    hide EndsBlock;
    if NoneEnds(b, k) {
      forall i | 4 <= i < k - 1
        ensures !EndsBlock(b[1..][..i])
      {
        EndsLater(b, i + 1);
      }
    }
    if NoneEnds(b[1..], k - 1) {
      forall j | 4 <= j < k
        ensures !EndsBlock(b[..j])
      {
        if j > 4 { EndsLater(b, j); }
      }
    }
  }

  /** It is the first place where a header block ends. */
  lemma {:induction false} BlockEndIsFirst(b: bytes, k: nat)
    requires 4 <= k <= |b|
    ensures BlockEnd(b) == k <==> EndsBlock(b[..k]) && NoneEnds(b, k)
    decreases |b|
  {
    hide BlockEnd, EndsBlock;
    FirstFour(b);
    if k > 4 {
      if !EndsBlock(b[..4]) {
        BlockEndIsFirst(b[1..], k - 1);
        EndsLater(b, k);
        NoneEndsLater(b, k);
      } else {
        assert !NoneEnds(b, k);
      }
    } else {
      assert NoneEnds(b, k);
    }
  }

  lemma FirstFour(b: bytes)
    requires |b| >= 4
    ensures BlockEnd(b) == if EndsBlock(b[..4]) then 4 else if BlockEnd(b[1..]) == -1 then -1 else BlockEnd(b[1..]) + 1
  {
    FourEnd(b[..4]);
    hide EndsBlock;
  }

  lemma FourEnd(x: bytes)
    requires |x| == 4
    ensures EndsBlock(x) <==> x == HEADER_END
  {
    assert x[0..] == x;
  }

  /** Response data that is a response: a request waits for one and no response body does. */
  predicate Recovers(p: State, payload: bytes) {
    p.pending.Some? && p.serverBuf == [] && !IsHeld(p) && RESPONSE_PREFIX <= payload
  }

  function OnServerData(o: Options, p: State, payload: bytes, time: nat, now: int): (State, seq<Request>)
    decreases |payload|
  {
    if Recovers(p, payload) then
      var end := BlockEnd(payload);
      if end == -1 || end == |payload| then OnServerHeaders(o, p, payload, time, now)
      else
        var (q, out) := OnServerHeaders(o, p, payload[..end], time, now);
        var (t, more) := OnServerData(o, q, payload[end..], time, now);
        (t, out + more)
    else OnBodyData(o, p, payload, now)
  }

  function ParseAt(o: Options, p: State, e: Event, time: nat, now: int): (State, seq<Request>) {
    match e.kind
    case ClientHeaders => OnClientHeaders(o, p, e.payload, time)
    case ClientData => (OnClientData(o, p, e.payload), [])
    case ServerHeaders => OnServerHeaders(o, p, e.payload, time, now)
    case ServerData => OnServerData(o, p, e.payload, time, now)
  }

  // ---------------------------------------------------------------------------
  // Runs
  // ---------------------------------------------------------------------------

  /** What happens to a parser: an event is parsed, or it is flushed. */
  datatype Input = Parse(e: Event, time: nat, now: int) | FlushAt(now: int)

  function Handle(o: Options, p: State, i: Input): (State, seq<Request>) {
    match i
    case Parse(e, time, now) => ParseAt(o, p, e, time, now)
    case FlushAt(now) => Flush(o, p, now)
  }

  function HandleAll(o: Options, p: State, inputs: seq<Input>): (State, seq<Request>) {
    if inputs == [] then (p, [])
    else
      var n := |inputs| - 1;
      var (q, out) := HandleAll(o, p, inputs[..n]);
      var (t, more) := Handle(o, q, inputs[n]);
      (t, out + more)
  }

  // ---------------------------------------------------------------------------
  // Keeping bodies refines not keeping them
  // ---------------------------------------------------------------------------

  /** What a parser without bodies says of a request. */
  datatype Core = Core(verb: bytes, path: bytes, status: int, duration: int)

  function CoreOf(r: Request): Core {
    Core(r.verb, r.path, r.status, r.duration)
  }

  function Cores(rs: seq<Request>): (c: seq<Core>)
    ensures |c| == |rs|
  {
    seq(|rs|, i requires 0 <= i < |rs| => CoreOf(rs[i]))
  }

  /** The exchange that is held back. */
  function HeldCore(p: State): seq<Core> {
    if IsHeld(p) then
      var ex := p.response.value;
      [Core(ex.req.verb, ex.req.path, ex.status, ex.duration)]
    else []
  }

  function Plain(o: Options): Options {
    o.(enabled := false)
  }

  /** A pending request and a held response never coexist. */
  predicate Exclusive(p: State) {
    p.pending.Some? ==> !IsHeld(p)
  }

  predicate SamePending(a: Option<Pending>, b: Option<Pending>) {
    && a.Some? == b.Some?
    && (a.Some? ==> a.value.verb == b.value.verb && a.value.path == b.value.path && a.value.time == b.value.time)
  }

  /** A parser with bodies and one without have seen the same. */
  predicate Alike(b: State, p: State) {
    && b.clientBuf == p.clientBuf && b.clientBufStart == p.clientBufStart && b.serverBuf == p.serverBuf
    && SamePending(b.pending, p.pending)
    && Exclusive(b) && p.response.None?
  }

  /** One step of both: they stay alike, and what the plain parser returns the other returns or holds. */
  ghost predicate Agree(b: State, x: (State, seq<Request>), y: (State, seq<Request>)) {
    Alike(x.0, y.0) && HeldCore(b) + Cores(y.1) == Cores(x.1) + HeldCore(x.0)
  }

  lemma CoresConcat(a: seq<Request>, b: seq<Request>)
    ensures Cores(a + b) == Cores(a) + Cores(b)
  {
  }

  lemma ReleaseAgrees(o: Options, b: State)
    ensures var x := ReleaseResponse(o, b);
      && !IsHeld(x.0) && HeldCore(b) == Cores(x.1)
      && x.0 == b.(response := x.0.response)
  {
  }

  lemma RequestAgrees(o: Options, b: State, p: State, block: bytes, time: nat)
    requires o.enabled && Alike(b, p)
    ensures Agree(b, OnRequest(o, b, block, time), OnRequest(Plain(o), p, block, time))
  {
    hide ParseRequestLine;
    ReleaseAgrees(o, b);
  }

  lemma ResponseAgrees(o: Options, b: State, p: State, block: bytes, time: nat, now: int)
    requires o.enabled && Alike(b, p)
    ensures Agree(b, OnResponse(o, b, block, time, now), OnResponse(Plain(o), p, block, time, now))
  {
    hide ParseStatusLine;
    ReleaseAgrees(o, b);
    var (q, out) := ReleaseResponse(o, b);
    if ParseStatusLine(block).Some? && b.pending.Some? {
      assert out == [];
    }
  }

  lemma ServerHeadersAgree(o: Options, b: State, p: State, payload: bytes, time: nat, now: int)
    requires o.enabled && Alike(b, p)
    ensures Agree(b, OnServerHeaders(o, b, payload, time, now), OnServerHeaders(Plain(o), p, payload, time, now))
  {
    var more := Incoming(b.serverBuf, payload);
    var buf := b.serverBuf + more;
    hide OnResponse, Incoming, Complete;
    if (b.serverBuf != [] || more != []) && Complete(buf) {
      ResponseAgrees(o, b.(serverBuf := []), p.(serverBuf := []), buf, time, now);
    }
  }

  lemma BodyDataAgrees(o: Options, b: State, p: State, payload: bytes, now: int)
    requires o.enabled && Alike(b, p)
    ensures Agree(b, OnBodyData(o, b, payload, now), OnBodyData(Plain(o), p, payload, now))
  {
    hide Add, FinishBody;
  }

  lemma {:induction false} ServerDataAgrees(o: Options, b: State, p: State, payload: bytes, time: nat, now: int)
    requires o.enabled && Alike(b, p)
    ensures Agree(b, OnServerData(o, b, payload, time, now), OnServerData(Plain(o), p, payload, time, now))
    decreases |payload|
  {
    hide OnServerHeaders, OnBodyData, BlockEnd;
    if Recovers(b, payload) {
      var end := BlockEnd(payload);
      if end == -1 || end == |payload| {
        ServerHeadersAgree(o, b, p, payload, time, now);
      } else {
        ServerHeadersAgree(o, b, p, payload[..end], time, now);
        var x := OnServerHeaders(o, b, payload[..end], time, now);
        var y := OnServerHeaders(Plain(o), p, payload[..end], time, now);
        ServerDataAgrees(o, x.0, y.0, payload[end..], time, now);
        AgreeTwice(b, x, y, OnServerData(o, x.0, payload[end..], time, now), OnServerData(Plain(o), y.0, payload[end..], time, now));
      }
    } else {
      BodyDataAgrees(o, b, p, payload, now);
    }
  }

  lemma AgreeTwice(b: State, x: (State, seq<Request>), y: (State, seq<Request>), x': (State, seq<Request>), y': (State, seq<Request>))
    requires Agree(b, x, y) && Agree(x.0, x', y')
    ensures Agree(b, (x'.0, x.1 + x'.1), (y'.0, y.1 + y'.1))
  {
    CoresConcat(x.1, x'.1);
    CoresConcat(y.1, y'.1);
    hide Cores, HeldCore;
    calc {
      HeldCore(b) + (Cores(y.1) + Cores(y'.1));
      (HeldCore(b) + Cores(y.1)) + Cores(y'.1);
      (Cores(x.1) + HeldCore(x.0)) + Cores(y'.1);
      Cores(x.1) + (HeldCore(x.0) + Cores(y'.1));
      Cores(x.1) + (Cores(x'.1) + HeldCore(x'.0));
      (Cores(x.1) + Cores(x'.1)) + HeldCore(x'.0);
    }
  }

  lemma HandleAgrees(o: Options, b: State, p: State, i: Input)
    requires o.enabled && Alike(b, p)
    ensures Agree(b, Handle(o, b, i), Handle(Plain(o), p, i))
  {
    match i
    case FlushAt(now) =>
    case Parse(e, time, now) =>
      match e.kind
      case ClientHeaders =>
        var more := Incoming(b.clientBuf, e.payload);
        var buf := b.clientBuf + more;
        var start := if b.clientBuf == [] then time else b.clientBufStart;
        hide OnRequest, Incoming, Complete;
        if (b.clientBuf != [] || more != []) && Complete(buf) {
          RequestAgrees(o, b.(clientBuf := [], clientBufStart := start), p.(clientBuf := [], clientBufStart := start), buf, start);
        }
      case ClientData => hide Add;
      case ServerHeaders => ServerHeadersAgree(o, b, p, e.payload, time, now);
      case ServerData => ServerDataAgrees(o, b, p, e.payload, time, now);
  }

  /** Body capture refines plain parsing: for every sequence of events and flushes, what the parser
      with bodies has returned, followed by what it holds, is what the plain parser has returned. */
  lemma {:induction false} BodiesRefinePlain(o: Options, inputs: seq<Input>)
    requires o.enabled
    ensures var x := HandleAll(o, EMPTY, inputs);
      var y := HandleAll(Plain(o), EMPTY, inputs);
      Alike(x.0, y.0) && Cores(y.1) == Cores(x.1) + HeldCore(x.0)
  {
    if inputs != [] {
      var n := |inputs| - 1;
      BodiesRefinePlain(o, inputs[..n]);
      var x, y := HandleAll(o, EMPTY, inputs[..n]), HandleAll(Plain(o), EMPTY, inputs[..n]);
      hide Handle, Alike;
      HandleAgrees(o, x.0, y.0, inputs[n]);
      var x', y' := Handle(o, x.0, inputs[n]), Handle(Plain(o), y.0, inputs[n]);
      CoresConcat(x.1, x'.1);
      CoresConcat(y.1, y'.1);
      hide Cores, HeldCore;
      assert Cores(y.1) + Cores(y'.1) == Cores(x.1) + (HeldCore(x.0) + Cores(y'.1));
      assert Cores(x.1) + (Cores(x'.1) + HeldCore(x'.0)) == (Cores(x.1) + Cores(x'.1)) + HeldCore(x'.0);
    }
  }
}
