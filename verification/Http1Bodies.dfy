/**
What the parser with bodies returns and when (ebpftracer/l7/http1_parser.go with ebpftracer/l7/bodies.go):
beside the parser with its bounded collectors and its released exchanges runs a listener that keeps all
data of the newest request and of the newest exchange, and says by itself when an exchange is over. What
the parser returns is what the listener says, input by input.
*/
module Http1Bodies {
  import opened Bytes
  import opened Http1Walk
  import opened Http1Parser
  import opened Wrappers
  import Utf8

  /** A request, and everything the client has sent since. */
  datatype Asked = Asked(verb: bytes, path: bytes, time: nat, hdr: Headers, data: bytes)

  /** An exchange, everything the server has sent of its response, when that began and when it last came. */
  datatype Answered = Answered(req: Asked, status: int, hdr: Headers, duration: int, at: int, last: int, data: bytes)

  /** What the listener knows: unfinished header blocks, the request that waits for a response, the newest
      exchange, and whether that is still going on. */
  datatype Own = Own(clientBuf: bytes, clientStart: nat, serverBuf: bytes, request: Option<Asked>, exchange: Option<Answered>, open: bool)

  const SILENCE := Own([], 0, [], None, None, false)

  // ---------------------------------------------------------------------------
  // The listener
  // ---------------------------------------------------------------------------

  /** The body that is shown of some data: its start, cut on a character; none if there is no data or it
      is not to be kept. */
  function Body(o: Options, data: bytes, hdr: Headers): bytes {
    var b := Utf8.CutUtf8(data, o.maxBytes);
    if data == [] || !o.keep(hdr.contentType, hdr.contentEncoding, b) then [] else b
  }

  /** A response that has no body, section 6.3 of RFC 9112: to a HEAD, interim, 204, 304, or of length 0. */
  predicate Bodiless(a: Answered) {
    a.req.verb == Ascii("HEAD") || a.status < 200 || a.status == 204 || a.status == 304 || a.hdr.contentLength == 0
  }

  /** All of a body of known length has come, or as much of it as is kept. */
  predicate Full(o: Options, a: Answered) {
    !a.hdr.chunked && a.hdr.contentLength > 0 && |a.data| >= Min(a.hdr.contentLength, o.maxBytes)
  }

  /** Nothing came for the wait, or the response began five seconds ago. */
  predicate Waited(o: Options, a: Answered, now: int) {
    now - a.last >= o.wait || now - a.at >= 5_000_000_000
  }

  /** What is to be returned of an exchange. */
  function Report(o: Options, a: Answered): Request {
    Request(a.req.verb, a.req.path, a.status, a.duration, Body(o, a.req.data, a.req.hdr),
            if Bodiless(a) then [] else Body(o, a.data, a.hdr),
            if a.req.hdr.chunked then -1 else a.req.hdr.contentLength, if a.hdr.chunked then -1 else a.hdr.contentLength, a.at)
  }

  /** The exchange that goes on is over. */
  function Over(o: Options, own: Own): (Own, seq<Request>) {
    if own.open && own.exchange.Some? then (own.(open := false), [Report(o, own.exchange.value)]) else (own, [])
  }

  /** Client data is that of the request that waits, or else of the exchange that goes on. */
  function HearClientData(own: Own, payload: bytes): Own {
    match own.request
    case Some(q) => own.(request := Some(q.(data := q.data + payload)))
    case None =>
      if own.open && own.exchange.Some? then
        var a := own.exchange.value;
        own.(exchange := Some(a.(req := a.req.(data := a.req.data + payload))))
      else own
  }

  /** A block is over with its empty line, or when there is no more room for it. */
  predicate Ended(buf: bytes) {
    (|buf| >= 4 && buf[|buf| - 4..] == [13, 10, 13, 10]) || |buf| >= 4096
  }

  /** A request ends what goes on. */
  function HearRequest(o: Options, own: Own, block: bytes, time: nat): (Own, seq<Request>) {
    match ParseRequestLine(block)
    case None => (own, [])
    case Some((verb, path)) =>
      var (q, out) := Over(o, own);
      (q.(request := Some(Asked(verb, path, time, o.headersOf(block), []))), out)
  }

  function HearClientHeaders(o: Options, own: Own, payload: bytes, time: nat): (Own, seq<Request>) {
    var buf := own.clientBuf + Incoming(own.clientBuf, payload);
    var start := if own.clientBuf == [] then time else own.clientStart;
    if buf == [] then (own, [])
    else if Ended(buf) then HearRequest(o, own.(clientBuf := [], clientStart := start), buf, start)
    else (own.(clientBuf := buf, clientStart := start), [])
  }

  /** So does a header block of the server; it answers the request that waits. */
  function HearResponse(o: Options, own: Own, block: bytes, time: nat, now: int): (Own, seq<Request>) {
    var (q, out) := Over(o, own);
    var status := ParseStatusLine(block);
    if status.None? || q.request.None? then (q, out)
    else
      var a := Answered(q.request.value, status.value, o.headersOf(block), Elapsed(time, q.request.value.time), now, now, []);
      var t := q.(request := None, exchange := Some(a), open := !Bodiless(a));
      (t, out + if Bodiless(a) then [Report(o, a)] else [])
  }

  function HearServerHeaders(o: Options, own: Own, payload: bytes, time: nat, now: int): (Own, seq<Request>) {
    var buf := own.serverBuf + Incoming(own.serverBuf, payload);
    if buf == [] then (own, [])
    else if Ended(buf) then HearResponse(o, own.(serverBuf := []), buf, time, now)
    else (own.(serverBuf := buf), [])
  }

  /** Data belongs to the exchange that goes on, which is over when it is full. */
  function HearBody(o: Options, own: Own, payload: bytes, now: int): (Own, seq<Request>) {
    if !own.open || own.exchange.None? then (own, [])
    else
      var a := own.exchange.value.(data := own.exchange.value.data + payload, last := now);
      var q := own.(exchange := Some(a));
      if Full(o, a) then Over(o, q) else (q, [])
  }

  /** Data that begins like a response, while a request waits for one, is one. */
  predicate IsResponse(own: Own, payload: bytes) {
    own.request.Some? && own.serverBuf == [] && !own.open && Ascii("HTTP/1.") <= payload
  }

  function HearServerData(o: Options, own: Own, payload: bytes, time: nat, now: int): (Own, seq<Request>)
    decreases |payload|
  {
    if !IsResponse(own, payload) then HearBody(o, own, payload, now)
    else
      var end := BlockEnd(payload);
      if end == -1 || end == |payload| then HearServerHeaders(o, own, payload, time, now)
      else
        var (q, out) := HearServerHeaders(o, own, payload[..end], time, now);
        var (t, more) := HearServerData(o, q, payload[end..], time, now);
        (t, out + more)
  }

  function HearFlush(o: Options, own: Own, now: int): (Own, seq<Request>) {
    if own.open && own.exchange.Some? && Waited(o, own.exchange.value, now) then Over(o, own) else (own, [])
  }

  function Hear(o: Options, own: Own, i: Input): (Own, seq<Request>) {
    match i
    case FlushAt(now) => HearFlush(o, own, now)
    case Parse(e, time, now) =>
      match e.kind
      case ClientHeaders => HearClientHeaders(o, own, e.payload, time)
      case ClientData => (HearClientData(own, e.payload), [])
      case ServerHeaders => HearServerHeaders(o, own, e.payload, time, now)
      case ServerData => HearServerData(o, own, e.payload, time, now)
  }

  function HearAll(o: Options, own: Own, inputs: seq<Input>): (Own, seq<Request>) {
    if inputs == [] then (own, [])
    else
      var n := |inputs| - 1;
      var (q, out) := HearAll(o, own, inputs[..n]);
      var (t, more) := Hear(o, q, inputs[n]);
      (t, out + more)
  }

  // ---------------------------------------------------------------------------
  // The parser keeps up with the listener
  // ---------------------------------------------------------------------------

  lemma EndedIff(buf: bytes)
    ensures Ended(buf) <==> Complete(buf)
  {
  }

  /** A collector holds the start of its message's data. */
  ghost predicate Holds(o: Options, c: Collector, data: bytes) {
    c == Collector(o.maxBytes, Take(data, o.maxBytes))
  }

  ghost predicate IsAsked(o: Options, req: Pending, q: Asked) {
    req.verb == q.verb && req.path == q.path && req.time == q.time && req.hdr == q.hdr && Holds(o, req.body, q.data)
  }

  ghost predicate IsAnswered(o: Options, ex: Exchange, a: Answered) {
    && IsAsked(o, ex.req, a.req) && ex.status == a.status && ex.hdr == a.hdr && ex.duration == a.duration && ex.at == a.at
    && ex.lastEvent == a.last && Holds(o, ex.body, a.data) && ex.noBody == Bodiless(a)
  }

  ghost predicate Owned(o: Options, p: State, own: Own) {
    && Exclusive(p)
    && p.clientBuf == own.clientBuf && p.clientBufStart == own.clientStart && p.serverBuf == own.serverBuf
    && p.pending.Some? == own.request.Some? && IsHeld(p) == own.open && (own.open ==> own.exchange.Some?)
    && (p.pending.Some? ==> IsAsked(o, p.pending.value, own.request.value))
    && (IsHeld(p) ==> IsAnswered(o, p.response.value, own.exchange.value))
  }

  /** A step keeps up, and returns what the listener says. */
  ghost predicate StepOwns(o: Options, r: (State, seq<Request>), h: (Own, seq<Request>)) {
    Owned(o, r.0, h.0) && r.1 == h.1
  }

  lemma AddHolds(o: Options, c: Collector, data: bytes, more: bytes)
    requires Holds(o, c, data)
    ensures Holds(o, Add(c, more), data + more)
  {
    var k := o.maxBytes;
    if |data| < k {
      assert Take(data, k) == data && data + Take(more, k - |data|) == Take(data + more, k);
    } else {
      assert Take(data + more, k) == Take(data, k);
    }
  }

  lemma FinishBodyIs(o: Options, c: Collector, hdr: Headers, data: bytes)
    requires Holds(o, c, data)
    ensures FinishBody(o, c, hdr) == Body(o, data, hdr)
  {
    assert Take(Take(data, o.maxBytes), o.maxBytes) == Take(data, o.maxBytes);
  }

  lemma FinishReports(o: Options, ex: Exchange, a: Answered)
    requires IsAnswered(o, ex, a)
    ensures Finish(o, ex) == Report(o, a)
  {
    hide Body, FinishBody, Bodiless;
    FinishBodyIs(o, ex.req.body, ex.req.hdr, a.req.data);
    FinishBodyIs(o, ex.body, ex.hdr, a.data);
  }

  lemma FinishOwns(o: Options, p: State, own: Own)
    requires Owned(o, p, own) && IsHeld(p)
    ensures StepOwns(o, FinishHeld(o, p), Over(o, own)) && FinishHeld(o, p).0.pending == p.pending
  {
    hide Finish, Report, IsAnswered;
    FinishReports(o, p.response.value, own.exchange.value);
  }

  lemma ReleaseOwns(o: Options, p: State, own: Own)
    requires Owned(o, p, own)
    ensures var r := ReleaseResponse(o, p);
      StepOwns(o, r, Over(o, own)) && !IsHeld(r.0) && r.0.pending == p.pending && Over(o, own).0.request == own.request
  {
    hide FinishHeld, Report, IsAnswered;
    if IsHeld(p) { FinishOwns(o, p, own); }
  }

  lemma RequestOwns(o: Options, p: State, own: Own, block: bytes, time: nat)
    requires o.enabled && Owned(o, p, own)
    ensures StepOwns(o, OnRequest(o, p, block, time), HearRequest(o, own, block, time))
  {
    hide ParseRequestLine, Report, ReleaseResponse, Over, IsAnswered;
    ReleaseOwns(o, p, own);
    assert Holds(o, Collector(o.maxBytes, []), []);
  }

  /** The exchange a response begins. */
  lemma NewExchange(o: Options, req: Pending, q: Asked, status: int, hdr: Headers, time: nat, now: int)
    requires IsAsked(o, req, q)
    ensures var a := Answered(q, status, hdr, Elapsed(time, q.time), now, now, []);
      IsAnswered(o, Exchange(req, status, hdr, Collector(o.maxBytes, []), Elapsed(time, req.time), now, now,
                             NoBody(req.verb, status, hdr), false), a)
  {
    hide Elapsed;
    assert Holds(o, Collector(o.maxBytes, []), []);
  }

  lemma ResponseOwns(o: Options, p: State, own: Own, block: bytes, time: nat, now: int)
    requires o.enabled && Owned(o, p, own)
    ensures StepOwns(o, OnResponse(o, p, block, time, now), HearResponse(o, own, block, time, now))
  {
    hide ParseStatusLine, Report, ReleaseResponse, Over, NoBody, Bodiless, IsAnswered, FinishHeld, Elapsed;
    ReleaseOwns(o, p, own);
    var r, h := ReleaseResponse(o, p), Over(o, own);
    var status := ParseStatusLine(block);
    if status.Some? && r.0.pending.Some? {
      var req, q := r.0.pending.value, h.0.request.value;
      var hdr := o.headersOf(block);
      NewExchange(o, req, q, status.value, hdr, time, now);
      AnsweredStarts(o, r.0, h.0, status.value, hdr, time, now);
    }
  }

  /** A response that ends with its headers is returned at once. */
  lemma AnsweredStarts(o: Options, p: State, own: Own, status: int, hdr: Headers, time: nat, now: int)
    requires Owned(o, p, own) && p.pending.Some? && !IsHeld(p)
    ensures var req, q := p.pending.value, own.request.value;
      var ex := Exchange(req, status, hdr, Collector(o.maxBytes, []), Elapsed(time, req.time), now, now,
                         NoBody(req.verb, status, hdr), false);
      var a := Answered(q, status, hdr, Elapsed(time, q.time), now, now, []);
      var t := p.(pending := None, response := Some(ex));
      var own' := own.(request := None, exchange := Some(a), open := !Bodiless(a));
      && ex.noBody == Bodiless(a)
      && StepOwns(o, if ex.noBody then FinishHeld(o, t) else (t, []), (own', if Bodiless(a) then [Report(o, a)] else []))
  {
    hide Elapsed, Report, Finish, NoBody, Bodiless, IsAnswered;
    var req, q := p.pending.value, own.request.value;
    NewExchange(o, req, q, status, hdr, time, now);
    var ex := Exchange(req, status, hdr, Collector(o.maxBytes, []), Elapsed(time, req.time), now, now,
                       NoBody(req.verb, status, hdr), false);
    var a := Answered(q, status, hdr, Elapsed(time, q.time), now, now, []);
    AnsweredIs(o, ex, a);
    FinishReports(o, ex, a);
  }

  lemma AnsweredIs(o: Options, ex: Exchange, a: Answered)
    requires IsAnswered(o, ex, a)
    ensures ex.noBody == Bodiless(a)
  {
  }

  lemma ServerHeadersOwn(o: Options, p: State, own: Own, payload: bytes, time: nat, now: int)
    requires o.enabled && Owned(o, p, own)
    ensures StepOwns(o, OnServerHeaders(o, p, payload, time, now), HearServerHeaders(o, own, payload, time, now))
  {
    var buf := p.serverBuf + Incoming(p.serverBuf, payload);
    hide OnResponse, HearResponse, Incoming, Complete, Ended, IsAsked, IsAnswered;
    EndedIff(buf);
    if buf != [] && Complete(buf) {
      ResponseOwns(o, p.(serverBuf := []), own.(serverBuf := []), buf, time, now);
    }
  }

  /** As much as is wanted is there if and only if the collector has it. */
  lemma FullIff(o: Options, ex: Exchange, a: Answered)
    requires IsAnswered(o, ex, a)
    ensures Full(o, a) <==>
      !ex.hdr.chunked && ex.hdr.contentLength > 0 && (|ex.body.buf| >= ex.hdr.contentLength || |ex.body.buf| >= ex.body.max)
  {
  }

  lemma BodyDataOwns(o: Options, p: State, own: Own, payload: bytes, now: int)
    requires o.enabled && Owned(o, p, own)
    ensures StepOwns(o, OnBodyData(o, p, payload, now), HearBody(o, own, payload, now))
  {
    if IsHeld(p) {
      AddHolds(o, p.response.value.body, own.exchange.value.data, payload);
      hide Add, FinishHeld, Over, Holds, Full;
      var ex := p.response.value.(body := Add(p.response.value.body, payload), lastEvent := now);
      var a := own.exchange.value.(data := own.exchange.value.data + payload, last := now);
      assert IsAnswered(o, ex, a);
      FullIff(o, ex, a);
      FinishOwns(o, p.(response := Some(ex)), own.(exchange := Some(a)));
    }
  }

  lemma {:induction false} ServerDataOwns(o: Options, p: State, own: Own, payload: bytes, time: nat, now: int)
    requires o.enabled && Owned(o, p, own)
    ensures StepOwns(o, OnServerData(o, p, payload, time, now), HearServerData(o, own, payload, time, now))
    decreases |payload|
  {
    assert Recovers(p, payload) == IsResponse(own, payload);
    hide OnServerHeaders, OnBodyData, BlockEnd, HearServerHeaders, HearBody, Owned, Recovers, IsResponse;
    if Recovers(p, payload) {
      var end := BlockEnd(payload);
      if end == -1 || end == |payload| {
        ServerHeadersOwn(o, p, own, payload, time, now);
      } else {
        ServerHeadersOwn(o, p, own, payload[..end], time, now);
        ServerDataOwns(o, OnServerHeaders(o, p, payload[..end], time, now).0, HearServerHeaders(o, own, payload[..end], time, now).0,
                       payload[end..], time, now);
      }
    } else {
      BodyDataOwns(o, p, own, payload, now);
    }
  }

  lemma ClientDataOwns(o: Options, p: State, own: Own, payload: bytes)
    requires o.enabled && Owned(o, p, own)
    ensures Owned(o, OnClientData(o, p, payload), HearClientData(own, payload))
  {
    if p.pending.Some? {
      AddHolds(o, p.pending.value.body, own.request.value.data, payload);
    } else if IsHeld(p) {
      AddHolds(o, p.response.value.req.body, own.exchange.value.req.data, payload);
    }
    hide Holds;
  }

  lemma HandleOwns(o: Options, p: State, own: Own, i: Input)
    requires o.enabled && Owned(o, p, own)
    ensures StepOwns(o, Handle(o, p, i), Hear(o, own, i))
  {
    hide OnServerHeaders, OnServerData, OnRequest, HearServerHeaders, HearServerData, HearRequest;
    hide FinishHeld, Over, Incoming, Complete, Ended, IsAsked;
    match i
    case FlushAt(now) => if IsHeld(p) { FinishOwns(o, p, own); }
    case Parse(e, time, now) =>
      match e.kind
      case ClientHeaders =>
        hide IsAnswered;
        var buf := p.clientBuf + Incoming(p.clientBuf, e.payload);
        var start := if p.clientBuf == [] then time else p.clientBufStart;
        EndedIff(buf);
        if buf != [] && Complete(buf) {
          RequestOwns(o, p.(clientBuf := [], clientBufStart := start), own.(clientBuf := [], clientStart := start), buf, start);
        }
      case ClientData => ClientDataOwns(o, p, own, e.payload);
      case ServerHeaders => ServerHeadersOwn(o, p, own, e.payload, time, now);
      case ServerData => ServerDataOwns(o, p, own, e.payload, time, now);
  }

  lemma {:induction false} RunsOwn(o: Options, inputs: seq<Input>)
    requires o.enabled
    ensures StepOwns(o, HandleAll(o, EMPTY, inputs), HearAll(o, SILENCE, inputs))
  {
    if inputs != [] {
      var n := |inputs| - 1;
      RunsOwn(o, inputs[..n]);
      hide Handle, Hear, Owned;
      HandleOwns(o, HandleAll(o, EMPTY, inputs[..n]).0, HearAll(o, SILENCE, inputs[..n]).0, inputs[n]);
    }
  }

  // ---------------------------------------------------------------------------
  // What is returned, and when
  // ---------------------------------------------------------------------------

  /** In every run the parser has returned what the listener has said, in order: each exchange once, its
      method, path, status and times, and its bodies cut from all the data of that request and of that
      response and from nothing else; and it holds an exchange if and only if that goes on. */
  lemma BodiesAreTheirOwn(o: Options, inputs: seq<Input>)
    requires o.enabled
    ensures HandleAll(o, EMPTY, inputs).1 == HearAll(o, SILENCE, inputs).1
    ensures IsHeld(HandleAll(o, EMPTY, inputs).0) <==> HearAll(o, SILENCE, inputs).0.open
  {
    RunsOwn(o, inputs);
    hide IsAnswered, IsAsked;
  }

  /** Whatever the listener says at an input is the newest exchange, once. */
  ghost predicate SaysTheNewest(o: Options, h: (Own, seq<Request>)) {
    h.1 == [] || (h.0.exchange.Some? && h.1 == [Report(o, h.0.exchange.value)])
  }

  /** A request waits or an exchange goes on, not both. */
  predicate Proper(own: Own) {
    (own.open ==> own.exchange.Some?) && (own.request.Some? ==> !own.open)
  }

  lemma ServerHeadersSay(o: Options, own: Own, payload: bytes, time: nat, now: int)
    requires Proper(own)
    ensures var h := HearServerHeaders(o, own, payload, time, now);
      && Proper(h.0) && SaysTheNewest(o, h)
      && (!own.open && h.1 != [] ==> !h.0.open && h.0.request.None?)
  {
    hide Incoming, Complete, Ended, ParseStatusLine, Report, Bodiless, Elapsed;
  }

  lemma {:induction false} ServerDataSays(o: Options, own: Own, payload: bytes, time: nat, now: int)
    requires Proper(own)
    ensures Proper(HearServerData(o, own, payload, time, now).0) && SaysTheNewest(o, HearServerData(o, own, payload, time, now))
    decreases |payload|
  {
    hide HearServerHeaders, BlockEnd, Report, Full;
    if IsResponse(own, payload) {
      var end := BlockEnd(payload);
      if end == -1 || end == |payload| {
        ServerHeadersSay(o, own, payload, time, now);
      } else {
        ServerHeadersSay(o, own, payload[..end], time, now);
        var h := HearServerHeaders(o, own, payload[..end], time, now);
        ServerDataSays(o, h.0, payload[end..], time, now);
        var more := HearServerData(o, h.0, payload[end..], time, now);
        if h.1 == [] { assert h.1 + more.1 == more.1; } else { assert more == (h.0, []) && h.1 + [] == h.1; }
      }
    }
  }

  lemma HearSays(o: Options, own: Own, i: Input)
    requires Proper(own)
    ensures Proper(Hear(o, own, i).0) && SaysTheNewest(o, Hear(o, own, i))
  {
    hide HearServerHeaders, HearServerData, Incoming, Complete, Ended, ParseRequestLine, Report, Waited;
    match i
    case FlushAt(now) =>
    case Parse(e, time, now) =>
      match e.kind
      case ClientHeaders =>
      case ClientData =>
      case ServerHeaders => ServerHeadersSay(o, own, e.payload, time, now);
      case ServerData => ServerDataSays(o, own, e.payload, time, now);
  }

  lemma {:induction false} RunsAreProper(o: Options, inputs: seq<Input>)
    ensures Proper(HearAll(o, SILENCE, inputs).0)
  {
    if inputs != [] {
      hide Hear, Proper;
      RunsAreProper(o, inputs[..|inputs| - 1]);
      HearSays(o, HearAll(o, SILENCE, inputs[..|inputs| - 1]).0, inputs[|inputs| - 1]);
    } else {
      assert Proper(SILENCE);
    }
  }

  /** Nothing is mixed up: in every run, whatever an input returns is one request, and it is the newest
      exchange. */
  lemma ReturnedIsTheNewest(o: Options, inputs: seq<Input>, i: Input, r: Request)
    requires o.enabled && r in Handle(o, HandleAll(o, EMPTY, inputs).0, i).1
    ensures Handle(o, HandleAll(o, EMPTY, inputs).0, i).1 == [r]
    ensures var a := HearAll(o, SILENCE, inputs + [i]).0.exchange; a.Some? && r == Report(o, a.value)
  {
    hide Handle, Hear, Report, Owned, Proper;
    RunsOwn(o, inputs);
    HandleOwns(o, HandleAll(o, EMPTY, inputs).0, HearAll(o, SILENCE, inputs).0, i);
    RunsAreProper(o, inputs);
    HearSays(o, HearAll(o, SILENCE, inputs).0, i);
    assert (inputs + [i])[..|inputs|] == inputs;
  }

  /** In every run: data of the server returns the held exchange if and only if its length is known, not 0,
      and all the data so far has that many bytes or as many as are kept; with all that data. */
  lemma DataReturnsIff(o: Options, inputs: seq<Input>, payload: bytes, time: nat, now: int)
    requires o.enabled && HearAll(o, SILENCE, inputs).0.open
    ensures HearAll(o, SILENCE, inputs).0.exchange.Some?
    ensures var was := HearAll(o, SILENCE, inputs).0.exchange.value;
      var a := was.(data := was.data + payload);
      Handle(o, HandleAll(o, EMPTY, inputs).0, Parse(Event(ServerData, payload), time, now)).1 ==
        if !a.hdr.chunked && a.hdr.contentLength > 0 && |a.data| >= Min(a.hdr.contentLength, o.maxBytes) then [Report(o, a)] else []
  {
    hide Handle, Owned, Body;
    RunsOwn(o, inputs);
    RunsAreProper(o, inputs);
    HandleOwns(o, HandleAll(o, EMPTY, inputs).0, HearAll(o, SILENCE, inputs).0, Parse(Event(ServerData, payload), time, now));
    hide HearAll;
  }

  /** In every run: a flush returns the held exchange if and only if nothing came for the wait or the
      response began at least five seconds ago, and nothing else. */
  lemma FlushReturnsIff(o: Options, inputs: seq<Input>, now: int)
    requires o.enabled
    ensures var own := HearAll(o, SILENCE, inputs).0;
      Handle(o, HandleAll(o, EMPTY, inputs).0, FlushAt(now)).1 ==
        if own.open && own.exchange.Some? && (now - own.exchange.value.last >= o.wait || now - own.exchange.value.at >= 5_000_000_000)
        then [Report(o, own.exchange.value)] else []
  {
    hide Handle, Owned, Report;
    RunsOwn(o, inputs);
    HandleOwns(o, HandleAll(o, EMPTY, inputs).0, HearAll(o, SILENCE, inputs).0, FlushAt(now));
    hide HearAll;
  }

  // ---------------------------------------------------------------------------
  // A body of known length
  // ---------------------------------------------------------------------------

  /** Nothing but data of the server. */
  predicate AreData(ds: seq<Input>) {
    forall i :: 0 <= i < |ds| ==> ds[i].Parse? && ds[i].e.kind == ServerData
  }

  function Payload(ds: seq<Input>): bytes
    requires AreData(ds)
  {
    if ds == [] then [] else Payload(ds[..|ds| - 1]) + ds[|ds| - 1].e.payload
  }

  lemma SameBody(o: Options, a: Answered, x: bytes, y: bytes)
    requires x <= y && (x == y || |x| >= o.maxBytes)
    ensures Report(o, a.(data := x)) == Report(o, a.(data := y))
  {
    assert Take(x, o.maxBytes) == Take(y, o.maxBytes);
  }

  /** After some data of an exchange that goes on. */
  ghost predicate Gathered(o: Options, a: Answered, data: bytes, h: (Own, seq<Request>))
    requires a.hdr.contentLength > 0
  {
    if |data| < Min(a.hdr.contentLength, o.maxBytes) then
      && h.1 == [] && h.0.open && h.0.exchange.Some? && h.0.request.None?
      && h.0.exchange.value == a.(data := data, last := h.0.exchange.value.last)
    else h.1 == [Report(o, a.(data := data))] && !h.0.open && h.0.request.None?
  }

  lemma GatherMore(o: Options, a: Answered, x: bytes, payload: bytes, own: Own, out: seq<Request>, time: nat, now: int)
    requires !a.hdr.chunked && a.hdr.contentLength > 0 && |x + payload| <= a.hdr.contentLength && Gathered(o, a, x, (own, out))
    ensures var h := HearServerData(o, own, payload, time, now); Gathered(o, a, x + payload, (h.0, out + h.1))
  {
    hide Report;
    if |x| < Min(a.hdr.contentLength, o.maxBytes) {
      var b := own.exchange.value.(data := x + payload, last := now);
      SameReport(o, a.(data := x + payload), b);
    } else {
      SameBody(o, a, x, x + payload);
      assert out + [] == out;
    }
  }

  lemma SameReport(o: Options, a: Answered, b: Answered)
    requires b == a.(last := b.last)
    ensures Report(o, b) == Report(o, a)
  {
  }

  lemma {:induction false} GatherAll(o: Options, a: Answered, own: Own, ds: seq<Input>)
    requires own.open && own.exchange == Some(a) && own.request.None? && a.data == [] && AreData(ds)
    requires !a.hdr.chunked && a.hdr.contentLength > 0 && |Payload(ds)| <= a.hdr.contentLength
    requires o.maxBytes > 0
    ensures Gathered(o, a, Payload(ds), HearAll(o, own, ds))
  {
    hide Gathered;
    if ds == [] {
      assert Gathered(o, a, [], (own, [])) by { NothingGathered(o, a, own); }
    } else {
      var n := |ds| - 1;
      GatherAll(o, a, own, ds[..n]);
      var h := HearAll(o, own, ds[..n]);
      GatherMore(o, a, Payload(ds[..n]), ds[n].e.payload, h.0, h.1, ds[n].time, ds[n].now);
    }
  }

  lemma NothingGathered(o: Options, a: Answered, own: Own)
    requires own.open && own.exchange == Some(a) && own.request.None? && a.data == [] && a.hdr.contentLength > 0 && o.maxBytes > 0
    ensures Gathered(o, a, [], (own, []))
  {
  }

  lemma {:induction false} HearConcat(o: Options, own: Own, a: seq<Input>, b: seq<Input>)
    ensures var x := HearAll(o, own, a);
      var y := HearAll(o, x.0, b);
      HearAll(o, own, a + b) == (y.0, x.1 + y.1)
  {
    hide Hear;
    if b == [] {
      assert a + b == a && HearAll(o, own, a).1 + [] == HearAll(o, own, a).1;
    } else {
      var n := |b| - 1;
      HearConcat(o, own, a, b[..n]);
      assert (a + b)[..|a + b| - 1] == a + b[..n];
      var x := HearAll(o, own, a);
      var y := HearAll(o, x.0, b[..n]);
      var z := Hear(o, y.0, b[n]);
      assert (x.1 + y.1) + z.1 == x.1 + (y.1 + z.1);
    }
  }

  /** A body of known length, cut anywhere into events with no flush between them, is returned whole, that
      is the cut of all of it, and once: in every run in which the response has begun. */
  lemma SizedBodyIsReturned(o: Options, inputs: seq<Input>, ds: seq<Input>)
    requires o.enabled && o.maxBytes > 0 && AreData(ds) && HearAll(o, SILENCE, inputs).0.open
    requires var a := HearAll(o, SILENCE, inputs).0.exchange;
      a.Some? && a.value.data == [] && !a.value.hdr.chunked && a.value.hdr.contentLength == |Payload(ds)| > 0
    ensures var a := HearAll(o, SILENCE, inputs).0.exchange.value;
      HandleAll(o, EMPTY, inputs + ds).1 == HandleAll(o, EMPTY, inputs).1 + [Report(o, a.(data := Payload(ds)))]
  {
    hide HandleAll, HearAll, Owned, Report;
    RunsAreProper(o, inputs);
    RunsOwn(o, inputs);
    RunsOwn(o, inputs + ds);
    HearConcat(o, SILENCE, inputs, ds);
    var own := HearAll(o, SILENCE, inputs).0;
    GatherAll(o, own.exchange.value, own, ds);
  }

  /** When a body is empty: there was no data, it is not to be kept, or not even its first character fits. */
  lemma BodyIsEmptyIff(o: Options, data: bytes, hdr: Headers)
    ensures Body(o, data, hdr) == [] <==>
      data == [] || Utf8.CutUtf8(data, o.maxBytes) == [] || !o.keep(hdr.contentType, hdr.contentEncoding, Utf8.CutUtf8(data, o.maxBytes))
    ensures |Body(o, data, hdr)| <= o.maxBytes && Body(o, data, hdr) <= data
  {
  }

  /** A body cut while only the start of it had arrived is valid text when all of it is. */
  lemma CutOfValidBody(o: Options, data: bytes, hdr: Headers, whole: bytes)
    requires data <= whole && Utf8.Valid(whole)
    ensures Utf8.Valid(Body(o, data, hdr)) && Body(o, data, hdr) <= whole
  {
    var n := Min(o.maxBytes, |data|);
    assert Take(data, o.maxBytes) == Take(whole, n);
    Utf8.CutOfValidIsLongestValid(whole, n);
  }
}
