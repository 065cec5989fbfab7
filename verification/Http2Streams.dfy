/**
Streams of an HTTP/2 connection (the other half of ebpftracer/l7/http2.go): what the frames do to
the requests in flight, when a request is returned, and what is thrown away. A stream is an object
several places of the parser hold on to, so streams live in a store and are named by a number that
is never used again.

The order in which Go visits the entries of a map is not defined; where the code does, the model
says what happens to every entry.
*/
module Http2Streams {
  import opened Bytes
  import opened Wrappers
  import F = Http2Frames
  import P = Http1Parser

  type Uid = nat

  datatype Dir = Client | Server

  // ---------------------------------------------------------------------------
  // The data
  // ---------------------------------------------------------------------------

  datatype Info = Info(verb: bytes, path: bytes, scheme: bytes)
  datatype Answer = Answer(status: int, grpc: int, duration: int)
  datatype Side = Side(hdr: P.Headers, body: P.Collector, skipped: bool)
  datatype Life = Life(haveResp: bool, respEnded: bool, lastEvent: int, at: int)

  datatype Stream = Stream(id: nat, time: nat, info: Info, answer: Answer, req: Side, resp: Side, life: Life)

  datatype Streams = Streams(store: map<Uid, Stream>, active: map<nat, Uid>, held: map<nat, Uid>, next: Uid)

  /** The streams of the DATA frames being passed on. */
  datatype Owners = Owners(client: Option<Uid>, server: Option<Uid>)

  /** What a decoder of header blocks was given: HPACK is a function of it. */
  datatype Fed = Wrote(block: bytes) | Closed
  datatype Decoders = Decoders(client: seq<Fed>, server: seq<Fed>)
  datatype Field = Field(name: bytes, value: bytes)

  /** What one call of ParseAt collects. */
  datatype Local = Local(touched: set<nat>, statuses: map<nat, int>, grpc: map<nat, int>)

  const NONE := Local({}, map[], map[])

  /** `hpack` gives the fields of the last block written, `number` stands for strconv.Atoi and
      `length` for parseContentLength. */
  datatype Env = Env(o: P.Options, hpack: seq<Fed> -> seq<Field>, number: bytes -> int, length: bytes -> int)

  datatype Mid = Mid(s: Streams, owners: Owners, decs: Decoders, local: Local)

  const FLAG_END_STREAM: nat := 1
  const FLAG_PADDED: nat := 8

  predicate Ends(h: F.Header) {
    h.flags % 2 == FLAG_END_STREAM
  }

  predicate Padded(h: F.Header) {
    h.flags / FLAG_PADDED % 2 == 1
  }

  function OwnerOf(w: Owners, dir: Dir): Option<Uid> {
    if dir.Client? then w.client else w.server
  }

  function WithOwner(w: Owners, dir: Dir, u: Option<Uid>): Owners {
    if dir.Client? then w.(client := u) else w.(server := u)
  }

  function History(d: Decoders, dir: Dir): seq<Fed> {
    if dir.Client? then d.client else d.server
  }

  function Write(d: Decoders, dir: Dir, f: Fed): Decoders {
    if dir.Client? then d.(client := d.client + [f]) else d.(server := d.server + [f])
  }

  function Lookup(s: Streams, id: nat): Option<Uid> {
    if id in s.active then Some(s.active[id]) else None
  }

  // ---------------------------------------------------------------------------
  // Header blocks
  // ---------------------------------------------------------------------------

  function RecordBodyHeader(env: Env, h: P.Headers, f: Field): P.Headers {
    if f.name == Ascii("content-type") then if h.contentType == [] then h.(contentType := f.value) else h
    else if f.name == Ascii("content-encoding") then if h.contentEncoding == [] then h.(contentEncoding := f.value) else h
    else if f.name == Ascii("content-length") then h.(contentLength := env.length(f.value))
    else h
  }

  predicate IsHttpPath(b: bytes) {
    b == Ascii("*") || Ascii("/") <= b
  }

  predicate IsHttpScheme(b: bytes) {
    b == Ascii("http") || b == Ascii("https")
  }

  function OnInfo(i: Info, f: Field): Info {
    if f.name == Ascii(":method") then if i.verb == [] && P.IsHttpMethod(f.value) then i.(verb := f.value) else i
    else if f.name == Ascii(":path") then if i.path == [] && IsHttpPath(f.value) then i.(path := f.value) else i
    else if f.name == Ascii(":scheme") then if i.scheme == [] && IsHttpScheme(f.value) then i.(scheme := f.value) else i
    else i
  }

  /** The fields of a request: the first valid method, path and scheme count. */
  function OnRequestFields(env: Env, st: Stream, fs: seq<Field>): Stream {
    if fs == [] then st
    else
      var t := OnRequestFields(env, st, fs[..|fs| - 1]);
      var f := fs[|fs| - 1];
      t.(info := OnInfo(t.info, f), req := if env.o.enabled then t.req.(hdr := RecordBodyHeader(env, t.req.hdr, f)) else t.req)
  }

  function OnResponseFields(env: Env, st: Stream, fs: seq<Field>): Stream {
    if fs == [] then st
    else
      var t := OnResponseFields(env, st, fs[..|fs| - 1]);
      t.(resp := t.resp.(hdr := RecordBodyHeader(env, t.resp.hdr, fs[|fs| - 1])))
  }

  /** The value of the last field of that name. */
  function LastField(fs: seq<Field>, name: bytes): Option<bytes> {
    if fs == [] then None
    else if fs[|fs| - 1].name == name then Some(fs[|fs| - 1].value)
    else LastField(fs[..|fs| - 1], name)
  }

  function NewStream(env: Env, id: nat, time: nat): Stream {
    var size := if env.o.enabled then -1 else 0;
    var side := Side(P.Headers(size, false, [], []), P.Collector(if env.o.enabled then env.o.maxBytes else 0, []), false);
    Stream(id, time, Info([], [], []), Answer(0, 0, 0), side, side, Life(false, false, 0, 0))
  }

  function Put(s: Streams, u: Uid, st: Stream): Streams {
    s.(store := s.store[u := st])
  }

  function Opened(env: Env, s: Streams, id: nat, time: nat): Streams {
    if id in s.active then s
    else Streams(s.store[s.next := NewStream(env, id, time)], s.active[id := s.next], s.held, s.next + 1)
  }

  function OnRequestBlock(env: Env, s: Streams, id: nat, fs: seq<Field>, time: nat): Streams
    requires Known(s)
  {
    var t := Opened(env, s, id, time);
    Put(t, t.active[id], OnRequestFields(env, t.store[t.active[id]], fs))
  }

  function WithStatus(env: Env, l: Local, id: nat, fs: seq<Field>): Local {
    var st := LastField(fs, Ascii(":status"));
    var g := LastField(fs, Ascii("grpc-status"));
    l.(statuses := if st.Some? then l.statuses[id := env.number(st.value)]
                   else if id in l.statuses then l.statuses else l.statuses[id := 0],
       grpc := if g.Some? then l.grpc[id := env.number(g.value)] else l.grpc)
  }

  function EndResponse(st: Stream): Stream {
    st.(life := st.life.(respEnded := true))
  }

  function OnBlock(env: Env, dir: Dir, m: Mid, h: F.Header, body: bytes, time: nat): Mid
    requires Known(m.s)
  {
    var decs := Write(m.decs, dir, Wrote(body));
    var fs := env.hpack(History(decs, dir));
    if dir.Client? then m.(s := OnRequestBlock(env, m.s, h.streamId, fs, time), decs := decs)
    else
      var n := m.(decs := decs, local := WithStatus(env, m.local, h.streamId, fs));
      if !env.o.enabled || h.streamId !in m.s.active then n
      else
        var u := m.s.active[h.streamId];
        var st := if m.s.store[u].life.haveResp then m.s.store[u] else OnResponseFields(env, m.s.store[u], fs);
        if Ends(h) then n.(s := Put(m.s, u, EndResponse(st)), local := n.local.(touched := n.local.touched + {h.streamId}))
        else n.(s := Put(m.s, u, st))
  }

  // ---------------------------------------------------------------------------
  // DATA
  // ---------------------------------------------------------------------------

  /** appendData, for the stream the frame belongs to. */
  function Append(dir: Dir, st: Stream, padded: bool, b: bytes, now: int): Stream {
    if b == [] && !padded then st
    else if dir.Client? then
      if padded then st.(req := st.req.(skipped := true)) else st.(req := st.req.(body := P.Add(st.req.body, b)))
    else
      st.(life := st.life.(lastEvent := now),
          resp := if padded then st.resp.(skipped := true) else st.resp.(body := P.Add(st.resp.body, b)))
  }

  function AppendData(dir: Dir, m: Mid, h: F.Header, b: bytes, now: int): Mid {
    match OwnerOf(m.owners, dir)
    case None => m
    case Some(u) =>
      if u !in m.s.store then m else m.(s := Put(m.s, u, Append(dir, m.s.store[u], Padded(h), b, now)))
  }

  function FinishData(dir: Dir, m: Mid, h: F.Header): Mid {
    match OwnerOf(m.owners, dir)
    case None => m
    case Some(u) =>
      if u !in m.s.store || !Ends(h) || dir.Client? then m
      else m.(s := Put(m.s, u, EndResponse(m.s.store[u])), local := m.local.(touched := m.local.touched + {m.s.store[u].id}))
  }

  /** What a frame, or a part of it, does. */
  function Apply(env: Env, dir: Dir, m: Mid, a: F.Act, time: nat, now: int): Mid
    requires Known(m.s)
  {
    match a
    case Block(h, body) => OnBlock(env, dir, m, h, body, time)
    case Open(h) => AppendData(dir, m.(owners := WithOwner(m.owners, dir, Lookup(m.s, h.streamId))), h, [], now)
    case Data(h, b) => AppendData(dir, m, h, b, now)
    case Close(h) =>
      var n := FinishData(dir, m, h);
      n.(owners := WithOwner(n.owners, dir, None))
  }

  /** Every stream in flight is in the store. */
  ghost predicate Known(s: Streams) {
    forall id :: id in s.active ==> s.active[id] in s.store
  }

  function ApplyAll(env: Env, dir: Dir, m: Mid, acts: seq<F.Act>, time: nat, now: int): (n: Mid)
    requires Known(m.s)
    ensures Known(n.s)
  {
    if acts == [] then m
    else
      var n := ApplyAll(env, dir, m, acts[..|acts| - 1], time, now);
      ApplyKnown(env, dir, n, acts[|acts| - 1], time, now);
      Apply(env, dir, n, acts[|acts| - 1], time, now)
  }

  lemma ApplyKnown(env: Env, dir: Dir, m: Mid, a: F.Act, time: nat, now: int)
    requires Known(m.s)
    ensures Known(Apply(env, dir, m, a, time, now).s)
  {
    hide OnRequestFields, OnResponseFields, WithStatus, NewStream, Append;
  }

  // ---------------------------------------------------------------------------
  // The end of a call
  // ---------------------------------------------------------------------------

  datatype Request = Request(info: Info, answer: Answer, reqBody: bytes, respBody: bytes, reqSize: int, respSize: int, at: int, id: nat)

  datatype Result = Result(uid: Uid, r: Request)

  function BodyOf(o: P.Options, side: Side): bytes {
    if side.skipped then [] else P.FinishBody(o, side.body, side.hdr)
  }

  function FinishStream(o: P.Options, st: Stream): Request {
    Request(st.info, st.answer, BodyOf(o, st.req), BodyOf(o, st.resp),
            st.req.hdr.contentLength, st.resp.hdr.contentLength, st.life.at, st.id)
  }

  function Finisher(o: P.Options): Stream -> Request {
    (st: Stream) => FinishStream(o, st)
  }

  /** The request as it is returned without bodies. */
  function PlainRequest(l: Local, time: nat, st: Stream): Request {
    var status := if st.id in l.statuses then l.statuses[st.id] else 0;
    Request(st.info, Answer(status, GrpcOf(l, st.id, -1), P.Elapsed(time, st.time)), [], [], 0, 0, 0, st.id)
  }

  function Replier(l: Local, time: nat): Stream -> Request {
    (st: Stream) => PlainRequest(l, time, st)
  }

  function Remove(s: Streams, ids: set<nat>): Streams {
    s.(active := s.active - ids, held := s.held - ids)
  }

  predicate IsActive(s: Streams, u: Uid) {
    u in s.store && s.store[u].id in s.active && s.active[s.store[u].id] == u
  }

  /** 100-continue and the like are not the answer. */
  predicate IsInterim(status: int) {
    100 <= status < 200
  }

  function GrpcOf(l: Local, id: nat, otherwise: int): int {
    if id in l.grpc then l.grpc[id] else otherwise
  }

  function Answered(st: Stream, l: Local, time: nat, now: int): Stream
    requires st.id in l.statuses
  {
    var status := l.statuses[st.id];
    if st.life.haveResp then st.(answer := st.answer.(grpc := GrpcOf(l, st.id, st.answer.grpc)))
    else if IsInterim(status) then st
    else st.(answer := Answer(status, GrpcOf(l, st.id, -1), P.Elapsed(time, st.time)),
             life := Life(true, st.life.respEnded, now, now))
  }

  /** The streams that get their answer in this call. */
  function Fresh(s: Streams, l: Local): set<nat>
    requires Known(s)
  {
    set id | id in s.active && id in l.statuses && !s.store[s.active[id]].life.haveResp && !IsInterim(l.statuses[id])
  }

  function AnswerAll(s: Streams, l: Local, time: nat, now: int): Streams
    requires Known(s)
  {
    s.(store := map u | u in s.store ::
         if IsActive(s, u) && s.store[u].id in l.statuses then Answered(s.store[u], l, time, now) else s.store[u],
       held := s.held + map id | id in Fresh(s, l) :: s.active[id])
  }

  function Done(s: Streams, touched: set<nat>): set<nat>
    requires Known(s)
  {
    set id | id in s.active && id in touched && s.store[s.active[id]].life.haveResp && s.store[s.active[id]].life.respEnded
  }

  function Results(s: Streams, ids: set<nat>, make: Stream -> Request): set<Result>
    requires Known(s) && ids <= s.active.Keys
  {
    set id | id in ids :: Result(s.active[id], make(s.store[s.active[id]]))
  }

  /** completeStreams: the answers are noted, and what is answered and ended is returned. */
  function CompleteStreams(env: Env, s: Streams, l: Local, time: nat, now: int): (Streams, set<Result>)
    requires Known(s)
  {
    var t := AnswerAll(s, l, time, now);
    var ids := Done(t, l.touched + Fresh(s, l));
    (Remove(t, ids), Results(t, ids, Finisher(env.o)))
  }

  /** Without bodies, a response is returned with its headers. */
  function Reply(s: Streams, l: Local, time: nat): (Streams, set<Result>)
    requires Known(s)
  {
    var ids := set id | id in s.active && id in l.statuses;
    (Remove(s, ids), Results(s, ids, Replier(l, time)))
  }

  const GC_INTERVAL: nat := 600_000_000_000
  const HOLD_MAX: int := 5_000_000_000

  /** More than ten minutes, by the difference of two 64-bit counters. */
  predicate Old(now: nat, since: nat) {
    (now - since) % 0x1_0000_0000_0000_0000 > GC_INTERVAL
  }

  function Gc(s: Streams, lastGc: nat, time: nat): (Streams, nat)
    requires Known(s)
  {
    if !Old(time, lastGc) then (s, lastGc)
    else if lastGc == 0 then (s, time)
    else (Remove(s, set id | id in s.active && Old(time, s.store[s.active[id]].time)), time)
  }

  // ---------------------------------------------------------------------------
  // The parser
  // ---------------------------------------------------------------------------

  datatype Frames = Frames(client: F.State, server: F.State)

  datatype Parser = Parser(frames: Frames, owners: Owners, decs: Decoders, s: Streams, lastGc: nat)

  const EMPTY := Parser(Frames(F.IDLE, F.IDLE), Owners(None, None), Decoders([], []), Streams(map[], map[], map[], 0), 0)

  function FrameState(f: Frames, dir: Dir): F.State {
    if dir.Client? then f.client else f.server
  }

  function WithFrameState(f: Frames, dir: Dir, st: F.State): Frames {
    if dir.Client? then f.(client := st) else f.(server := st)
  }

  /** The event ends inside a frame that was being put together. */
  predicate StaysPartial(st: F.State, b: bytes) {
    st.Body? && |st.acc| + |b| < st.h.length
  }

  function ParseAt(env: Env, p: Parser, dir: Dir, payload: bytes, time: nat, now: int): (Parser, set<Result>)
    requires Known(p.s)
  {
    var b := F.Strip(dir.Client?, payload);
    if b == [] then (p, {})
    else
      var st := FrameState(p.frames, dir);
      var (t, acts) := F.Framed(env.o.enabled, dir.Client?, st, payload);
      var frames := WithFrameState(p.frames, dir, t);
      if StaysPartial(st, b) then (p.(frames := frames, decs := Write(p.decs, dir, Closed)), {})
      else Proceed(env, p.(frames := frames), dir, acts, time, now)
  }

  /** The frames of an event are applied, what is complete is returned, what is old is dropped. */
  function Proceed(env: Env, p: Parser, dir: Dir, acts: seq<F.Act>, time: nat, now: int): (Parser, set<Result>)
    requires Known(p.s)
  {
    var m := ApplyAll(env, dir, Mid(p.s, p.owners, p.decs, NONE), acts, time, now);
    var (s, out) := if env.o.enabled then CompleteStreams(env, m.s, m.local, time, now) else Reply(m.s, m.local, time);
    CompletedKnown(env, m.s, m.local, time, now);
    var (s', lastGc) := Gc(s, p.lastGc, time);
    (Parser(p.frames, m.owners, Write(m.decs, dir, Closed), s', lastGc), out)
  }

  lemma CompletedKnown(env: Env, s: Streams, l: Local, time: nat, now: int)
    requires Known(s)
    ensures Known(CompleteStreams(env, s, l, time, now).0) && Known(Reply(s, l, time).0)
  {
    hide Answered, FinishStream;
  }

  /** The rest of a DATA frame of that stream is still due. */
  predicate Due(p: Parser, u: Uid) {
    p.frames.server.InData? && p.owners.server == Some(u)
  }

  function Quiet(env: Env, p: Parser, now: int): set<nat> {
    set id | id in p.s.held && p.s.held[id] in p.s.store && !Due(p, p.s.held[id]) &&
             (now - p.s.store[p.s.held[id]].life.lastEvent >= env.o.wait || now - p.s.store[p.s.held[id]].life.at >= HOLD_MAX)
  }

  function Flush(env: Env, p: Parser, now: int): (Parser, set<Result>) {
    var ids := Quiet(env, p, now);
    (p.(s := Remove(p.s, ids)), set id | id in ids :: Result(p.s.held[id], FinishStream(env.o, p.s.store[p.s.held[id]])))
  }

  // ---------------------------------------------------------------------------
  // What every call keeps
  // ---------------------------------------------------------------------------

  /** Streams are in flight under their own id, names are not used again, and what is held is what has
      an answer. */
  ghost predicate Consistent(s: Streams) {
    && (forall u :: u in s.store ==> u < s.next)
    && (forall id :: id in s.active ==> s.active[id] in s.store && s.store[s.active[id]].id == id)
    && (forall id :: id in s.held <==> id in s.active && s.store[s.active[id]].life.haveResp)
    && (forall id :: id in s.held ==> s.held[id] == s.active[id])
  }

  /** Only these streams can be answered and ended and still be in flight. */
  ghost predicate Settled(s: Streams, touched: set<nat>)
    requires Known(s)
  {
    forall id :: id in s.active && s.store[s.active[id]].life.haveResp && s.store[s.active[id]].life.respEnded ==> id in touched
  }

  ghost predicate OwnersOk(s: Streams, w: Owners) {
    (w.client.Some? ==> w.client.value in s.store) && (w.server.Some? ==> w.server.value in s.store)
  }

  /** A stream that was returned is not in flight again. */
  ghost predicate Retired(s: Streams, gone: set<Uid>) {
    (forall u :: u in gone ==> u < s.next) && (forall id :: id in s.active ==> s.active[id] !in gone)
  }

  ghost predicate MidOk(m: Mid, gone: set<Uid>) {
    Consistent(m.s) && Settled(m.s, m.local.touched) && OwnersOk(m.s, m.owners) && Retired(m.s, gone)
  }

  ghost predicate ParserOk(enabled: bool, p: Parser, gone: set<Uid>) {
    && Consistent(p.s) && OwnersOk(p.s, p.owners) && Retired(p.s, gone)
    && (enabled ==> Settled(p.s, {}))
    && (!enabled ==> p.s.held == map[])
    && F.Ok(enabled, p.frames.client) && F.Ok(enabled, p.frames.server)
  }

  /** What a change to a stream in flight may not touch. */
  predicate Alike(a: Stream, b: Stream) {
    a.id == b.id && a.life.haveResp == b.life.haveResp
  }

  lemma PutKeeps(m: Mid, gone: set<Uid>, u: Uid, st: Stream, touched: set<nat>)
    requires MidOk(m, gone) && u in m.s.store && Alike(st, m.s.store[u])
    requires m.local.touched <= touched && (st.life.respEnded == m.s.store[u].life.respEnded || st.id in touched)
    ensures MidOk(m.(s := Put(m.s, u, st), local := m.local.(touched := touched)), gone)
  {
  }

  lemma {:induction false} FieldsAlike(env: Env, st: Stream, fs: seq<Field>)
    ensures Alike(st, OnRequestFields(env, st, fs)) && OnRequestFields(env, st, fs).life == st.life
    ensures Alike(st, OnResponseFields(env, st, fs)) && OnResponseFields(env, st, fs).life == st.life
  {
    hide OnInfo, RecordBodyHeader;
    if fs != [] { FieldsAlike(env, st, fs[..|fs| - 1]); }
  }

  lemma OpenedKeeps(env: Env, m: Mid, gone: set<Uid>, id: nat, time: nat)
    requires MidOk(m, gone)
    ensures MidOk(m.(s := Opened(env, m.s, id, time)), gone) && id in Opened(env, m.s, id, time).active
  {
  }

  lemma BlockKeeps(env: Env, dir: Dir, m: Mid, h: F.Header, body: bytes, time: nat, gone: set<Uid>)
    requires MidOk(m, gone)
    ensures MidOk(OnBlock(env, dir, m, h, body, time), gone)
  {
    hide OnRequestFields, OnResponseFields, LastField, Opened, MidOk;
    var fs := env.hpack(History(Write(m.decs, dir, Wrote(body)), dir));
    var id := h.streamId;
    MidIs(m, gone);
    if dir.Client? {
      OpenedKeeps(env, m, gone, id, time);
      var t := m.(s := Opened(env, m.s, id, time));
      MidIs(t, gone);
      var u := t.s.active[id];
      FieldsAlike(env, t.s.store[u], fs);
      PutKeeps(t, gone, u, OnRequestFields(env, t.s.store[u], fs), t.local.touched);
      SameMid(t.(s := Put(t.s, u, OnRequestFields(env, t.s.store[u], fs))), OnBlock(env, dir, m, h, body, time), gone);
    } else if env.o.enabled && id in m.s.active {
      var u := m.s.active[id];
      FieldsAlike(env, m.s.store[u], fs);
      var st := if m.s.store[u].life.haveResp then m.s.store[u] else OnResponseFields(env, m.s.store[u], fs);
      if Ends(h) {
        PutKeeps(m, gone, u, EndResponse(st), m.local.touched + {id});
        SameMid(m.(s := Put(m.s, u, EndResponse(st)), local := m.local.(touched := m.local.touched + {id})),
                OnBlock(env, dir, m, h, body, time), gone);
      } else {
        PutKeeps(m, gone, u, st, m.local.touched);
        SameMid(m.(s := Put(m.s, u, st)), OnBlock(env, dir, m, h, body, time), gone);
      }
    } else {
      SameMid(m, OnBlock(env, dir, m, h, body, time), gone);
    }
  }

  lemma MidIs(m: Mid, gone: set<Uid>)
    requires MidOk(m, gone)
    ensures Known(m.s) && OwnersOk(m.s, m.owners)
    ensures forall id :: id in m.s.active ==> m.s.store[m.s.active[id]].id == id
  {
  }

  lemma SameMid(m: Mid, n: Mid, gone: set<Uid>)
    requires MidOk(m, gone) && n.s == m.s && n.owners == m.owners && n.local.touched == m.local.touched
    ensures MidOk(n, gone)
  {
  }

  lemma AppendKeeps(dir: Dir, m: Mid, h: F.Header, b: bytes, now: int, gone: set<Uid>)
    requires MidOk(m, gone)
    ensures MidOk(AppendData(dir, m, h, b, now), gone)
  {
    var o := OwnerOf(m.owners, dir);
    if o.Some? {
      var st := Append(dir, m.s.store[o.value], Padded(h), b, now);
      hide Append, MidOk;
      assert Alike(st, m.s.store[o.value]) && st.life.respEnded == m.s.store[o.value].life.respEnded by {
        AppendAlike(dir, m.s.store[o.value], Padded(h), b, now);
      }
      PutKeeps(m, gone, o.value, st, m.local.touched);
    }
  }

  lemma AppendAlike(dir: Dir, st: Stream, padded: bool, b: bytes, now: int)
    ensures var t := Append(dir, st, padded, b, now); Alike(t, st) && t.life.respEnded == st.life.respEnded
  {
  }

  lemma ApplyKeeps(env: Env, dir: Dir, m: Mid, a: F.Act, time: nat, now: int, gone: set<Uid>)
    requires MidOk(m, gone)
    ensures MidOk(Apply(env, dir, m, a, time, now), gone)
  {
    hide OnBlock, Append;
    match a
    case Block(h, body) => BlockKeeps(env, dir, m, h, body, time, gone);
    case Open(h) => AppendKeeps(dir, m.(owners := WithOwner(m.owners, dir, Lookup(m.s, h.streamId))), h, [], now, gone);
    case Data(h, b) => AppendKeeps(dir, m, h, b, now, gone);
    case Close(h) =>
      var o := OwnerOf(m.owners, dir);
      if o.Some? && Ends(h) && dir.Server? {
        PutKeeps(m, gone, o.value, EndResponse(m.s.store[o.value]), m.local.touched + {m.s.store[o.value].id});
      }
  }

  lemma {:induction false} ApplyAllKeeps(env: Env, dir: Dir, m: Mid, acts: seq<F.Act>, time: nat, now: int, gone: set<Uid>)
    requires MidOk(m, gone)
    ensures MidOk(ApplyAll(env, dir, m, acts, time, now), gone)
  {
    hide Apply, MidOk;
    MidIs(m, gone);
    if acts != [] {
      var n := |acts| - 1;
      ApplyAllKeeps(env, dir, m, acts[..n], time, now, gone);
      ApplyKeeps(env, dir, ApplyAll(env, dir, m, acts[..n], time, now), acts[n], time, now, gone);
    }
  }

  function Uids(out: set<Result>): set<Uid> {
    set r | r in out :: r.uid
  }

  lemma AnswerAllKeeps(m: Mid, gone: set<Uid>, time: nat, now: int)
    requires MidOk(m, gone)
    ensures var t := AnswerAll(m.s, m.local, time, now);
      Consistent(t) && Settled(t, m.local.touched + Fresh(m.s, m.local)) && OwnersOk(t, m.owners) && Retired(t, gone)
  {
    var t := AnswerAll(m.s, m.local, time, now);
    forall id | id in m.s.active
      ensures IsActive(m.s, m.s.active[id]) && t.store[m.s.active[id]].id == id
    {
    }
  }

  /** Taking streams out of flight. */
  lemma RemoveKeeps(s: Streams, w: Owners, gone: set<Uid>, ids: set<nat>, more: set<Uid>)
    requires Consistent(s) && OwnersOk(s, w) && Retired(s, gone) && ids <= s.active.Keys
    requires forall u :: u in more ==> exists id :: id in ids && s.active[id] == u
    ensures var t := Remove(s, ids); Consistent(t) && OwnersOk(t, w) && Retired(t, gone + more) && gone !! more
  {
    forall u | u in more
      ensures u in s.store && u < s.next && u !in gone && forall id :: id in Remove(s, ids).active ==> s.active[id] != u
    {
      var id :| id in ids && s.active[id] == u;
      assert s.store[u].id == id;
    }
  }

  /** No stream is in there twice. */
  ghost predicate Distinct(out: set<Result>) {
    forall a, b :: a in out && b in out && a.uid == b.uid ==> a == b
  }

  lemma CompleteKeeps(env: Env, m: Mid, gone: set<Uid>, time: nat, now: int)
    requires MidOk(m, gone)
    ensures var (t, out) := CompleteStreams(env, m.s, m.local, time, now);
      && Consistent(t) && Settled(t, {}) && OwnersOk(t, m.owners) && Retired(t, gone + Uids(out))
      && Distinct(out) && gone !! Uids(out)
  {
    var t := AnswerAll(m.s, m.local, time, now);
    AnswerAllKeeps(m, gone, time, now);
    hide AnswerAll, FinishStream;
    var ids := Done(t, m.local.touched + Fresh(m.s, m.local));
    RemoveKeeps(t, m.owners, gone, ids, Uids(Results(t, ids, Finisher(env.o))));
  }

  lemma ReplyKeeps(m: Mid, gone: set<Uid>, time: nat)
    requires MidOk(m, gone)
    ensures var (t, out) := Reply(m.s, m.local, time);
      && Consistent(t) && OwnersOk(t, m.owners) && Retired(t, gone + Uids(out))
      && Distinct(out) && gone !! Uids(out)
  {
    var ids := set id | id in m.s.active && id in m.local.statuses;
    RemoveKeeps(m.s, m.owners, gone, ids, Uids(Reply(m.s, m.local, time).1));
  }

  lemma GcKeeps(s: Streams, w: Owners, gone: set<Uid>, lastGc: nat, time: nat)
    requires Consistent(s) && OwnersOk(s, w) && Retired(s, gone)
    ensures var t := Gc(s, lastGc, time).0;
      Consistent(t) && OwnersOk(t, w) && Retired(t, gone) && (Settled(s, {}) ==> Settled(t, {})) && t.held.Keys <= s.held.Keys
  {
    if Old(time, lastGc) && lastGc > 0 {
      RemoveKeeps(s, w, gone, set id | id in s.active && Old(time, s.store[s.active[id]].time), {});
      assert gone + {} == gone;
    }
  }

  lemma {:induction false} ApplyAllHeld(env: Env, dir: Dir, m: Mid, acts: seq<F.Act>, time: nat, now: int)
    requires Known(m.s)
    ensures ApplyAll(env, dir, m, acts, time, now).s.held == m.s.held
  {
    hide OnRequestFields, OnResponseFields, WithStatus, NewStream, Append;
    if acts != [] { ApplyAllHeld(env, dir, m, acts[..|acts| - 1], time, now); }
  }

  lemma {:induction false} FeedOk(bodies: bool, st: F.State, b: bytes)
    requires F.Ok(bodies, st)
    ensures F.Ok(bodies, F.Feed(bodies, st, b).0)
  {
    hide F.Decode;
    if b != [] { FeedOk(bodies, st, b[..|b| - 1]); }
  }

  lemma FramedOk(bodies: bool, client: bool, st: F.State, payload: bytes)
    requires F.Ok(bodies, st)
    ensures F.Ok(bodies, F.Framed(bodies, client, st, payload).0)
  {
    hide F.Feed;
    FeedOk(bodies, st, F.Strip(client, payload));
  }

  lemma ParseKeeps(env: Env, p: Parser, dir: Dir, payload: bytes, time: nat, now: int, gone: set<Uid>)
    requires ParserOk(env.o.enabled, p, gone)
    ensures var (q, out) := ParseAt(env, p, dir, payload, time, now);
      ParserOk(env.o.enabled, q, gone + Uids(out)) && Distinct(out) && gone !! Uids(out)
  {
    hide F.Framed, F.Ok, F.Strip, CompleteStreams, Reply, Gc, ApplyAll, Consistent, OwnersOk, Retired, Settled;
    var b := F.Strip(dir.Client?, payload);
    var st := FrameState(p.frames, dir);
    var none: set<Result> := {};
    assert Uids(none) == {} && gone + {} == gone;
    FramedOk(env.o.enabled, dir.Client?, st, payload);
    ConsistentKnown(p.s);
    if b != [] && !StaysPartial(st, b) {
      var acts := F.Framed(env.o.enabled, dir.Client?, st, payload).1;
      var start := Mid(p.s, p.owners, p.decs, NONE);
      MidStarts(env.o.enabled, p, gone);
      ApplyAllKeeps(env, dir, start, acts, time, now, gone);
      ApplyAllHeld(env, dir, start, acts, time, now);
      var m := ApplyAll(env, dir, start, acts, time, now);
      CompletedKnown(env, m.s, m.local, time, now);
      if env.o.enabled {
        CompleteKeeps(env, m, gone, time, now);
        var (s, out) := CompleteStreams(env, m.s, m.local, time, now);
        GcKeeps(s, m.owners, gone + Uids(out), p.lastGc, time);
      } else {
        ReplyKeeps(m, gone, time);
        var (s, out) := Reply(m.s, m.local, time);
        assert s.held == map[] by {
          ReplyHeld(m, time);
        }
        GcKeeps(s, m.owners, gone + Uids(out), p.lastGc, time);
        assert Gc(s, p.lastGc, time).0.held == map[];
      }
    }
  }

  lemma ReplyHeld(m: Mid, time: nat)
    requires Known(m.s)
    ensures Reply(m.s, m.local, time).0.held == m.s.held - set id | id in m.s.active && id in m.local.statuses
  {
  }

  lemma ConsistentKnown(s: Streams)
    requires Consistent(s)
    ensures Known(s)
  {
  }

  /** Without bodies nothing has an answer and is in flight, so there is nothing to settle. */
  lemma MidStarts(enabled: bool, p: Parser, gone: set<Uid>)
    requires ParserOk(enabled, p, gone)
    ensures MidOk(Mid(p.s, p.owners, p.decs, NONE), gone)
  {
    if !enabled {
      assert forall id :: id in p.s.active ==> id !in p.s.held;
    }
  }

  lemma FlushKeeps(env: Env, p: Parser, now: int, gone: set<Uid>)
    requires ParserOk(env.o.enabled, p, gone)
    ensures var (q, out) := Flush(env, p, now);
      ParserOk(env.o.enabled, q, gone + Uids(out)) && Distinct(out) && gone !! Uids(out)
  {
    hide FinishStream, F.Ok;
    RemoveKeeps(p.s, p.owners, gone, Quiet(env, p, now), Uids(Flush(env, p, now).1));
  }

  // ---------------------------------------------------------------------------
  // Runs
  // ---------------------------------------------------------------------------

  datatype Input = Parse(dir: Dir, payload: bytes, time: nat, now: int) | FlushAt(now: int)

  function Handle(env: Env, p: Parser, i: Input): (Parser, set<Result>)
    requires Known(p.s)
  {
    match i
    case Parse(dir, payload, time, now) => ParseAt(env, p, dir, payload, time, now)
    case FlushAt(now) => Flush(env, p, now)
  }

  ghost predicate Handles(env: Env, p: Parser, i: Input, q: Parser, out: set<Result>) {
    Known(p.s) && (q, out) == Handle(env, p, i)
  }

  /** The states and results of a run: every call starts where the one before ended. */
  ghost predicate IsRun(env: Env, inputs: seq<Input>, states: seq<Parser>, outs: seq<set<Result>>) {
    && |states| == |inputs| + 1 && |outs| == |inputs| && states[0] == EMPTY
    && forall i {:trigger outs[i]} :: 0 <= i < |inputs| ==> Handles(env, states[i], inputs[i], states[i + 1], outs[i])
  }

  function AllUids(outs: seq<set<Result>>): set<Uid> {
    if outs == [] then {} else AllUids(outs[..|outs| - 1]) + Uids(outs[|outs| - 1])
  }

  lemma {:induction false} InAllUids(outs: seq<set<Result>>, i: nat)
    requires i < |outs|
    ensures Uids(outs[i]) <= AllUids(outs)
  {
    if i < |outs| - 1 {
      InAllUids(outs[..|outs| - 1], i);
    }
  }

  lemma {:induction false} EveryRunKeeps(env: Env, inputs: seq<Input>, states: seq<Parser>, outs: seq<set<Result>>)
    requires IsRun(env, inputs, states, outs)
    ensures ParserOk(env.o.enabled, states[|inputs|], AllUids(outs))
    ensures forall i :: 0 <= i < |outs| ==> Distinct(outs[i]) && Uids(outs[i]) !! AllUids(outs[..i])
    decreases |inputs|
  {
    hide ParseAt, Flush, ParserOk, Distinct, Uids, Handles;
    if inputs == [] {
      EmptyOk(env.o.enabled);
    } else {
      var n := |inputs| - 1;
      EveryRunKeeps(env, inputs[..n], states[..n + 1], outs[..n]);
      assert states[..n + 1][n] == states[n];
      var gone := AllUids(outs[..n]);
      HandleKeeps(env, states[n], inputs[n], states[n + 1], outs[n], gone);
      forall i | 0 <= i < |outs|
        ensures Distinct(outs[i]) && Uids(outs[i]) !! AllUids(outs[..i])
      {
        if i < n {
          assert outs[..n][..i] == outs[..i];
        }
      }
    }
  }

  lemma HandleKeeps(env: Env, p: Parser, i: Input, q: Parser, out: set<Result>, gone: set<Uid>)
    requires ParserOk(env.o.enabled, p, gone) && Handles(env, p, i, q, out)
    ensures ParserOk(env.o.enabled, q, gone + Uids(out)) && Distinct(out) && gone !! Uids(out)
  {
    hide ParseAt, Flush, ParserOk, Distinct, Uids;
    match i {
      case Parse(dir, payload, time, now) => ParseKeeps(env, p, dir, payload, time, now, gone);
      case FlushAt(now) => FlushKeeps(env, p, now, gone);
    }
  }

  lemma EmptyOk(enabled: bool)
    ensures ParserOk(enabled, EMPTY, {})
  {
  }

  /** In every run a stream is returned at most once, and after every call with bodies what is held is
      what is in flight with an answer, and nothing in flight is both answered and ended. */
  lemma StreamsAreReturnedOnce(env: Env, inputs: seq<Input>, states: seq<Parser>, outs: seq<set<Result>>)
    requires IsRun(env, inputs, states, outs)
    ensures forall i, j, a, b :: 0 <= i <= j < |outs| && a in outs[i] && b in outs[j] && a.uid == b.uid ==> i == j && a == b
    ensures forall i, a, id :: 0 <= i < |outs| && a in outs[i] && id in states[|inputs|].s.active ==> states[|inputs|].s.active[id] != a.uid
    ensures var s := states[|inputs|].s;
      && Known(s)
      && (forall id :: id in s.held <==> id in s.active && s.store[s.active[id]].life.haveResp)
      && (env.o.enabled ==> forall id :: id in s.active ==> !(s.store[s.active[id]].life.haveResp && s.store[s.active[id]].life.respEnded))
  {
    EveryRunKeeps(env, inputs, states, outs);
    hide Handle;
    forall i, j, a, b | 0 <= i <= j < |outs| && a in outs[i] && b in outs[j] && a.uid == b.uid
      ensures i == j && a == b
    {
      assert a.uid in Uids(outs[i]) && b.uid in Uids(outs[j]);
      if i < j { InAllUids(outs[..j], i); }
    }
    forall i, a, id | 0 <= i < |outs| && a in outs[i] && id in states[|inputs|].s.active
      ensures states[|inputs|].s.active[id] != a.uid
    {
      InAllUids(outs, i);
      assert a.uid in Uids(outs[i]);
    }
  }

  // ---------------------------------------------------------------------------
  // Where a DATA frame is cut does not matter to its stream
  // ---------------------------------------------------------------------------

  lemma AddTwice(c: P.Collector, a: bytes, b: bytes)
    ensures P.Add(P.Add(c, a), b) == P.Add(c, a + b)
  {
    var ab := a + b;
    if |c.buf| < c.max {
      var room := c.max - |c.buf|;
      if |a| < room {
        assert Take(ab, room) == a + Take(b, room - |a|);
        assert c.buf + (a + Take(b, room - |a|)) == (c.buf + a) + Take(b, room - |a|);
      } else {
        assert Take(ab, room) == Take(a, room);
      }
    }
  }

  lemma AppendTwice(dir: Dir, st: Stream, padded: bool, a: bytes, b: bytes, now: int)
    requires a != [] && b != []
    ensures Append(dir, Append(dir, st, padded, a, now), padded, b, now) == Append(dir, st, padded, a + b, now)
  {
    hide P.Add;
    AddTwice(st.req.body, a, b);
    AddTwice(st.resp.body, a, b);
  }

  lemma {:induction false} ApplyAllConcat(env: Env, dir: Dir, m: Mid, a: seq<F.Act>, b: seq<F.Act>, time: nat, now: int)
    requires Known(m.s)
    ensures ApplyAll(env, dir, m, a + b, time, now) == ApplyAll(env, dir, ApplyAll(env, dir, m, a, time, now), b, time, now)
    decreases |b|
  {
    hide Apply;
    if b == [] {
      assert a + b == a;
    } else {
      var n := |b| - 1;
      ApplyAllConcat(env, dir, m, a, b[..n], time, now);
      assert (a + b)[..|a + b| - 1] == a + b[..n];
    }
  }

  lemma ApplyOne(env: Env, dir: Dir, m: Mid, a: F.Act, time: nat, now: int)
    requires Known(m.s)
    ensures ApplyAll(env, dir, m, [a], time, now) == Apply(env, dir, m, a, time, now)
  {
    hide Apply;
    assert [a][..0] == [];
  }

  lemma {:induction false} ApplyEach(env: Env, dir: Dir, m: Mid, h: F.Header, b: bytes, time: nat, now: int)
    requires Known(m.s) && b != []
    ensures ApplyAll(env, dir, m, F.Each(h, b), time, now) == AppendData(dir, m, h, b, now)
  {
    hide Append, ApplyAll;
    var n := |b| - 1;
    var x := F.Data(h, [b[n]]);
    if n == 0 {
      assert F.Each(h, b) == [x] && b == [b[0]];
      ApplyOne(env, dir, m, x, time, now);
    } else {
      ApplyEach(env, dir, m, h, b[..n], time, now);
      assert F.Each(h, b) == F.Each(h, b[..n]) + [x] && b == b[..n] + [b[n]];
      ApplyAllConcat(env, dir, m, F.Each(h, b[..n]), [x], time, now);
      var t := AppendData(dir, m, h, b[..n], now);
      ApplyOne(env, dir, t, x, time, now);
      var o := OwnerOf(m.owners, dir);
      if o.Some? && o.value in m.s.store {
        AppendTwice(dir, m.s.store[o.value], Padded(h), b[..n], [b[n]], now);
        assert m.s.store[o.value := t.s.store[o.value]][o.value := AppendData(dir, t, h, [b[n]], now).s.store[o.value]] ==
               m.s.store[o.value := AppendData(dir, t, h, [b[n]], now).s.store[o.value]];
      }
    }
  }

  lemma BringsInit(acts: seq<F.Act>)
    requires F.Brings(acts) && acts != []
    ensures F.Brings(acts[..|acts| - 1]) && (acts[|acts| - 1].Data? ==> acts[|acts| - 1].body != [])
  {
  }

  /** The chunks of DATA frames and their bytes do the same. */
  lemma {:induction false} ApplyFlat(env: Env, dir: Dir, m: Mid, acts: seq<F.Act>, time: nat, now: int)
    requires Known(m.s) && F.Brings(acts)
    ensures ApplyAll(env, dir, m, F.Flat(acts), time, now) == ApplyAll(env, dir, m, acts, time, now)
    decreases |acts|
  {
    hide ApplyAll, Apply, Append, F.Flat, F.Each, F.Brings, AppendData;
    if acts == [] {
      F.FlatEmpty();
    } else {
      var n := |acts| - 1;
      var init, a := acts[..n], acts[n];
      BringsInit(acts);
      ApplyFlat(env, dir, m, init, time, now);
      F.FlatSnoc(init, a);
      assert acts == init + [a];
      var t := ApplyAll(env, dir, m, init, time, now);
      ApplyAllConcat(env, dir, m, F.Flat(init), F.Shown(a), time, now);
      ApplyAllConcat(env, dir, m, init, [a], time, now);
      ApplyOne(env, dir, t, a, time, now);
      if a.Data? {
        ApplyEach(env, dir, t, a.h, a.body, time, now);
        DataIsAppended(env, dir, t, a.h, a.body, time, now);
      }
    }
  }

  lemma DataIsAppended(env: Env, dir: Dir, m: Mid, h: F.Header, b: bytes, time: nat, now: int)
    requires Known(m.s)
    ensures Apply(env, dir, m, F.Data(h, b), time, now) == AppendData(dir, m, h, b, now)
  {
  }
}
