/**
Streams do not interfere. The parser keeps all streams of a connection in shared maps, and DATA frames
of different streams come in turns; what it knows and returns of one stream is what a parser of that
stream alone would. Here is that parser of one stream, without maps and names, and the proof; and what
it reads from the frames of an exchange.
*/
module Http2Exchange {
  import opened Bytes
  import F = Http2Frames
  import P = Http1Parser
  import Utf8
  import opened Http2Streams
  import opened Wrappers

  // ---------------------------------------------------------------------------
  // One stream
  // ---------------------------------------------------------------------------

  /** The stream if it is in flight, whether the DATA frame being passed on is its own, and the status
      that came for it with this event. */
  datatype One = One(st: Option<Stream>, mineClient: bool, mineServer: bool, status: Option<int>, grpc: Option<int>)

  function Mine(o: One, dir: Dir): bool {
    if dir.Client? then o.mineClient else o.mineServer
  }

  function WithMine(o: One, dir: Dir, b: bool): One {
    if dir.Client? then o.(mineClient := b) else o.(mineServer := b)
  }

  function OneStatus(env: Env, o: One, fs: seq<Field>): One {
    var s := LastField(fs, Ascii(":status"));
    var g := LastField(fs, Ascii("grpc-status"));
    o.(status := if s.Some? then Some(env.number(s.value)) else if o.status.Some? then o.status else Some(0),
       grpc := if g.Some? then Some(env.number(g.value)) else o.grpc)
  }

  function OneBlock(env: Env, dir: Dir, id: nat, o: One, h: F.Header, fs: seq<Field>, time: nat): One {
    if dir.Client? then
      o.(st := Some(OnRequestFields(env, if o.st.Some? then o.st.value else NewStream(env, id, time), fs)))
    else
      var n := OneStatus(env, o, fs);
      if !env.o.enabled || o.st.None? then n
      else
        var st := if o.st.value.life.haveResp then o.st.value else OnResponseFields(env, o.st.value, fs);
        n.(st := Some(if Ends(h) then EndResponse(st) else st))
  }

  function OneAppend(dir: Dir, o: One, h: F.Header, b: bytes, now: int): One {
    if Mine(o, dir) && o.st.Some? then o.(st := Some(Append(dir, o.st.value, Padded(h), b, now))) else o
  }

  function OneAct(env: Env, dir: Dir, id: nat, o: One, a: F.Act, fs: seq<Field>, time: nat, now: int): One {
    match a
    case Block(h, _) => if h.streamId == id then OneBlock(env, dir, id, o, h, fs, time) else o
    case Open(h) => OneAppend(dir, WithMine(o, dir, h.streamId == id && o.st.Some?), h, [], now)
    case Data(h, b) => OneAppend(dir, o, h, b, now)
    case Close(h) =>
      var n := if Mine(o, dir) && o.st.Some? && Ends(h) && dir.Server? then o.(st := Some(EndResponse(o.st.value))) else o;
      WithMine(n, dir, false)
  }

  /** The fields a block decodes to: a block is decoded in the order it came, whatever stream it is of. */
  function FieldsOf(env: Env, decs: Decoders, dir: Dir, a: F.Act): seq<Field> {
    if a.Block? then env.hpack(History(Write(decs, dir, Wrote(a.body)), dir)) else []
  }

  function DecsAfter(decs: Decoders, dir: Dir, a: F.Act): Decoders {
    if a.Block? then Write(decs, dir, Wrote(a.body)) else decs
  }

  function OneAll(env: Env, dir: Dir, id: nat, o: One, decs: Decoders, acts: seq<F.Act>, time: nat, now: int): (One, Decoders) {
    if acts == [] then (o, decs)
    else
      var n := |acts| - 1;
      var (p, d) := OneAll(env, dir, id, o, decs, acts[..n], time, now);
      (OneAct(env, dir, id, p, acts[n], FieldsOf(env, d, dir, acts[n]), time, now), DecsAfter(d, dir, acts[n]))
  }

  // ---------------------------------------------------------------------------
  // The parser of all streams, seen from one
  // ---------------------------------------------------------------------------

  function StreamOf(s: Streams, id: nat): Option<Stream>
    requires Known(s)
  {
    if id in s.active then Some(s.store[s.active[id]]) else None
  }

  predicate Owns(s: Streams, w: Owners, id: nat, dir: Dir) {
    id in s.active && OwnerOf(w, dir) == Some(s.active[id])
  }

  function Seen(m: Mid, id: nat): One
    requires Known(m.s)
  {
    One(StreamOf(m.s, id), Owns(m.s, m.owners, id, Client), Owns(m.s, m.owners, id, Server),
        if id in m.local.statuses then Some(m.local.statuses[id]) else None,
        if id in m.local.grpc then Some(m.local.grpc[id]) else None)
  }

  lemma PutSeen(m: Mid, u: Uid, st: Stream, id: nat, gone: set<Uid>)
    requires MidOk(m, gone) && u in m.s.store && st.id == m.s.store[u].id
    ensures Known(Put(m.s, u, st)) && Seen(m.(s := Put(m.s, u, st)), id) ==
      if id in m.s.active && m.s.active[id] == u then Seen(m, id).(st := Some(st)) else Seen(m, id)
  {
  }

  lemma OpenedSeen(env: Env, m: Mid, of: nat, time: nat, id: nat, gone: set<Uid>)
    requires MidOk(m, gone)
    ensures var t := m.(s := Opened(env, m.s, of, time));
      && MidOk(t, gone) && of in t.s.active
      && Seen(t, id) == if id == of && Seen(m, id).st.None? then Seen(m, id).(st := Some(NewStream(env, id, time))) else Seen(m, id)
  {
    OpenedKeeps(env, m, gone, of, time);
    hide NewStream;
    assert m.s.next !in m.s.store;
  }

  lemma RequestBlockSeen(env: Env, m: Mid, h: F.Header, body: bytes, time: nat, id: nat, gone: set<Uid>)
    requires MidOk(m, gone)
    ensures Known(OnBlock(env, Client, m, h, body, time).s)
    ensures Seen(OnBlock(env, Client, m, h, body, time), id) ==
      var fs := FieldsOf(env, m.decs, Client, F.Block(h, body));
      if h.streamId == id then OneBlock(env, Client, id, Seen(m, id), h, fs, time) else Seen(m, id)
  {
    hide OnRequestFields, Opened, MidOk, NewStream;
    MidIs(m, gone);
    var of, fs := h.streamId, FieldsOf(env, m.decs, Client, F.Block(h, body));
    OpenedSeen(env, m, of, time, id, gone);
    OpenedSeen(env, m, of, time, of, gone);
    var t := m.(s := Opened(env, m.s, of, time));
    MidIs(t, gone);
    var u := t.s.active[of];
    var st := OnRequestFields(env, t.s.store[u], fs);
    FieldsAlike(env, t.s.store[u], fs);
    PutSeen(t, u, st, id, gone);
    OneActive(t, id, of, gone);
    var n := t.(s := Put(t.s, u, st));
    assert OnBlock(env, Client, m, h, body, time).s == n.s;
  }

  /** Different streams in flight are different objects. */
  lemma OneActive(m: Mid, a: nat, b: nat, gone: set<Uid>)
    requires MidOk(m, gone) && b in m.s.active
    ensures a in m.s.active && m.s.active[a] == m.s.active[b] ==> a == b
  {
  }

  lemma ResponseBlockSeen(env: Env, m: Mid, h: F.Header, body: bytes, time: nat, id: nat, gone: set<Uid>)
    requires MidOk(m, gone)
    ensures Known(OnBlock(env, Server, m, h, body, time).s)
    ensures Seen(OnBlock(env, Server, m, h, body, time), id) ==
      var fs := FieldsOf(env, m.decs, Server, F.Block(h, body));
      if h.streamId == id then OneBlock(env, Server, id, Seen(m, id), h, fs, time) else Seen(m, id)
  {
    hide OnResponseFields, MidOk, WithStatus, OneStatus;
    MidIs(m, gone);
    var of, fs := h.streamId, FieldsOf(env, m.decs, Server, F.Block(h, body));
    StatusNoted(env, m, of, fs, id);
    if env.o.enabled && of in m.s.active {
      var u := m.s.active[of];
      FieldsAlike(env, m.s.store[u], fs);
      var st := if m.s.store[u].life.haveResp then m.s.store[u] else OnResponseFields(env, m.s.store[u], fs);
      PutSeen(m, u, if Ends(h) then EndResponse(st) else st, id, gone);
      OneActive(m, id, of, gone);
    }
  }

  lemma StatusNoted(env: Env, m: Mid, of: nat, fs: seq<Field>, id: nat)
    requires Known(m.s)
    ensures var n := m.(local := WithStatus(env, m.local, of, fs));
      var x := if of == id then OneStatus(env, Seen(m, id), fs) else Seen(m, id);
      && Seen(n, id) == x && n.local.touched == m.local.touched
      && x == Seen(m, id).(status := x.status, grpc := x.grpc)
  {
    hide LastField;
  }

  lemma AppendSeen(dir: Dir, m: Mid, h: F.Header, b: bytes, now: int, id: nat, gone: set<Uid>)
    requires MidOk(m, gone)
    ensures Known(AppendData(dir, m, h, b, now).s) && Seen(AppendData(dir, m, h, b, now), id) == OneAppend(dir, Seen(m, id), h, b, now)
  {
    hide Append, MidOk;
    MidIs(m, gone);
    var o := OwnerOf(m.owners, dir);
    if o.Some? {
      AppendAlike(dir, m.s.store[o.value], Padded(h), b, now);
      PutSeen(m, o.value, Append(dir, m.s.store[o.value], Padded(h), b, now), id, gone);
    }
  }

  lemma OpenSeen(dir: Dir, m: Mid, h: F.Header, id: nat, gone: set<Uid>)
    requires MidOk(m, gone)
    ensures var t := m.(owners := WithOwner(m.owners, dir, Lookup(m.s, h.streamId)));
      MidOk(t, gone) && Seen(t, id) == WithMine(Seen(m, id), dir, h.streamId == id && Seen(m, id).st.Some?)
  {
  }

  lemma CloseSeen(env: Env, dir: Dir, m: Mid, h: F.Header, time: nat, now: int, id: nat, gone: set<Uid>)
    requires MidOk(m, gone)
    ensures Known(Apply(env, dir, m, F.Close(h), time, now).s)
    ensures Seen(Apply(env, dir, m, F.Close(h), time, now), id) == OneAct(env, dir, id, Seen(m, id), F.Close(h), [], time, now)
  {
    hide MidOk;
    MidIs(m, gone);
    var o := OwnerOf(m.owners, dir);
    if o.Some? && Ends(h) && dir.Server? {
      PutSeen(m, o.value, EndResponse(m.s.store[o.value]), id, gone);
    }
  }

  /** One frame, or a part of it. */
  lemma ActSeen(env: Env, dir: Dir, m: Mid, a: F.Act, time: nat, now: int, id: nat, gone: set<Uid>)
    requires MidOk(m, gone)
    ensures var t := Apply(env, dir, m, a, time, now);
      && MidOk(t, gone) && t.decs == DecsAfter(m.decs, dir, a)
      && Seen(t, id) == OneAct(env, dir, id, Seen(m, id), a, FieldsOf(env, m.decs, dir, a), time, now)
  {
    hide MidOk, Append, OneBlock, OnRequestBlock, OnResponseFields, LastField;
    MidIs(m, gone);
    ApplyKeeps(env, dir, m, a, time, now, gone);
    match a
    case Block(h, body) =>
      if dir.Client? { RequestBlockSeen(env, m, h, body, time, id, gone); } else { ResponseBlockSeen(env, m, h, body, time, id, gone); }
    case Open(h) =>
      OpenSeen(dir, m, h, id, gone);
      AppendSeen(dir, m.(owners := WithOwner(m.owners, dir, Lookup(m.s, h.streamId))), h, [], now, id, gone);
    case Data(h, b) => AppendSeen(dir, m, h, b, now, id, gone);
    case Close(h) => CloseSeen(env, dir, m, h, time, now, id, gone);
  }

  lemma {:induction false} ActsSeen(env: Env, dir: Dir, m: Mid, acts: seq<F.Act>, time: nat, now: int, id: nat, gone: set<Uid>)
    requires MidOk(m, gone)
    ensures Known(m.s)
    ensures var t := ApplyAll(env, dir, m, acts, time, now);
      MidOk(t, gone) && (Seen(t, id), t.decs) == OneAll(env, dir, id, Seen(m, id), m.decs, acts, time, now)
  {
    hide MidOk, Apply, OneAct, FieldsOf, DecsAfter, Seen;
    MidIs(m, gone);
    if acts != [] {
      var n := |acts| - 1;
      ActsSeen(env, dir, m, acts[..n], time, now, id, gone);
      ActSeen(env, dir, ApplyAll(env, dir, m, acts[..n], time, now), acts[n], time, now, id, gone);
    }
  }

  // ---------------------------------------------------------------------------
  // The end of a call
  // ---------------------------------------------------------------------------

  function OneAnswered(st: Stream, status: int, grpc: Option<int>, time: nat, now: int): Stream {
    if st.life.haveResp then if grpc.Some? then st.(answer := st.answer.(grpc := grpc.value)) else st
    else if IsInterim(status) then st
    else st.(answer := Answer(status, if grpc.Some? then grpc.value else -1, P.Elapsed(time, st.time)),
             life := Life(true, st.life.respEnded, now, now))
  }

  /** With bodies: the stream that stays in flight, or the request that is returned. */
  function OneComplete(o: P.Options, x: One, time: nat, now: int): (Option<Stream>, Option<Request>) {
    match x.st
    case None => (None, None)
    case Some(was) =>
      var st := if x.status.Some? then OneAnswered(was, x.status.value, x.grpc, time, now) else was;
      if st.life.haveResp && st.life.respEnded then (None, Some(FinishStream(o, st))) else (Some(st), None)
  }

  /** Without bodies: a status is the end of it. */
  function OneReply(x: One, time: nat): (Option<Stream>, Option<Request>) {
    if x.st.None? || x.status.None? then (x.st, None)
    else
      var st := x.st.value;
      var answer := Answer(x.status.value, if x.grpc.Some? then x.grpc.value else -1, P.Elapsed(time, st.time));
      (None, Some(Request(st.info, answer, [], [], 0, 0, 0, st.id)))
  }

  function OneGc(st: Option<Stream>, lastGc: nat, time: nat): Option<Stream> {
    if Old(time, lastGc) && lastGc != 0 && st.Some? && Old(time, st.value.time) then None else st
  }

  /** Of the requests returned, the one of this stream. */
  ghost predicate ReturnedFor(out: set<Result>, id: nat, r: Option<Request>) {
    && (forall x :: x in out && x.r.id == id ==> r == Some(x.r))
    && (r.Some? ==> r.value.id == id && exists x :: x in out && x.r == r.value)
  }

  lemma ResultsSeen(s: Streams, ids: set<nat>, make: Stream -> Request, id: nat)
    requires Consistent(s) && ids <= s.active.Keys && forall st :: make(st).id == st.id
    ensures Known(s) && ReturnedFor(Results(s, ids, make), id, if id in ids then Some(make(s.store[s.active[id]])) else None)
  {
    if id in ids {
      assert Result(s.active[id], make(s.store[s.active[id]])) in Results(s, ids, make);
    }
  }

  lemma AnswerAllSeen(m: Mid, time: nat, now: int, id: nat, gone: set<Uid>)
    requires MidOk(m, gone)
    ensures Known(m.s) && var t := AnswerAll(m.s, m.local, time, now);
      var x := Seen(m, id);
      && Known(t)
      && StreamOf(t, id) == if x.st.Some? && x.status.Some? then Some(OneAnswered(x.st.value, x.status.value, x.grpc, time, now)) else x.st
  {
    if id in m.s.active {
      assert IsActive(m.s, m.s.active[id]);
    }
  }

  lemma CompleteSeen(env: Env, m: Mid, time: nat, now: int, id: nat, gone: set<Uid>)
    requires MidOk(m, gone)
    ensures Known(m.s)
    ensures var (t, out) := CompleteStreams(env, m.s, m.local, time, now);
      var (st, r) := OneComplete(env.o, Seen(m, id), time, now);
      Known(t) && StreamOf(t, id) == st && ReturnedFor(out, id, r)
  {
    AnswerAllSeen(m, time, now, id, gone);
    AnswerAllKeeps(m, gone, time, now);
    hide AnswerAll, OneAnswered, FinishStream, MidOk, Fresh;
    var a := AnswerAll(m.s, m.local, time, now);
    var ids := Done(a, m.local.touched + Fresh(m.s, m.local));
    assert forall st :: Finisher(env.o)(st).id == st.id by { FinishKeepsId(env.o); }
    ResultsSeen(a, ids, Finisher(env.o), id);
    assert id in ids <==> id in a.active && a.store[a.active[id]].life.haveResp && a.store[a.active[id]].life.respEnded;
  }

  lemma FinishKeepsId(o: P.Options)
    ensures forall st :: Finisher(o)(st).id == st.id
  {
  }

  lemma ReplySeen(m: Mid, time: nat, id: nat, gone: set<Uid>)
    requires MidOk(m, gone)
    ensures Known(m.s)
    ensures var (t, out) := Reply(m.s, m.local, time);
      var (st, r) := OneReply(Seen(m, id), time);
      Known(t) && StreamOf(t, id) == st && ReturnedFor(out, id, r)
  {
    var ids := set k | k in m.s.active && k in m.local.statuses;
    assert forall st :: Replier(m.local, time)(st).id == st.id;
    ResultsSeen(m.s, ids, Replier(m.local, time), id);
    hide ReturnedFor;
  }

  lemma GcSeen(s: Streams, lastGc: nat, time: nat, id: nat)
    requires Known(s)
    ensures Known(Gc(s, lastGc, time).0) && StreamOf(Gc(s, lastGc, time).0, id) == OneGc(StreamOf(s, id), lastGc, time)
  {
  }

  // ---------------------------------------------------------------------------
  // A whole call
  // ---------------------------------------------------------------------------

  /** What is known of one stream between two calls. */
  function Start(p: Parser, id: nat): One
    requires Known(p.s)
  {
    One(StreamOf(p.s, id), Owns(p.s, p.owners, id, Client), Owns(p.s, p.owners, id, Server), None, None)
  }

  function Rest(x: One, st: Option<Stream>): One {
    One(st, x.mineClient && st.Some?, x.mineServer && st.Some?, None, None)
  }

  /** What a call does for one stream, given the frames of the event. */
  function OneCall(env: Env, dir: Dir, id: nat, x: One, decs: Decoders, acts: seq<F.Act>, lastGc: nat, time: nat, now: int):
    (One, Option<Request>)
  {
    var y := OneAll(env, dir, id, x, decs, acts, time, now).0;
    var (st, r) := if env.o.enabled then OneComplete(env.o, y, time, now) else OneReply(y, time);
    (Rest(y, OneGc(st, lastGc, time)), r)
  }

  lemma CompleteKeepsNames(env: Env, s: Streams, l: Local, time: nat, now: int, lastGc: nat, id: nat)
    requires Known(s)
    ensures var t := if env.o.enabled then CompleteStreams(env, s, l, time, now).0 else Reply(s, l, time).0;
      Known(t) && (id in Gc(t, lastGc, time).0.active ==> id in s.active && Gc(t, lastGc, time).0.active[id] == s.active[id])
  {
    CompletedKnown(env, s, l, time, now);
    hide Answered;
  }

  /** In every call, what is known of the stream with an id, and the request returned for it, if any, are
      what the parser of that stream alone would know and return: no other stream makes a difference. */
  lemma StreamsDoNotInterfere(env: Env, p: Parser, dir: Dir, acts: seq<F.Act>, time: nat, now: int, id: nat, gone: set<Uid>)
    requires ParserOk(env.o.enabled, p, gone)
    ensures Known(p.s)
    ensures var (q, out) := Proceed(env, p, dir, acts, time, now);
      var (x, r) := OneCall(env, dir, id, Start(p, id), p.decs, acts, p.lastGc, time, now);
      Known(q.s) && Start(q, id) == x && ReturnedFor(out, id, r)
  {
    var m := Mid(p.s, p.owners, p.decs, NONE);
    MidStarts(env.o.enabled, p, gone);
    hide MidOk, ParserOk, ApplyAll, OneAll, CompleteStreams, Reply, Gc, OneComplete, OneReply, OneGc, ReturnedFor;
    MidIs(m, gone);
    assert Seen(m, id) == Start(p, id);
    ActsSeen(env, dir, m, acts, time, now, id, gone);
    var n := ApplyAll(env, dir, m, acts, time, now);
    CompletedKnown(env, n.s, n.local, time, now);
    CompleteKeepsNames(env, n.s, n.local, time, now, p.lastGc, id);
    if env.o.enabled {
      CompleteSeen(env, n, time, now, id, gone);
      GcSeen(CompleteStreams(env, n.s, n.local, time, now).0, p.lastGc, time, id);
    } else {
      ReplySeen(n, time, id, gone);
      GcSeen(Reply(n.s, n.local, time).0, p.lastGc, time, id);
    }
  }

  /** A flush: a stream that is answered, has no DATA due and was quiet long enough is returned. */
  function OneFlush(env: Env, x: One, inData: bool, now: int): (One, Option<Request>) {
    if x.st.Some? && x.st.value.life.haveResp && !(inData && x.mineServer) &&
       (now - x.st.value.life.lastEvent >= env.o.wait || now - x.st.value.life.at >= HOLD_MAX)
    then (Rest(x, None), Some(FinishStream(env.o, x.st.value)))
    else (x, None)
  }

  lemma FlushesDoNotInterfere(env: Env, p: Parser, now: int, id: nat, gone: set<Uid>)
    requires ParserOk(env.o.enabled, p, gone)
    ensures Known(p.s)
    ensures var (q, out) := Flush(env, p, now);
      var (x, r) := OneFlush(env, Start(p, id), p.frames.server.InData?, now);
      Known(q.s) && Start(q, id) == x && ReturnedFor(out, id, r)
  {
    hide FinishStream;
    var ids := Quiet(env, p, now);
    assert forall st :: Finisher(env.o)(st).id == st.id by { FinishKeepsId(env.o); }
    ResultsSeen(p.s, ids, Finisher(env.o), id);
    assert Flush(env, p, now).1 == Results(p.s, ids, Finisher(env.o));
    assert id in ids <==> OneFlush(env, Start(p, id), p.frames.server.InData?, now).1.Some?;
    hide ReturnedFor;
  }

  // ---------------------------------------------------------------------------
  // What is read from the frames of a stream
  // ---------------------------------------------------------------------------

  /** The value of the first field of that name that is acceptable. */
  function FirstValid(fs: seq<Field>, name: bytes, ok: bytes -> bool): bytes {
    if fs == [] then []
    else if fs[0].name == name && ok(fs[0].value) then fs[0].value
    else FirstValid(fs[1..], name, ok)
  }

  lemma {:induction false} FirstValidSnoc(fs: seq<Field>, f: Field, name: bytes, ok: bytes -> bool)
    requires !ok([])
    ensures FirstValid(fs + [f], name, ok) ==
      var v := FirstValid(fs, name, ok); if v == [] && f.name == name && ok(f.value) then f.value else v
  {
    if fs == [] {
      assert fs + [f] == [f];
    } else {
      assert (fs + [f])[1..] == fs[1..] + [f];
      FirstValidSnoc(fs[1..], f, name, ok);
    }
  }

  function IsMethod(): bytes -> bool { (b: bytes) => P.IsHttpMethod(b) }
  function IsPath(): bytes -> bool { (b: bytes) => b == [42] || (b != [] && b[0] == 47) }
  function IsScheme(): bytes -> bool { (b: bytes) => b in {Ascii("https"), Ascii("http")} }
  function IsSet(): bytes -> bool { (b: bytes) => b != [] }

  /** The method, the path and the scheme among the fields of a request: the first acceptable ones. */
  function InfoIn(fs: seq<Field>): Info {
    Info(FirstValid(fs, Ascii(":method"), IsMethod()), FirstValid(fs, Ascii(":path"), IsPath()),
         FirstValid(fs, Ascii(":scheme"), IsScheme()))
  }

  /** What the fields of a request or a response say of its body: the last length, the first type and the
      first encoding that are not empty. */
  function HeadersIn(env: Env, fs: seq<Field>): P.Headers {
    var length := LastField(fs, Ascii("content-length"));
    P.Headers(if length.Some? then env.length(length.value) else -1, false,
              FirstValid(fs, Ascii("content-type"), IsSet()), FirstValid(fs, Ascii("content-encoding"), IsSet()))
  }

  lemma AcceptedIff(b: bytes)
    ensures IsPath()(b) == IsHttpPath(b) && IsScheme()(b) == IsHttpScheme(b)
  {
    assert Ascii("*") == [42] && Ascii("/") == [47];
  }

  lemma InfoNext(fs: seq<Field>, f: Field)
    ensures InfoIn(fs + [f]) == OnInfo(InfoIn(fs), f)
  {
    AcceptedIff(f.value);
    hide FirstValid, P.IsHttpMethod, IsHttpPath, IsHttpScheme, IsPath, IsScheme, Ascii;
    NoneIsValid();
    FirstValidSnoc(fs, f, Ascii(":method"), IsMethod());
    FirstValidSnoc(fs, f, Ascii(":path"), IsPath());
    FirstValidSnoc(fs, f, Ascii(":scheme"), IsScheme());
    NamesDiffer();
  }

  lemma HeadersNext(env: Env, fs: seq<Field>, f: Field)
    ensures HeadersIn(env, fs + [f]) == RecordBodyHeader(env, HeadersIn(env, fs), f)
  {
    hide FirstValid, Ascii;
    NoneIsValid();
    FirstValidSnoc(fs, f, Ascii("content-type"), IsSet());
    FirstValidSnoc(fs, f, Ascii("content-encoding"), IsSet());
    NamesDiffer();
    assert (fs + [f])[..|fs|] == fs;
  }

  /** The fields of a request add to what earlier blocks said. */
  lemma {:induction false} RequestIsTheFirstValid(env: Env, st: Stream, was: seq<Field>, fs: seq<Field>)
    requires st.info == InfoIn(was)
    ensures var t := OnRequestFields(env, st, fs);
      && t.info == InfoIn(was + fs)
      && (env.o.enabled && st.req.hdr == HeadersIn(env, was) ==> t.req.hdr == HeadersIn(env, was + fs))
  {
    hide InfoIn, HeadersIn, RecordBodyHeader, OnInfo;
    if fs == [] {
      assert was + fs == was;
    } else {
      var n := |fs| - 1;
      RequestIsTheFirstValid(env, st, was, fs[..n]);
      assert was + fs == (was + fs[..n]) + [fs[n]];
      InfoNext(was + fs[..n], fs[n]);
      HeadersNext(env, was + fs[..n], fs[n]);
    }
  }

  lemma {:induction false} ResponseFieldsAdd(env: Env, st: Stream, was: seq<Field>, fs: seq<Field>)
    requires st.resp.hdr == HeadersIn(env, was)
    ensures OnResponseFields(env, st, fs).resp.hdr == HeadersIn(env, was + fs)
  {
    hide HeadersIn, RecordBodyHeader;
    if fs == [] {
      assert was + fs == was;
    } else {
      var n := |fs| - 1;
      ResponseFieldsAdd(env, st, was, fs[..n]);
      assert was + fs == (was + fs[..n]) + [fs[n]];
      HeadersNext(env, was + fs[..n], fs[n]);
    }
  }

  lemma NoneIsValid()
    ensures !IsMethod()([]) && !IsPath()([]) && !IsScheme()([]) && !IsSet()([])
  {
  }

  lemma NamesDiffer()
    ensures Ascii(":method") != Ascii(":path") && Ascii(":method") != Ascii(":scheme") && Ascii(":path") != Ascii(":scheme")
    ensures Ascii("content-type") != Ascii("content-encoding") && Ascii("content-type") != Ascii("content-length")
    ensures Ascii("content-encoding") != Ascii("content-length")
  {
    assert |Ascii(":path")| == 5 && |Ascii(":method")| == 7 && |Ascii(":scheme")| == 7;
    assert Ascii(":method")[1] != Ascii(":scheme")[1];
    assert |Ascii("content-type")| == 12 && |Ascii("content-encoding")| == 16 && |Ascii("content-length")| == 14;
  }

  /** The DATA of a stream, and whether its frame is the one being passed on at the end. */
  function OwnData(id: nat, acts: seq<F.Act>, inside: bool): (bytes, bool) {
    if acts == [] then ([], inside)
    else
      var (d, was) := OwnData(id, acts[..|acts| - 1], inside);
      match acts[|acts| - 1]
      case Block(_, _) => (d, was)
      case Open(h) => (d, h.streamId == id)
      case Data(h, b) => (if was && !Padded(h) then d + b else d, was)
      case Close(_) => (d, false)
  }

  function BodyIn(st: Stream, dir: Dir): P.Collector {
    if dir.Client? then st.req.body else st.resp.body
  }

  lemma AddNothing(c: P.Collector)
    ensures P.Add(c, []) == c
  {
    assert c.buf + [] == c.buf;
  }

  /** One act adds to a body only what is the stream's own. */
  lemma ActCollects(env: Env, dir: Dir, id: nat, o: One, a: F.Act, fs: seq<Field>, time: nat, now: int)
    requires o.st.Some?
    ensures var n := OneAct(env, dir, id, o, a, fs, time, now);
      && n.st.Some?
      && Mine(n, dir) == (match a case Open(h) => h.streamId == id case Close(_) => false case _ => Mine(o, dir))
      && BodyIn(n.st.value, dir) ==
         if a.Data? && Mine(o, dir) && !Padded(a.h) then P.Add(BodyIn(o.st.value, dir), a.body) else BodyIn(o.st.value, dir)
  {
    AddNothing(BodyIn(o.st.value, dir));
    FieldsKeepBodies(env, o.st.value, fs);
    hide P.Add, OnRequestFields, OnResponseFields, LastField, NewStream;
  }

  lemma {:induction false} FieldsKeepBodies(env: Env, st: Stream, fs: seq<Field>)
    ensures var t := OnRequestFields(env, st, fs); t.req.body == st.req.body && t.resp == st.resp
    ensures var t := OnResponseFields(env, st, fs); t.req == st.req && t.resp.body == st.resp.body
  {
    hide OnInfo, RecordBodyHeader;
    if fs != [] { FieldsKeepBodies(env, st, fs[..|fs| - 1]); }
  }

  /** However the frames of all streams come in turns, the body collected for a stream is the beginning of
      its own DATA, without that of padded frames. */
  lemma {:induction false} BodiesAreOwnData(env: Env, dir: Dir, id: nat, o: One, decs: Decoders, acts: seq<F.Act>, time: nat, now: int)
    requires o.st.Some?
    ensures var n := OneAll(env, dir, id, o, decs, acts, time, now).0;
      var (d, inside) := OwnData(id, acts, Mine(o, dir));
      n.st.Some? && Mine(n, dir) == inside && BodyIn(n.st.value, dir) == P.Add(BodyIn(o.st.value, dir), d)
  {
    hide P.Add, OneAct, FieldsOf, DecsAfter;
    if acts == [] {
      AddNothing(BodyIn(o.st.value, dir));
    } else {
      var k := |acts| - 1;
      BodiesAreOwnData(env, dir, id, o, decs, acts[..k], time, now);
      var (n, ds) := OneAll(env, dir, id, o, decs, acts[..k], time, now);
      ActCollects(env, dir, id, n, acts[k], FieldsOf(env, ds, dir, acts[k]), time, now);
      if acts[k].Data? {
        AddTwice(BodyIn(o.st.value, dir), OwnData(id, acts[..k], Mine(o, dir)).0, acts[k].body);
      }
    }
  }

  // ---------------------------------------------------------------------------
  // When a stream is returned
  // ---------------------------------------------------------------------------

  /** Some frame of the stream ends it, given whether the DATA frame being passed on is its own. */
  function EndSeen(id: nat, acts: seq<F.Act>, inside: bool): bool {
    if acts == [] then false
    else
      var init := acts[..|acts| - 1];
      EndSeen(id, init, inside) ||
      match acts[|acts| - 1]
      case Block(h, _) => h.streamId == id && Ends(h)
      case Close(h) => OwnData(id, init, inside).1 && Ends(h)
      case _ => false
  }

  /** The status of the last block of the stream that has one, 0 if it has blocks and none has. */
  function StatusSeen(env: Env, id: nat, decs: Decoders, acts: seq<F.Act>): (Option<int>, Decoders) {
    if acts == [] then (None, decs)
    else
      var a := acts[|acts| - 1];
      var (s, d) := StatusSeen(env, id, decs, acts[..|acts| - 1]);
      var last := LastField(FieldsOf(env, d, Server, a), Ascii(":status"));
      (if !a.Block? || a.h.streamId != id then s
       else if last.Some? then Some(env.number(last.value))
       else if s.Some? then s else Some(0),
       DecsAfter(d, Server, a))
  }

  function GrpcSeen(env: Env, id: nat, decs: Decoders, acts: seq<F.Act>): (Option<int>, Decoders) {
    if acts == [] then (None, decs)
    else
      var a := acts[|acts| - 1];
      var (g, d) := GrpcSeen(env, id, decs, acts[..|acts| - 1]);
      var last := LastField(FieldsOf(env, d, Server, a), Ascii("grpc-status"));
      (if a.Block? && a.h.streamId == id && last.Some? then Some(env.number(last.value)) else g, DecsAfter(d, Server, a))
  }

  lemma ActAnswers(env: Env, id: nat, o: One, a: F.Act, fs: seq<Field>, time: nat, now: int)
    requires o.st.Some? && env.o.enabled
    ensures var n := OneAct(env, Server, id, o, a, fs, time, now);
      && n.st.Some? && n.st.value.life.haveResp == o.st.value.life.haveResp
      && n.st.value.life.respEnded ==
         (|| o.st.value.life.respEnded
          || match a
             case Block(h, _) => h.streamId == id && Ends(h)
             case Close(h) => o.mineServer && Ends(h)
             case _ => false)
      && n.status ==
         (if !a.Block? || a.h.streamId != id then o.status
          else var last := LastField(fs, Ascii(":status"));
            if last.Some? then Some(env.number(last.value)) else if o.status.Some? then o.status else Some(0))
      && n.grpc ==
         (var last := LastField(fs, Ascii("grpc-status"));
          if a.Block? && a.h.streamId == id && last.Some? then Some(env.number(last.value)) else o.grpc)
  {
    hide P.Add, OnResponseFields, LastField;
    FieldsAlike(env, o.st.value, fs);
  }

  lemma {:induction false} ActsAnswer(env: Env, id: nat, o: One, decs: Decoders, acts: seq<F.Act>, time: nat, now: int)
    requires o.st.Some? && env.o.enabled && o.status.None? && o.grpc.None?
    ensures var (n, d) := OneAll(env, Server, id, o, decs, acts, time, now);
      && n.st.Some? && n.st.value.life.haveResp == o.st.value.life.haveResp
      && n.st.value.life.respEnded == (o.st.value.life.respEnded || EndSeen(id, acts, o.mineServer))
      && (n.status, d) == StatusSeen(env, id, decs, acts) && (n.grpc, d) == GrpcSeen(env, id, decs, acts)
  {
    hide OneAct, FieldsOf, DecsAfter, LastField;
    if acts != [] {
      var k := |acts| - 1;
      ActsAnswer(env, id, o, decs, acts[..k], time, now);
      BodiesAreOwnData(env, Server, id, o, decs, acts[..k], time, now);
      var (n, d) := OneAll(env, Server, id, o, decs, acts[..k], time, now);
      ActAnswers(env, id, n, acts[k], FieldsOf(env, d, Server, acts[k]), time, now);
    }
  }

  /** With bodies, a call with frames of the server returns a stream if and only if it has its answer, from
      before or by a final status in this event, and its response has ended, before or in this event. */
  lemma ReturnedIffAnsweredAndEnded(env: Env, id: nat, x: One, decs: Decoders, acts: seq<F.Act>, lastGc: nat, time: nat, now: int)
    requires x.st.Some? && env.o.enabled && x.status.None? && x.grpc.None?
    ensures var status := StatusSeen(env, id, decs, acts).0;
      var r := OneCall(env, Server, id, x, decs, acts, lastGc, time, now).1;
      r.Some? <==>
        && (x.st.value.life.haveResp || (status.Some? && !IsInterim(status.value)))
        && (x.st.value.life.respEnded || EndSeen(id, acts, x.mineServer))
  {
    hide OneAll, StatusSeen, EndSeen, GrpcSeen, FinishStream, OneGc, P.Elapsed;
    ActsAnswer(env, id, x, decs, acts, time, now);
  }

  /** A body as it is put on a request: a cut of what was collected, or nothing. */
  ghost predicate IsCut(o: P.Options, body: bytes, c: P.Collector) {
    body == [] || body == Utf8.CutUtf8(c.buf, o.maxBytes)
  }

  /** What the request returned then says: the stream's own method, path and scheme, the status and the
      duration of this event, and for bodies cuts of the stream's own DATA, each in its direction. */
  lemma ReturnedIsItsOwn(env: Env, id: nat, x: One, decs: Decoders, acts: seq<F.Act>, lastGc: nat, time: nat, now: int)
    requires x.st.Some? && env.o.enabled && x.status.None? && x.grpc.None?
    requires OneCall(env, Server, id, x, decs, acts, lastGc, time, now).1.Some?
    ensures var r := OneCall(env, Server, id, x, decs, acts, lastGc, time, now).1.value;
      var st := x.st.value;
      var grpc := GrpcSeen(env, id, decs, acts).0;
      && r.info == st.info && r.id == st.id
      && IsCut(env.o, r.reqBody, st.req.body) && IsCut(env.o, r.respBody, P.Add(st.resp.body, OwnData(id, acts, x.mineServer).0))
      && (!st.life.haveResp ==>
            && StatusSeen(env, id, decs, acts).0 == Some(r.answer.status) && r.answer.duration == P.Elapsed(time, st.time)
            && r.answer.grpc == (if grpc.Some? then grpc.value else -1) && r.at == now)
      && (st.life.haveResp ==> r.answer == st.answer.(grpc := r.answer.grpc) && r.at == st.life.at)
  {
    hide OneAll, StatusSeen, EndSeen, GrpcSeen, OwnData, OneGc, P.Elapsed, P.Add;
    ActsAnswer(env, id, x, decs, acts, time, now);
    BodiesAreOwnData(env, Server, id, x, decs, acts, time, now);
    ServerActsKeep(env, id, x, decs, acts, time, now);
  }

  /** What frames of the server do not touch. */
  ghost predicate SameRequest(a: Stream, b: Stream) {
    a.id == b.id && a.time == b.time && a.info == b.info && a.req.body == b.req.body && a.answer == b.answer && a.life.at == b.life.at
  }

  lemma {:induction false} ResponseFieldsKeep(env: Env, st: Stream, fs: seq<Field>)
    ensures SameRequest(st, OnResponseFields(env, st, fs))
  {
    hide RecordBodyHeader;
    if fs != [] { ResponseFieldsKeep(env, st, fs[..|fs| - 1]); }
  }

  lemma ServerActKeeps(env: Env, id: nat, o: One, a: F.Act, fs: seq<Field>, time: nat, now: int)
    requires o.st.Some?
    ensures var n := OneAct(env, Server, id, o, a, fs, time, now); n.st.Some? && SameRequest(o.st.value, n.st.value)
  {
    hide P.Add, OnResponseFields, LastField;
    ResponseFieldsKeep(env, o.st.value, fs);
  }

  lemma {:induction false} ServerActsKeep(env: Env, id: nat, o: One, decs: Decoders, acts: seq<F.Act>, time: nat, now: int)
    requires o.st.Some?
    ensures var n := OneAll(env, Server, id, o, decs, acts, time, now).0; n.st.Some? && SameRequest(o.st.value, n.st.value)
  {
    hide OneAct, FieldsOf, DecsAfter;
    if acts != [] {
      var k := |acts| - 1;
      ServerActsKeep(env, id, o, decs, acts[..k], time, now);
      var (n, d) := OneAll(env, Server, id, o, decs, acts[..k], time, now);
      ServerActKeeps(env, id, n, acts[k], FieldsOf(env, d, Server, acts[k]), time, now);
    }
  }

  // ---------------------------------------------------------------------------
  // Without bodies it matters which frames come together
  // ---------------------------------------------------------------------------

  lemma PlainActAnswers(env: Env, id: nat, o: One, a: F.Act, fs: seq<Field>, time: nat, now: int)
    requires o.st.Some?
    ensures var n := OneAct(env, Server, id, o, a, fs, time, now);
      && n.st.Some? && SameRequest(o.st.value, n.st.value)
      && n.status ==
         (if !a.Block? || a.h.streamId != id then o.status
          else var last := LastField(fs, Ascii(":status"));
            if last.Some? then Some(env.number(last.value)) else if o.status.Some? then o.status else Some(0))
      && n.grpc ==
         (var last := LastField(fs, Ascii("grpc-status"));
          if a.Block? && a.h.streamId == id && last.Some? then Some(env.number(last.value)) else o.grpc)
  {
    ServerActKeeps(env, id, o, a, fs, time, now);
    hide P.Add, OnResponseFields, LastField, SameRequest;
  }

  lemma {:induction false} PlainActsAnswer(env: Env, id: nat, o: One, decs: Decoders, acts: seq<F.Act>, time: nat, now: int)
    requires o.st.Some? && o.status.None? && o.grpc.None?
    ensures var (n, d) := OneAll(env, Server, id, o, decs, acts, time, now);
      && n.st.Some? && SameRequest(o.st.value, n.st.value)
      && (n.status, d) == StatusSeen(env, id, decs, acts) && (n.grpc, d) == GrpcSeen(env, id, decs, acts)
  {
    hide OneAct, FieldsOf, DecsAfter, LastField;
    if acts != [] {
      var k := |acts| - 1;
      PlainActsAnswer(env, id, o, decs, acts[..k], time, now);
      var (n, d) := OneAll(env, Server, id, o, decs, acts[..k], time, now);
      PlainActAnswers(env, id, n, acts[k], FieldsOf(env, d, Server, acts[k]), time, now);
    }
  }

  /** Without bodies a stream is returned by the first event with a header block of its response, with the
      last status and gRPC status of that event, and is not known afterwards: an interim response in an
      event of its own is taken for the answer, and a gRPC status in a later event is not seen. */
  lemma PlainAnswersWithTheEvent(env: Env, id: nat, x: One, decs: Decoders, acts: seq<F.Act>, lastGc: nat, time: nat, now: int)
    requires x.st.Some? && !env.o.enabled && x.status.None? && x.grpc.None?
    ensures var (y, r) := OneCall(env, Server, id, x, decs, acts, lastGc, time, now);
      var status, grpc := StatusSeen(env, id, decs, acts).0, GrpcSeen(env, id, decs, acts).0;
      && (r.Some? <==> status.Some?)
      && (r.Some? ==>
            && r.value.info == x.st.value.info && r.value.answer.duration == P.Elapsed(time, x.st.value.time)
            && r.value.answer.status == status.value && r.value.answer.grpc == (if grpc.Some? then grpc.value else -1)
            && y.st.None?)
  {
    hide OneAll, StatusSeen, GrpcSeen, P.Elapsed;
    PlainActsAnswer(env, id, x, decs, acts, time, now);
  }

  /** So where an event ends can show: frames that come in two events instead of one give another answer
      exactly when the first of the two has a block of the response and the second changes its status. */
  lemma PlainCutShowsIff(env: Env, id: nat, x: One, decs: Decoders, a: seq<F.Act>, b: seq<F.Act>, lastGc: nat, time: nat, now: int)
    requires x.st.Some? && !env.o.enabled && x.status.None? && x.grpc.None? && StatusSeen(env, id, decs, a).0.Some?
    ensures StatusSeen(env, id, decs, a + b).0.Some?
    ensures OneCall(env, Server, id, x, decs, a, lastGc, time, now).1 != OneCall(env, Server, id, x, decs, a + b, lastGc, time, now).1 <==>
      || StatusSeen(env, id, decs, a).0 != StatusSeen(env, id, decs, a + b).0
      || GrpcOr(GrpcSeen(env, id, decs, a).0) != GrpcOr(GrpcSeen(env, id, decs, a + b).0)
  {
    hide OneAll, GrpcSeen, P.Elapsed;
    PlainActsAnswer(env, id, x, decs, a, time, now);
    PlainActsAnswer(env, id, x, decs, a + b, time, now);
    StatusStays(env, id, decs, a, b);
  }

  function GrpcOr(g: Option<int>): int {
    if g.Some? then g.value else -1
  }

  lemma {:induction false} StatusStays(env: Env, id: nat, decs: Decoders, a: seq<F.Act>, b: seq<F.Act>)
    requires StatusSeen(env, id, decs, a).0.Some?
    ensures StatusSeen(env, id, decs, a + b).0.Some?
    decreases |b|
  {
    hide FieldsOf, DecsAfter, LastField;
    if b == [] {
      assert a + b == a;
    } else {
      StatusStays(env, id, decs, a, b[..|b| - 1]);
      assert (a + b)[..|a + b| - 1] == a + b[..|b| - 1];
    }
  }
}
