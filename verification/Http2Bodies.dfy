/**
What the parser of HTTP/2 returns for a stream and when, over whole runs with bodies: beside the parser
runs a listener for one stream id that keeps all header fields and all DATA of the stream since it
began, in both directions, its times and its answer, and says by itself when the stream is over. What
the parser returns for that id is what the listener says, call by call, however the frames of all streams
come in turns and wherever events end. The listener looks at the inputs only, not at the parser.
*/
module Http2Bodies {
  import opened Bytes
  import F = Http2Frames
  import P = Http1Parser
  import B = Http1Bodies
  import opened Http2Streams
  import opened Http2Exchange
  import opened Wrappers

  // ---------------------------------------------------------------------------
  // The listener
  // ---------------------------------------------------------------------------

  /** The header fields and the DATA of one direction, whether a frame of it was padded, and whether one is
      being passed on. */
  datatype Got = Got(fields: seq<Field>, data: bytes, padded: bool, inside: bool)

  datatype Final = Final(status: int, grpc: int, duration: int, at: int)

  /** A stream: whether it is known, when it began, its answer, when the server last sent something of
      it, and whether its response ended. */
  datatype Heard = Heard(known: bool, client: Got, server: Got, began: nat, reply: Option<Final>, last: int, ended: bool)

  const NOTHING := Got([], [], false, false)
  const UNHEARD := Heard(false, NOTHING, NOTHING, 0, None, 0, false)

  /** The bit of a flag byte with that value is set. */
  predicate Bit(flags: byte, value: nat)
    requires value > 0
  {
    flags / value % 2 == 1
  }

  /** Part of a DATA frame: END_STREAM is 0x1 and PADDED is 0x8, section 6.1 of RFC 7540. */
  function Gather(g: Got, flags: byte, b: bytes): Got {
    if Bit(flags, 8) then g.(padded := true) else g.(data := g.data + b)
  }

  function HearData(dir: Dir, x: Heard, flags: byte, b: bytes, now: int): Heard {
    if dir.Client? then x.(client := Gather(x.client, flags, b))
    else if Bit(flags, 8) || b != [] then x.(server := Gather(x.server, flags, b), last := now)
    else x
  }

  /** A header block of the stream: a request opens it, and the fields of a response count until it is
      answered. */
  function HearBlock(dir: Dir, x: Heard, flags: byte, fs: seq<Field>, time: nat): Heard {
    if dir.Client? then
      var y := if x.known then x else UNHEARD.(known := true, began := time);
      y.(client := y.client.(fields := y.client.fields + fs))
    else if !x.known then x
    else
      x.(server := if x.reply.None? then x.server.(fields := x.server.fields + fs) else x.server, ended := x.ended || Bit(flags, 1))
  }

  function Inside(x: Heard, dir: Dir): bool {
    if dir.Client? then x.client.inside else x.server.inside
  }

  function WithInside(x: Heard, dir: Dir, b: bool): Heard {
    if dir.Client? then x.(client := x.client.(inside := b)) else x.(server := x.server.(inside := b))
  }

  /** What a frame, or a part of it, adds to what is known of the stream. */
  function HearAct(dir: Dir, id: nat, x: Heard, a: F.Act, fs: seq<Field>, time: nat, now: int): Heard {
    match a
    case Block(h, _) => if h.streamId == id then HearBlock(dir, x, h.flags, fs, time) else x
    case Open(h) =>
      if h.streamId == id && x.known then HearData(dir, WithInside(x, dir, true), h.flags, [], now) else WithInside(x, dir, false)
    case Data(h, b) => if Inside(x, dir) then HearData(dir, x, h.flags, b, now) else x
    case Close(h) =>
      WithInside(if Inside(x, dir) && dir.Server? && Bit(h.flags, 1) then x.(ended := true) else x, dir, false)
  }

  function HearActs(env: Env, dir: Dir, id: nat, x: Heard, decs: Decoders, acts: seq<F.Act>, time: nat, now: int): (Heard, Decoders) {
    if acts == [] then (x, decs)
    else
      var n := |acts| - 1;
      var (y, d) := HearActs(env, dir, id, x, decs, acts[..n], time, now);
      (HearAct(dir, id, y, acts[n], FieldsOf(env, d, dir, acts[n]), time, now), DecsAfter(d, dir, acts[n]))
  }

  /** At the end of an event: the first final status answers the stream, and a gRPC status can follow. */
  function HearStatus(x: Heard, status: Option<int>, grpc: Option<int>, time: nat, now: int): Heard {
    if !x.known || status.None? then x
    else if x.reply.Some? then if grpc.Some? then x.(reply := Some(x.reply.value.(grpc := grpc.value))) else x
    else if 100 <= status.value <= 199 then x
    else x.(reply := Some(Final(status.value, if grpc.Some? then grpc.value else -1, P.Elapsed(time, x.began), now)), last := now)
  }

  /** The body shown of all that was given: none if a frame was padded. */
  function BodyShown(env: Env, g: Got): bytes {
    if g.padded then [] else B.Body(env.o, g.data, HeadersIn(env, g.fields))
  }

  /** What is to be returned of an answered stream. */
  function Report(env: Env, id: nat, x: Heard): Request
    requires x.reply.Some?
  {
    var r := x.reply.value;
    Request(InfoIn(x.client.fields), Answer(r.status, r.grpc, r.duration), BodyShown(env, x.client), BodyShown(env, x.server),
            HeadersIn(env, x.client.fields).contentLength, HeadersIn(env, x.server.fields).contentLength, r.at, id)
  }

  /** More than ten minutes apart, as differences of 64-bit counters. */
  predicate Apart(now: nat, since: nat) {
    (now - since) % 0x1_0000_0000_0000_0000 > 600_000_000_000
  }

  /** One call: what it brought is heard, and the stream is over if it is answered and ended; one that
      began more than ten minutes ago is dropped when it is time to look for such. */
  function HearCall(env: Env, dir: Dir, id: nat, x: Heard, decs: Decoders, acts: seq<F.Act>, lastGc: nat, time: nat, now: int):
    (Heard, Option<Request>)
  {
    var y := HearActs(env, dir, id, x, decs, acts, time, now).0;
    var status, grpc := StatusSeen(env, id, decs, acts).0, GrpcSeen(env, id, decs, acts).0;
    var z := if dir.Server? then HearStatus(y, status, grpc, time, now) else y;
    if z.known && z.reply.Some? && z.ended then (UNHEARD, Some(Report(env, id, z)))
    else if lastGc != 0 && Apart(time, lastGc) && z.known && Apart(time, z.began) then (UNHEARD, None)
    else (z, None)
  }

  /** A flush: an answered stream is over if no DATA of it is due and nothing came for the wait, or it was
      answered five seconds ago. */
  function HearFlush(env: Env, id: nat, x: Heard, inData: bool, now: int): (Heard, Option<Request>) {
    if x.known && x.reply.Some? && !(inData && x.server.inside) &&
       (now - x.last >= env.o.wait || now - x.reply.value.at >= 5_000_000_000)
    then (UNHEARD, Some(Report(env, id, x)))
    else (x, None)
  }

  /** What is known of the connection besides its streams: what is left of frames, the header blocks so far,
      with the ends of events, and when old streams were last looked for. */
  datatype Line = Line(client: F.State, server: F.State, decs: Decoders, lastGc: nat)

  const SILENT := Line(F.IDLE, F.IDLE, Decoders([], []), 0)

  function FramesOf(line: Line, dir: Dir): F.State {
    if dir.Client? then line.client else line.server
  }

  function WithFrames(line: Line, dir: Dir, st: F.State): Line {
    if dir.Client? then line.(client := st) else line.(server := st)
  }

  function DecsAll(decs: Decoders, dir: Dir, acts: seq<F.Act>): Decoders {
    if acts == [] then decs else DecsAfter(DecsAll(decs, dir, acts[..|acts| - 1]), dir, acts[|acts| - 1])
  }

  function LineAfter(env: Env, line: Line, i: Input): Line {
    match i
    case FlushAt(_) => line
    case Parse(dir, payload, time, _) =>
      var b := F.Strip(dir.Client?, payload);
      var (t, acts) := F.Framed(env.o.enabled, dir.Client?, FramesOf(line, dir), payload);
      if b == [] then line
      else if StaysPartial(FramesOf(line, dir), b) then WithFrames(line, dir, t).(decs := Write(line.decs, dir, Closed))
      else
        WithFrames(line, dir, t).(decs := Write(DecsAll(line.decs, dir, acts), dir, Closed),
                                  lastGc := if Apart(time, line.lastGc) then time else line.lastGc)
  }

  function LineOf(env: Env, inputs: seq<Input>, n: nat): Line
    requires n <= |inputs|
  {
    if n == 0 then SILENT else LineAfter(env, LineOf(env, inputs, n - 1), inputs[n - 1])
  }

  function Hear(env: Env, line: Line, id: nat, x: Heard, i: Input): (Heard, Option<Request>) {
    match i
    case FlushAt(now) => HearFlush(env, id, x, line.server.InData?, now)
    case Parse(dir, payload, time, now) =>
      var b := F.Strip(dir.Client?, payload);
      var st := FramesOf(line, dir);
      if b == [] || StaysPartial(st, b) then (x, None)
      else HearCall(env, dir, id, x, line.decs, F.Framed(env.o.enabled, dir.Client?, st, payload).1, line.lastGc, time, now)
  }

  /** What the listener knows after n inputs. */
  function HeardOf(env: Env, inputs: seq<Input>, id: nat, n: nat): Heard
    requires n <= |inputs|
  {
    if n == 0 then UNHEARD else Hear(env, LineOf(env, inputs, n - 1), id, HeardOf(env, inputs, id, n - 1), inputs[n - 1]).0
  }

  // ---------------------------------------------------------------------------
  // The parser keeps up with it
  // ---------------------------------------------------------------------------

  ghost predicate SideHolds(env: Env, side: Side, g: Got) {
    B.Holds(env.o, side.body, g.data) && side.skipped == g.padded && side.hdr == HeadersIn(env, g.fields)
  }

  ghost predicate LifeHolds(st: Stream, x: Heard) {
    && st.time == x.began && st.life.respEnded == x.ended && st.life.lastEvent == x.last && st.life.haveResp == x.reply.Some?
    && (x.reply.Some? ==>
          var r := x.reply.value; st.answer == Answer(r.status, r.grpc, r.duration) && st.life.at == r.at)
  }

  ghost predicate StreamHolds(env: Env, id: nat, st: Stream, x: Heard) {
    && st.id == id && st.info == InfoIn(x.client.fields)
    && SideHolds(env, st.req, x.client) && SideHolds(env, st.resp, x.server) && LifeHolds(st, x)
  }

  /** The parser of one stream and the listener, in the middle of a call or between two. */
  ghost predicate Holding(env: Env, id: nat, o: One, x: Heard) {
    && o.st.Some? == x.known && o.mineClient == x.client.inside && o.mineServer == x.server.inside
    && (o.mineClient || o.mineServer ==> o.st.Some?)
    && (if o.st.Some? then StreamHolds(env, id, o.st.value, x) else x == UNHEARD)
  }

  lemma FlagBits(h: F.Header)
    ensures Ends(h) <==> Bit(h.flags, 1)
    ensures Padded(h) <==> Bit(h.flags, 8)
  {
    assert h.flags / 1 == h.flags;
  }

  lemma {:induction false} FieldsKeepSides(env: Env, st: Stream, fs: seq<Field>)
    ensures var t := OnRequestFields(env, st, fs);
      && t.req.body == st.req.body && t.req.skipped == st.req.skipped && t.resp == st.resp
      && t == st.(info := t.info, req := t.req)
    ensures var t := OnResponseFields(env, st, fs);
      && t.resp.body == st.resp.body && t.resp.skipped == st.resp.skipped
      && t == st.(resp := t.resp)
  {
    hide OnInfo, RecordBodyHeader;
    if fs != [] { FieldsKeepSides(env, st, fs[..|fs| - 1]); }
  }

  lemma NewHoldsNothing(env: Env, id: nat, time: nat)
    requires env.o.enabled
    ensures StreamHolds(env, id, NewStream(env, id, time), UNHEARD.(known := true, began := time))
  {
    assert Take([], env.o.maxBytes) == [];
  }

  lemma RequestBlockHolds(env: Env, id: nat, st: Stream, fs: seq<Field>, x: Heard)
    requires env.o.enabled && StreamHolds(env, id, st, x)
    ensures StreamHolds(env, id, OnRequestFields(env, st, fs), x.(client := x.client.(fields := x.client.fields + fs)))
  {
    hide OnRequestFields, B.Holds, HeadersIn, InfoIn;
    FieldsKeepSides(env, st, fs);
    RequestIsTheFirstValid(env, st, x.client.fields, fs);
  }

  lemma ResponseBlockHolds(env: Env, id: nat, st: Stream, fs: seq<Field>, x: Heard)
    requires StreamHolds(env, id, st, x)
    ensures StreamHolds(env, id, OnResponseFields(env, st, fs), x.(server := x.server.(fields := x.server.fields + fs)))
  {
    hide OnResponseFields, B.Holds, HeadersIn, InfoIn;
    FieldsKeepSides(env, st, fs);
    ResponseFieldsAdd(env, st, x.server.fields, fs);
  }

  lemma EndHolds(env: Env, id: nat, st: Stream, x: Heard)
    requires StreamHolds(env, id, st, x)
    ensures StreamHolds(env, id, EndResponse(st), x.(ended := true))
  {
    hide SideHolds, InfoIn;
  }

  lemma BlockHolds(env: Env, dir: Dir, id: nat, o: One, h: F.Header, fs: seq<Field>, time: nat, x: Heard)
    requires env.o.enabled && Holding(env, id, o, x)
    ensures Holding(env, id, OneBlock(env, dir, id, o, h, fs, time), HearBlock(dir, x, h.flags, fs, time))
  {
    FlagBits(h);
    StatusKeepsStream(env, o, fs);
    hide OnRequestFields, OnResponseFields, NewStream, SideHolds, OneStatus, InfoIn, LifeHolds, Bit, Ends;
    NewHoldsNothing(env, id, time);
    if dir.Client? {
      RequestBlockHolds(env, id, if o.st.Some? then o.st.value else NewStream(env, id, time), fs,
                        if x.known then x else UNHEARD.(known := true, began := time));
    } else if o.st.Some? {
      ResponseBlockHolds(env, id, o.st.value, fs, x);
      var st := if o.st.value.life.haveResp then o.st.value else OnResponseFields(env, o.st.value, fs);
      var y := x.(server := if x.reply.None? then x.server.(fields := x.server.fields + fs) else x.server);
      assert o.st.value.life.haveResp == x.reply.Some? by { AnsweredAlike(env, id, o, x); }
      assert StreamHolds(env, id, st, y);
      EndHolds(env, id, st, y);
    }
  }

  lemma AnsweredAlike(env: Env, id: nat, o: One, x: Heard)
    requires Holding(env, id, o, x) && o.st.Some?
    ensures o.st.value.life.haveResp == x.reply.Some?
  {
    hide SideHolds, InfoIn;
  }

  lemma StatusKeepsStream(env: Env, o: One, fs: seq<Field>)
    ensures var n := OneStatus(env, o, fs); n == o.(status := n.status, grpc := n.grpc)
  {
  }

  lemma AppendHolds(env: Env, dir: Dir, id: nat, st: Stream, h: F.Header, b: bytes, now: int, x: Heard)
    requires StreamHolds(env, id, st, x)
    ensures StreamHolds(env, id, Append(dir, st, Padded(h), b, now), HearData(dir, x, h.flags, b, now))
  {
    FlagBits(h);
    hide B.Holds, P.Add, HeadersIn, InfoIn, Bit, Padded;
    var side, g := if dir.Client? then st.req else st.resp, if dir.Client? then x.client else x.server;
    B.AddHolds(env.o, side.body, g.data, b);
    assert g.data + [] == g.data;
  }

  lemma OpenHolds(env: Env, dir: Dir, id: nat, o: One, h: F.Header, fs: seq<Field>, time: nat, now: int, x: Heard)
    requires Holding(env, id, o, x)
    ensures Holding(env, id, OneAct(env, dir, id, o, F.Open(h), fs, time, now), HearAct(dir, id, x, F.Open(h), fs, time, now))
  {
    hide Append, SideHolds, InfoIn, LifeHolds, Bit;
    if h.streamId == id && o.st.Some? {
      InsideHolds(env, dir, id, o.st.value, x);
      AppendHolds(env, dir, id, o.st.value, h, [], now, WithInside(x, dir, true));
    } else if o.st.Some? {
      InsideHolds(env, dir, id, o.st.value, x);
    }
  }

  /** Whether a frame is being passed on is not in the stream. */
  lemma InsideHolds(env: Env, dir: Dir, id: nat, st: Stream, x: Heard)
    requires StreamHolds(env, id, st, x)
    ensures StreamHolds(env, id, st, WithInside(x, dir, true)) && StreamHolds(env, id, st, WithInside(x, dir, false))
  {
    hide InfoIn, HeadersIn, B.Holds;
  }

  lemma CloseHolds(env: Env, dir: Dir, id: nat, o: One, h: F.Header, fs: seq<Field>, time: nat, now: int, x: Heard)
    requires Holding(env, id, o, x)
    ensures Holding(env, id, OneAct(env, dir, id, o, F.Close(h), fs, time, now), HearAct(dir, id, x, F.Close(h), fs, time, now))
  {
    FlagBits(h);
    hide SideHolds, InfoIn, LifeHolds, Bit, EndResponse, Ends;
    if o.st.Some? {
      EndHolds(env, id, o.st.value, x);
      InsideHolds(env, dir, id, o.st.value, x);
      InsideHolds(env, dir, id, EndResponse(o.st.value), x.(ended := true));
    }
  }

  lemma ActHolds(env: Env, dir: Dir, id: nat, o: One, a: F.Act, fs: seq<Field>, time: nat, now: int, x: Heard)
    requires env.o.enabled && Holding(env, id, o, x)
    ensures Holding(env, id, OneAct(env, dir, id, o, a, fs, time, now), HearAct(dir, id, x, a, fs, time, now))
  {
    match a
    case Block(h, _) =>
      hide OneBlock, HearBlock;
      BlockHolds(env, dir, id, o, h, fs, time, x);
    case Open(h) => OpenHolds(env, dir, id, o, h, fs, time, now, x);
    case Data(h, b) =>
      hide Append, SideHolds, InfoIn, LifeHolds, Bit;
      if o.st.Some? { AppendHolds(env, dir, id, o.st.value, h, b, now, x); }
    case Close(h) => CloseHolds(env, dir, id, o, h, fs, time, now, x);
  }

  lemma {:induction false} ActsHold(env: Env, dir: Dir, id: nat, o: One, decs: Decoders, acts: seq<F.Act>, time: nat, now: int, x: Heard)
    requires env.o.enabled && Holding(env, id, o, x)
    ensures var (n, d) := OneAll(env, dir, id, o, decs, acts, time, now);
      var (y, e) := HearActs(env, dir, id, x, decs, acts, time, now);
      Holding(env, id, n, y) && d == e
  {
    hide Holding, OneAct, HearAct, FieldsOf, DecsAfter;
    if acts != [] {
      var n := |acts| - 1;
      ActsHold(env, dir, id, o, decs, acts[..n], time, now, x);
      var (p, d) := OneAll(env, dir, id, o, decs, acts[..n], time, now);
      ActHolds(env, dir, id, p, acts[n], FieldsOf(env, d, dir, acts[n]), time, now,
               HearActs(env, dir, id, x, decs, acts[..n], time, now).0);
    }
  }

  lemma FinishShows(env: Env, id: nat, st: Stream, x: Heard)
    requires StreamHolds(env, id, st, x) && x.reply.Some?
    ensures FinishStream(env.o, st) == Report(env, id, x)
  {
    hide B.Holds, P.FinishBody, B.Body, HeadersIn, InfoIn;
    B.FinishBodyIs(env.o, st.req.body, st.req.hdr, x.client.data);
    B.FinishBodyIs(env.o, st.resp.body, st.resp.hdr, x.server.data);
  }

  lemma {:induction false} ClientHasNoStatus(env: Env, id: nat, o: One, decs: Decoders, acts: seq<F.Act>, time: nat, now: int)
    ensures var n := OneAll(env, Client, id, o, decs, acts, time, now).0; n.status == o.status && n.grpc == o.grpc
  {
    hide OnRequestFields, NewStream, Append, FieldsOf, DecsAfter;
    if acts != [] { ClientHasNoStatus(env, id, o, decs, acts[..|acts| - 1], time, now); }
  }

  lemma AnswerHolds(env: Env, id: nat, st: Stream, status: int, grpc: Option<int>, time: nat, now: int, x: Heard)
    requires StreamHolds(env, id, st, x) && x.known
    ensures StreamHolds(env, id, OneAnswered(st, status, grpc, time, now), HearStatus(x, Some(status), grpc, time, now))
  {
    hide SideHolds, InfoIn, P.Elapsed;
  }

  /** The end of a call. */
  lemma CompleteHolds(env: Env, id: nat, o: One, time: nat, now: int, x: Heard)
    requires Holding(env, id, o, x)
    ensures var z := HearStatus(x, o.status, o.grpc, time, now);
      var (st, r) := OneComplete(env.o, o, time, now);
      if z.known && z.reply.Some? && z.ended then st.None? && r == Some(Report(env, id, z))
      else r.None? && st.Some? == z.known && Holding(env, id, Rest(o, st), z)
  {
    hide SideHolds, InfoIn, FinishStream, Report, P.Elapsed, OneAnswered, HearStatus;
    if o.st.Some? {
      var was := o.st.value;
      var st := if o.status.Some? then OneAnswered(was, o.status.value, o.grpc, time, now) else was;
      var z := HearStatus(x, o.status, o.grpc, time, now);
      if o.status.Some? { AnswerHolds(env, id, was, o.status.value, o.grpc, time, now, x); }
      StatusKeepsRest(x, o.status, o.grpc, time, now);
      assert StreamHolds(env, id, st, z);
      if z.reply.Some? { FinishShows(env, id, st, z); }
    } else {
      StatusKeepsRest(x, o.status, o.grpc, time, now);
    }
  }

  lemma StatusKeepsRest(x: Heard, status: Option<int>, grpc: Option<int>, time: nat, now: int)
    ensures var z := HearStatus(x, status, grpc, time, now);
      z == x.(reply := z.reply, last := z.last) && (!x.known || status.None? ==> z == x)
  {
  }

  lemma GcHolds(env: Env, id: nat, o: One, st: Option<Stream>, lastGc: nat, time: nat, x: Heard)
    requires Holding(env, id, Rest(o, st), x) && st.Some? == x.known
    ensures Holding(env, id, Rest(o, OneGc(st, lastGc, time)),
                    if lastGc != 0 && Apart(time, lastGc) && x.known && Apart(time, x.began) then UNHEARD else x)
  {
    hide SideHolds, InfoIn;
  }

  lemma CallHolds(env: Env, dir: Dir, id: nat, o: One, decs: Decoders, acts: seq<F.Act>, lastGc: nat, time: nat, now: int, x: Heard)
    requires env.o.enabled && Holding(env, id, o, x) && o.status.None? && o.grpc.None?
    ensures var (y, r) := OneCall(env, dir, id, o, decs, acts, lastGc, time, now);
      var (z, s) := HearCall(env, dir, id, x, decs, acts, lastGc, time, now);
      Holding(env, id, y, z) && r == s
  {
    hide OneAll, HearActs, Holding, OneComplete, OneGc, StatusSeen, GrpcSeen, HearStatus, Report, Apart;
    ActsHold(env, dir, id, o, decs, acts, time, now, x);
    var y := OneAll(env, dir, id, o, decs, acts, time, now).0;
    var w := HearActs(env, dir, id, x, decs, acts, time, now).0;
    StatusHeard(env, dir, id, o, decs, acts, time, now, w);
    var z := HearStatus(w, y.status, y.grpc, time, now);
    CompleteHolds(env, id, y, time, now, w);
    var (st, r) := OneComplete(env.o, y, time, now);
    if z.known && z.reply.Some? && z.ended {
      GoneHolds(env, id, y, lastGc, time);
    } else {
      GcHolds(env, id, y, st, lastGc, time, z);
    }
  }

  lemma GoneHolds(env: Env, id: nat, o: One, lastGc: nat, time: nat)
    ensures Holding(env, id, Rest(o, OneGc(None, lastGc, time)), UNHEARD)
  {
  }

  /** The status the parser of one stream has at the end of the event is the one the frames show. */
  lemma StatusHeard(env: Env, dir: Dir, id: nat, o: One, decs: Decoders, acts: seq<F.Act>, time: nat, now: int, w: Heard)
    requires env.o.enabled && o.status.None? && o.grpc.None?
    requires var y := OneAll(env, dir, id, o, decs, acts, time, now).0; Holding(env, id, y, w)
    ensures var y := OneAll(env, dir, id, o, decs, acts, time, now).0;
      var status, grpc := StatusSeen(env, id, decs, acts).0, GrpcSeen(env, id, decs, acts).0;
      HearStatus(w, y.status, y.grpc, time, now) == if dir.Server? then HearStatus(w, status, grpc, time, now) else w
  {
    hide StatusSeen, GrpcSeen, SideHolds, InfoIn, LifeHolds;
    if dir.Client? {
      ClientHasNoStatus(env, id, o, decs, acts, time, now);
    } else if o.st.Some? {
      PlainActsAnswer(env, id, o, decs, acts, time, now);
    } else {
      ServerOpensNothing(env, id, o, decs, acts, time, now);
    }
    hide OneAll;
  }

  lemma {:induction false} ServerOpensNothing(env: Env, id: nat, o: One, decs: Decoders, acts: seq<F.Act>, time: nat, now: int)
    requires o.st.None?
    ensures OneAll(env, Server, id, o, decs, acts, time, now).0.st.None?
  {
    hide OnResponseFields, LastField, FieldsOf, DecsAfter;
    if acts != [] { ServerOpensNothing(env, id, o, decs, acts[..|acts| - 1], time, now); }
  }

  lemma FlushHolds(env: Env, id: nat, o: One, inData: bool, now: int, x: Heard)
    requires Holding(env, id, o, x) && o.status.None? && o.grpc.None?
    ensures var (y, r) := OneFlush(env, o, inData, now);
      var (z, s) := HearFlush(env, id, x, inData, now);
      Holding(env, id, y, z) && r == s
  {
    hide FinishStream, SideHolds, Report, InfoIn;
    if o.st.Some? && x.reply.Some? { FinishShows(env, id, o.st.value, x); }
  }

  // ---------------------------------------------------------------------------
  // Runs
  // ---------------------------------------------------------------------------

  lemma StartIsAtRest(p: Parser, id: nat)
    requires Known(p.s)
    ensures Start(p, id).status.None? && Start(p, id).grpc.None?
  {
  }

  function SeenOn(p: Parser): Line {
    Line(p.frames.client, p.frames.server, p.decs, p.lastGc)
  }

  lemma {:induction false} BlocksDecoded(env: Env, dir: Dir, m: Mid, acts: seq<F.Act>, time: nat, now: int)
    requires Known(m.s)
    ensures ApplyAll(env, dir, m, acts, time, now).decs == DecsAll(m.decs, dir, acts)
  {
    hide OnRequestBlock, OnResponseFields, WithStatus, Append, Lookup, Put, EndResponse;
    if acts != [] { BlocksDecoded(env, dir, m, acts[..|acts| - 1], time, now); }
  }

  lemma ProceedKeepsLine(env: Env, p: Parser, dir: Dir, acts: seq<F.Act>, time: nat, now: int)
    requires Known(p.s)
    ensures var q := Proceed(env, p, dir, acts, time, now).0;
      && q.frames == p.frames && q.decs == Write(DecsAll(p.decs, dir, acts), dir, Closed)
      && q.lastGc == if Apart(time, p.lastGc) then time else p.lastGc
  {
    BlocksDecoded(env, dir, Mid(p.s, p.owners, p.decs, NONE), acts, time, now);
    hide ApplyAll, CompleteStreams, Reply;
  }

  lemma LineGoesOn(env: Env, p: Parser, i: Input, q: Parser, out: set<Result>)
    requires Handles(env, p, i, q, out)
    ensures SeenOn(q) == LineAfter(env, SeenOn(p), i)
  {
    hide F.Framed, F.Strip, Proceed, Apart;
    if i.Parse? {
      var (t, acts) := F.Framed(env.o.enabled, i.dir.Client?, FrameState(p.frames, i.dir), i.payload);
      ProceedKeepsLine(env, p.(frames := WithFrameState(p.frames, i.dir, t)), i.dir, acts, i.time, i.now);
    }
  }

  /** What a call returned for the stream is what the listener said. */
  ghost predicate ReturnsAsHeard(env: Env, q: Parser, out: set<Result>, id: nat, h: (Heard, Option<Request>)) {
    Known(q.s) && Holding(env, id, Start(q, id), h.0) && ReturnedFor(out, id, h.1)
  }

  lemma ParseHolds(env: Env, p: Parser, dir: Dir, payload: bytes, time: nat, now: int, id: nat, gone: set<Uid>, x: Heard)
    requires ParserOk(env.o.enabled, p, gone) && env.o.enabled && Known(p.s) && Holding(env, id, Start(p, id), x)
    ensures var (q, out) := ParseAt(env, p, dir, payload, time, now);
      ReturnsAsHeard(env, q, out, id, Hear(env, SeenOn(p), id, x, Parse(dir, payload, time, now)))
  {
    var b := F.Strip(dir.Client?, payload);
    var st := FrameState(p.frames, dir);
    if b == [] || StaysPartial(st, b) {
      hide F.Framed, F.Strip, Proceed, Holding, HearCall;
      var q := ParseAt(env, p, dir, payload, time, now).0;
      assert q.s == p.s && q.owners == p.owners;
      assert Start(q, id) == Start(p, id);
    } else {
      var (t, acts) := F.Framed(env.o.enabled, dir.Client?, st, payload);
      var p' := p.(frames := WithFrameState(p.frames, dir, t));
      FramesAreOk(env, p, dir, payload, gone);
      StartIsAtRest(p, id);
      hide ParserOk, F.Framed, F.Strip, Proceed, OneCall, HearCall, Holding, ReturnedFor, Start;
      assert Start(p', id) == Start(p, id) by { SameStart(p, p', id); }
      StreamsDoNotInterfere(env, p', dir, acts, time, now, id, gone);
      CallHolds(env, dir, id, Start(p, id), p.decs, acts, p.lastGc, time, now, x);
    }
  }

  lemma SameStart(p: Parser, q: Parser, id: nat)
    requires Known(p.s) && q.s == p.s && q.owners == p.owners
    ensures Known(q.s) && Start(q, id) == Start(p, id)
  {
  }

  lemma FramesAreOk(env: Env, p: Parser, dir: Dir, payload: bytes, gone: set<Uid>)
    requires ParserOk(env.o.enabled, p, gone)
    ensures var t := F.Framed(env.o.enabled, dir.Client?, FrameState(p.frames, dir), payload).0;
      ParserOk(env.o.enabled, p.(frames := WithFrameState(p.frames, dir, t)), gone)
  {
    hide F.Framed, F.Ok, Consistent, Settled, OwnersOk, Retired;
    FramedOk(env.o.enabled, dir.Client?, FrameState(p.frames, dir), payload);
  }

  lemma FlushedHolds(env: Env, p: Parser, now: int, id: nat, gone: set<Uid>, x: Heard)
    requires ParserOk(env.o.enabled, p, gone) && Known(p.s) && Holding(env, id, Start(p, id), x)
    ensures var (q, out) := Flush(env, p, now); ReturnsAsHeard(env, q, out, id, Hear(env, SeenOn(p), id, x, FlushAt(now)))
  {
    hide ParserOk, Flush, OneFlush, HearFlush, Holding, ReturnedFor;
    StartIsAtRest(p, id);
    FlushesDoNotInterfere(env, p, now, id, gone);
    FlushHolds(env, id, Start(p, id), p.frames.server.InData?, now, x);
  }

  lemma HandleHolds(env: Env, p: Parser, i: Input, id: nat, gone: set<Uid>, x: Heard)
    requires ParserOk(env.o.enabled, p, gone) && env.o.enabled && Known(p.s) && Holding(env, id, Start(p, id), x)
    ensures var (q, out) := Handle(env, p, i); ReturnsAsHeard(env, q, out, id, Hear(env, SeenOn(p), id, x, i))
  {
    hide ParserOk, ParseAt, Flush, Holding, ReturnsAsHeard, Hear;
    match i
    case Parse(dir, payload, time, now) => ParseHolds(env, p, dir, payload, time, now, id, gone, x);
    case FlushAt(now) => FlushedHolds(env, p, now, id, gone, x);
  }

  lemma RunPrefix(env: Env, inputs: seq<Input>, states: seq<Parser>, outs: seq<set<Result>>, n: nat)
    requires IsRun(env, inputs, states, outs) && n <= |inputs|
    ensures |states| == |inputs| + 1 && |outs| == |inputs|
    ensures IsRun(env, inputs[..n], states[..n + 1], outs[..n])
    ensures ParserOk(env.o.enabled, states[n], AllUids(outs[..n])) && Known(states[n].s)
    ensures n < |inputs| ==> Handles(env, states[n], inputs[n], states[n + 1], outs[n])
  {
    hide Handles, ParserOk;
    assert forall i :: 0 <= i < n ==> outs[..n][i] == outs[i];
    EveryRunKeeps(env, inputs[..n], states[..n + 1], outs[..n]);
    assert Known(states[n].s) by { OkIsKnown(env.o.enabled, states[n], AllUids(outs[..n])); }
    assert n < |inputs| ==> outs[n] == outs[n];
  }

  lemma OkIsKnown(enabled: bool, p: Parser, gone: set<Uid>)
    requires ParserOk(enabled, p, gone)
    ensures Known(p.s)
  {
    hide F.Ok;
  }

  lemma StartsUnheard(env: Env, inputs: seq<Input>, states: seq<Parser>, outs: seq<set<Result>>, id: nat)
    requires IsRun(env, inputs, states, outs)
    ensures Known(states[0].s) && Holding(env, id, Start(states[0], id), UNHEARD) && SeenOn(states[0]) == SILENT
  {
  }

  lemma {:induction false} RunHolds(env: Env, inputs: seq<Input>, states: seq<Parser>, outs: seq<set<Result>>, id: nat, n: nat)
    requires IsRun(env, inputs, states, outs) && env.o.enabled && n <= |inputs|
    ensures |states| == |inputs| + 1 && |outs| == |inputs| && Known(states[n].s) && SeenOn(states[n]) == LineOf(env, inputs, n)
    ensures Holding(env, id, Start(states[n], id), HeardOf(env, inputs, id, n))
    ensures n > 0 ==>
      ReturnedFor(outs[n - 1], id, Hear(env, LineOf(env, inputs, n - 1), id, HeardOf(env, inputs, id, n - 1), inputs[n - 1]).1)
  {
    hide IsRun, ParserOk, Handle, Holding, ReturnedFor, Hear, Known, Start, SeenOn, LineAfter;
    RunPrefix(env, inputs, states, outs, n);
    if n == 0 {
      StartsUnheard(env, inputs, states, outs, id);
    } else {
      RunHolds(env, inputs, states, outs, id, n - 1);
      RunPrefix(env, inputs, states, outs, n - 1);
      LineGoesOn(env, states[n - 1], inputs[n - 1], states[n], outs[n - 1]);
      HandleHolds(env, states[n - 1], inputs[n - 1], id, AllUids(outs[..n - 1]), HeardOf(env, inputs, id, n - 1));
    }
  }

  /** In every run and for every stream id: a call or flush returns a request for it if and only if the
      listener says so, and then exactly what the listener reports: the first acceptable method, path and
      scheme the stream was sent, the first final status, the last gRPC status of the events since, the time
      from its beginning to its answer, and bodies cut from all DATA the stream was given, each from its own
      direction and kept or not by its own header fields. */
  lemma ReturnedAsHeard(env: Env, inputs: seq<Input>, states: seq<Parser>, outs: seq<set<Result>>, id: nat, n: nat)
    requires IsRun(env, inputs, states, outs) && env.o.enabled && n < |inputs|
    ensures |outs| == |inputs|
    ensures ReturnedFor(outs[n], id, Hear(env, LineOf(env, inputs, n), id, HeardOf(env, inputs, id, n), inputs[n]).1)
  {
    hide IsRun, ReturnedFor, Hear, Known, Holding, Start, SeenOn, LineAfter;
    RunHolds(env, inputs, states, outs, id, n + 1);
  }
}
