/**
Where the events of an HTTP/2 connection end does not show in what is reported of a stream, with bodies
on: beside the parser runs a teller that is given the parts of frames one at a time, each as an event
of its own and without any times. For an exchange with one final status the parser reports what the
teller tells, in every run, whatever frames come together in an event and whenever.
*/
module Http2Cuts {
  import opened Bytes
  import F = Http2Frames
  import P = Http1Parser
  import opened Http2Streams
  import opened Http2Exchange
  import B = Http2Bodies
  import opened Wrappers

  // ---------------------------------------------------------------------------
  // What does not depend on the times
  // ---------------------------------------------------------------------------

  const NO_HEADERS := P.Headers(0, false, [], [])

  /** A stream without its times and, unless `all`, without the header fields of its response. */
  function Still(all: bool, st: Stream): Stream {
    st.(time := 0, answer := st.answer.(duration := 0), life := Life(st.life.haveResp, st.life.respEnded, 0, 0),
        resp := if all then st.resp else st.resp.(hdr := NO_HEADERS))
  }

  function StillOf(all: bool, st: Option<Stream>): Option<Stream> {
    if st.Some? then Some(Still(all, st.value)) else None
  }

  /** A request as it is returned, without its times and, unless `all`, without the body of its response. */
  function Core(all: bool, r: Request): Request {
    r.(answer := r.answer.(duration := 0), at := 0, respBody := if all then r.respBody else [],
       respSize := if all then r.respSize else 0)
  }

  function CoreOf(all: bool, r: Option<Request>): seq<Request> {
    if r.Some? then [Core(all, r.value)] else []
  }

  /** What a decoder was given, without the ends of the events. */
  function Unmarked(h: seq<Fed>): seq<Fed> {
    if h == [] then [] else Unmarked(h[..|h| - 1]) + if h[|h| - 1].Wrote? then [h[|h| - 1]] else []
  }

  /** The fields of a block do not depend on where events ended. */
  ghost predicate Blind(env: Env) {
    forall h :: env.hpack(h) == env.hpack(Unmarked(h))
  }

  // ---------------------------------------------------------------------------
  // The teller
  // ---------------------------------------------------------------------------

  /** A part of a frame, and who sent it. */
  datatype Part = Part(dir: Dir, act: F.Act)

  datatype Tale = Tale(o: One, decs: Decoders, told: seq<Request>)

  const UNTOLD := Tale(One(None, false, false, None, None), Decoders([], []), [])

  function Tell(all: bool, env: Env, id: nat, t: Tale, p: Part): Tale {
    var y := OneAct(env, p.dir, id, t.o, p.act, FieldsOf(env, t.decs, p.dir, p.act), 0, 0);
    var (st, r) := OneComplete(env.o, y, 0, 0);
    Tale(Rest(y, StillOf(all, st)), DecsAfter(t.decs, p.dir, p.act), t.told + CoreOf(all, r))
  }

  function TellAll(all: bool, env: Env, id: nat, t: Tale, parts: seq<Part>): Tale {
    if parts == [] then t
    else Tell(all, env, id, TellAll(all, env, id, t, parts[..|parts| - 1]), parts[|parts| - 1])
  }

  predicate IsBodyField(name: bytes) {
    name == Ascii("content-type") || name == Ascii("content-encoding") || name == Ascii("content-length")
  }

  predicate NoBodyFields(fs: seq<Field>) {
    forall i :: 0 <= i < |fs| ==> !IsBodyField(fs[i].name)
  }

  /** A header block of a response: before the answer its status, and with an interim status no gRPC
      status; after it none, and if `all` nothing that describes a body. */
  predicate BlockOfResponse(all: bool, env: Env, answered: bool, fs: seq<Field>) {
    var s, g := LastField(fs, Ascii(":status")), LastField(fs, Ascii("grpc-status"));
    if answered then s.None? && (all ==> NoBodyFields(fs))
    else s.Some? && (IsInterim(env.number(s.value)) ==> g.None?)
  }

  /** A response has one final status, and nothing of it follows its end. */
  predicate Fits(all: bool, env: Env, dir: Dir, id: nat, x: One, a: F.Act, fs: seq<Field>) {
    dir.Server? && (a.Block? || a.Open?) && a.h.streamId == id ==>
      x.st.Some? && (a.Block? ==> !x.mineServer && BlockOfResponse(all, env, x.st.value.life.haveResp, fs))
  }

  predicate Legal(all: bool, env: Env, id: nat, t: Tale, p: Part) {
    Fits(all, env, p.dir, id, t.o, p.act, FieldsOf(env, t.decs, p.dir, p.act))
  }

  predicate AllLegal(all: bool, env: Env, id: nat, t: Tale, parts: seq<Part>) {
    parts != [] ==>
      var init := parts[..|parts| - 1];
      AllLegal(all, env, id, t, init) && Legal(all, env, id, TellAll(all, env, id, t, init), parts[|parts| - 1])
  }

  // ---------------------------------------------------------------------------
  // What fields do to a stream
  // ---------------------------------------------------------------------------

  function HeadersAfter(env: Env, h: P.Headers, fs: seq<Field>): P.Headers {
    if fs == [] then h else RecordBodyHeader(env, HeadersAfter(env, h, fs[..|fs| - 1]), fs[|fs| - 1])
  }

  function InfoAfter(i: Info, fs: seq<Field>): Info {
    if fs == [] then i else OnInfo(InfoAfter(i, fs[..|fs| - 1]), fs[|fs| - 1])
  }

  lemma {:induction false} ResponseFieldsAre(env: Env, st: Stream, fs: seq<Field>)
    ensures OnResponseFields(env, st, fs) == st.(resp := st.resp.(hdr := HeadersAfter(env, st.resp.hdr, fs)))
  {
    hide RecordBodyHeader;
    if fs != [] { ResponseFieldsAre(env, st, fs[..|fs| - 1]); }
  }

  lemma {:induction false} RequestFieldsAre(env: Env, st: Stream, fs: seq<Field>)
    requires env.o.enabled
    ensures OnRequestFields(env, st, fs) ==
      st.(info := InfoAfter(st.info, fs), req := st.req.(hdr := HeadersAfter(env, st.req.hdr, fs)))
  {
    hide RecordBodyHeader, OnInfo;
    if fs != [] { RequestFieldsAre(env, st, fs[..|fs| - 1]); }
  }

  lemma {:induction false} NoBodyFieldsCount(env: Env, h: P.Headers, fs: seq<Field>)
    requires NoBodyFields(fs)
    ensures HeadersAfter(env, h, fs) == h
  {
    if fs != [] { NoBodyFieldsCount(env, h, fs[..|fs| - 1]); }
  }

  // ---------------------------------------------------------------------------
  // One part
  // ---------------------------------------------------------------------------

  /** The stream as it is when the event ends here. */
  function Now(o: One, time: nat, now: int): Option<Stream> {
    if o.st.Some? && o.status.Some? then Some(OneAnswered(o.st.value, o.status.value, o.grpc, time, now)) else o.st
  }

  predicate IsDone(st: Option<Stream>) {
    st.Some? && st.value.life.haveResp && st.value.life.respEnded
  }

  lemma CompleteIs(o: P.Options, x: One, time: nat, now: int)
    ensures var st := Now(x, time, now);
      OneComplete(o, x, time, now) == if IsDone(st) then (None, Some(FinishStream(o, st.value))) else (st, None)
  {
    hide FinishStream, OneAnswered;
  }

  lemma FinishStill(all: bool, o: P.Options, a: Stream, b: Stream)
    requires Still(all, a) == Still(all, b)
    ensures Core(all, FinishStream(o, a)) == Core(all, FinishStream(o, b))
  {
    hide P.FinishBody;
  }

  /** What waits for the end of the event is what the event may hold. */
  predicate Pending(dir: Dir, o: One) {
    && (o.grpc.Some? ==> o.status.Some?)
    && (o.st.Some? && !o.st.value.life.haveResp && o.status.Some? && IsInterim(o.status.value) ==> o.grpc.None?)
    && (dir.Client? ==> o.status.None?)
    && (o.mineClient || o.mineServer ==> o.st.Some?)
  }

  /** The event so far is told: the stream as it would be if the event ended here is the teller's, or it
      is done and the teller has told it. */
  ghost predicate Follows(all: bool, dir: Dir, o: One, time: nat, now: int, x: One) {
    var st := Now(o, time, now);
    && Pending(dir, o) && x.status.None? && x.grpc.None? && !IsDone(x.st)
    && if IsDone(st) then x == One(None, false, false, None, None) && !o.mineServer && dir.Server?
       else x == Rest(o, StillOf(all, st))
  }

  /** The parser and the teller, after a part for which the stream is not done, before the event ends. */
  ghost predicate Alike(all: bool, dir: Dir, o: One, x: One, time: nat, now: int) {
    && Pending(dir, o) && StillOf(all, Now(o, time, now)) == StillOf(all, Now(x, 0, 0))
    && (o.st.Some? ==> x.mineClient == o.mineClient && x.mineServer == o.mineServer)
  }

  lemma ClientBlockFollows(all: bool, env: Env, id: nat, o: One, x: One, h: F.Header, fs: seq<Field>, time: nat, now: int)
    requires env.o.enabled && Follows(all, Client, o, time, now, x) && !IsDone(Now(o, time, now))
    ensures Alike(all, Client, OneBlock(env, Client, id, o, h, fs, time), OneBlock(env, Client, id, x, h, fs, 0), time, now)
  {
    hide OnRequestFields, HeadersAfter, InfoAfter;
    RequestFieldsAre(env, if o.st.Some? then o.st.value else NewStream(env, id, time), fs);
    RequestFieldsAre(env, if x.st.Some? then x.st.value else NewStream(env, id, 0), fs);
  }

  /** Before the answer nothing waits that would change the stream. */
  lemma NotYet(all: bool, o: One, x: One, time: nat, now: int)
    requires Follows(all, Server, o, time, now, x) && !IsDone(Now(o, time, now)) && x.st.Some? && !x.st.value.life.haveResp
    ensures o.st.Some? && x.st.value == Still(all, o.st.value) && o.grpc.None? && Now(o, time, now) == o.st
  {
    hide P.Elapsed;
  }

  /** A block before the answer: the answer, or not yet. */
  lemma AnswerFollows(all: bool, env: Env, id: nat, o: One, x: One, h: F.Header, fs: seq<Field>, time: nat, now: int)
    requires env.o.enabled && Follows(all, Server, o, time, now, x) && !IsDone(Now(o, time, now))
    requires x.st.Some? && !x.st.value.life.haveResp && BlockOfResponse(all, env, false, fs)
    ensures Alike(all, Server, OneBlock(env, Server, id, o, h, fs, time), OneBlock(env, Server, id, x, h, fs, 0), time, now)
  {
    NotYet(all, o, x, time, now);
    hide OnResponseFields, HeadersAfter, LastField, P.Elapsed, Now, IsDone;
    ResponseFieldsAre(env, o.st.value, fs);
    ResponseFieldsAre(env, x.st.value, fs);
    StatusCounts(all, OneBlock(env, Server, id, o, h, fs, time), OneBlock(env, Server, id, x, h, fs, 0), time, now);
  }

  lemma StatusCounts(all: bool, o: One, x: One, time: nat, now: int)
    requires o.st.Some? && x.st.Some? && Still(all, o.st.value) == Still(all, x.st.value)
    requires o.status.Some? && x.status == o.status && x.grpc == o.grpc
    ensures StillOf(all, Now(o, time, now)) == StillOf(all, Now(x, 0, 0))
  {
    hide P.Elapsed;
  }

  /** A block after the answer, which came in an earlier event or in this one. */
  lemma TrailerFollows(all: bool, env: Env, id: nat, o: One, x: One, h: F.Header, fs: seq<Field>, time: nat, now: int)
    requires env.o.enabled && Follows(all, Server, o, time, now, x) && !IsDone(Now(o, time, now))
    requires x.st.Some? && x.st.value.life.haveResp && BlockOfResponse(all, env, true, fs)
    ensures Alike(all, Server, OneBlock(env, Server, id, o, h, fs, time), OneBlock(env, Server, id, x, h, fs, 0), time, now)
  {
    hide OnResponseFields, HeadersAfter, LastField, P.Elapsed, NoBodyFields;
    ResponseFieldsAre(env, o.st.value, fs);
    if all { NoBodyFieldsCount(env, o.st.value.resp.hdr, fs); }
  }

  lemma AppendFollows(all: bool, dir: Dir, o: One, x: One, h: F.Header, b: bytes, time: nat, now: int)
    requires Follows(all, dir, o, time, now, x) && !IsDone(Now(o, time, now))
    ensures Alike(all, dir, OneAppend(dir, o, h, b, now), OneAppend(dir, x, h, b, 0), time, now)
  {
    hide P.Add, P.Elapsed;
  }

  lemma OpenFollows(all: bool, env: Env, dir: Dir, id: nat, o: One, x: One, h: F.Header, time: nat, now: int)
    requires Follows(all, dir, o, time, now, x) && !IsDone(Now(o, time, now))
    ensures var a := F.Open(h);
      Alike(all, dir, OneAct(env, dir, id, o, a, [], time, now), OneAct(env, dir, id, x, a, [], 0, 0), time, now)
  {
    hide P.Add, P.Elapsed, OneAppend, Still, OneAnswered;
    var b := h.streamId == id && o.st.Some?;
    assert Follows(all, dir, WithMine(o, dir, b), time, now, WithMine(x, dir, b));
    AppendFollows(all, dir, WithMine(o, dir, b), WithMine(x, dir, b), h, [], time, now);
  }

  lemma CloseFollows(all: bool, env: Env, dir: Dir, id: nat, o: One, x: One, h: F.Header, time: nat, now: int)
    requires Follows(all, dir, o, time, now, x) && !IsDone(Now(o, time, now))
    ensures var a := F.Close(h);
      Alike(all, dir, OneAct(env, dir, id, o, a, [], time, now), OneAct(env, dir, id, x, a, [], 0, 0), time, now)
  {
    hide P.Elapsed;
  }

  /** A part for which the stream is not done. */
  lemma PartFollows(all: bool, env: Env, dir: Dir, id: nat, o: One, x: One, a: F.Act, fs: seq<Field>, time: nat, now: int)
    requires env.o.enabled && Follows(all, dir, o, time, now, x) && !IsDone(Now(o, time, now)) && Fits(all, env, dir, id, x, a, fs)
    ensures Alike(all, dir, OneAct(env, dir, id, o, a, fs, time, now), OneAct(env, dir, id, x, a, fs, 0, 0), time, now)
  {
    match a
    case Block(h, _) =>
      if h.streamId != id {
        FollowsIsAlike(all, dir, o, x, time, now);
      } else if dir.Client? {
        ClientBlockFollows(all, env, id, o, x, h, fs, time, now);
      } else if x.st.value.life.haveResp {
        TrailerFollows(all, env, id, o, x, h, fs, time, now);
      } else {
        AnswerFollows(all, env, id, o, x, h, fs, time, now);
      }
    case Open(h) => OpenFollows(all, env, dir, id, o, x, h, time, now);
    case Data(h, b) => AppendFollows(all, dir, o, x, h, b, time, now);
    case Close(h) => CloseFollows(all, env, dir, id, o, x, h, time, now);
  }

  lemma FollowsIsAlike(all: bool, dir: Dir, o: One, x: One, time: nat, now: int)
    requires Follows(all, dir, o, time, now, x) && !IsDone(Now(o, time, now))
    ensures Alike(all, dir, o, x, time, now)
  {
  }

  /** A stream is done with a frame of the server that ends. */
  lemma DoneByServer(all: bool, env: Env, dir: Dir, id: nat, o: One, x: One, a: F.Act, fs: seq<Field>, time: nat, now: int)
    requires env.o.enabled && Follows(all, dir, o, time, now, x) && !IsDone(Now(o, time, now)) && Fits(all, env, dir, id, x, a, fs)
    ensures var o' := OneAct(env, dir, id, o, a, fs, time, now); IsDone(Now(o', time, now)) ==> dir.Server? && !o'.mineServer
  {
    if a.Block? && a.h.streamId == id {
      FieldsAlike(env, if o.st.Some? then o.st.value else NewStream(env, id, time), fs);
    }
    hide OnRequestFields, OnResponseFields, LastField, P.Add, P.Elapsed, BlockOfResponse, Still;
  }

  /** After the stream is done, no part is its own. */
  lemma DoneStays(all: bool, env: Env, dir: Dir, id: nat, o: One, x: One, a: F.Act, fs: seq<Field>, time: nat, now: int)
    requires Follows(all, dir, o, time, now, x) && IsDone(Now(o, time, now)) && Fits(all, env, dir, id, x, a, fs)
    ensures OneAct(env, dir, id, o, a, fs, time, now) == o && OneAct(env, dir, id, x, a, fs, 0, 0) == x
  {
    hide OneBlock, OneAnswered, Still, BlockOfResponse;
  }

  /** What is told at the end of a part is what the parser would return if the event ended there. */
  lemma CompleteFollows(all: bool, o: P.Options, dir: Dir, y: One, x: One, time: nat, now: int)
    requires Alike(all, dir, y, x, time, now) && (IsDone(Now(y, time, now)) ==> dir.Server? && !y.mineServer)
    ensures var (st, r) := OneComplete(o, x, 0, 0);
      && Follows(all, dir, y, time, now, Rest(x, StillOf(all, st)))
      && CoreOf(all, r) == CoreOf(all, OneComplete(o, y, time, now).1)
  {
    CompleteIs(o, x, 0, 0);
    CompleteIs(o, y, time, now);
    var a, b := Now(y, time, now), Now(x, 0, 0);
    if IsDone(a) { FinishStill(all, o, a.value, b.value); }
    hide FinishStream, OneComplete, OneAnswered;
  }

  // ---------------------------------------------------------------------------
  // One call
  // ---------------------------------------------------------------------------

  ghost predicate SameDecs(d: Decoders, e: Decoders) {
    Unmarked(d.client) == e.client && Unmarked(d.server) == e.server
  }

  lemma UnmarkedSnoc(h: seq<Fed>, f: Fed)
    ensures Unmarked(h + [f]) == Unmarked(h) + if f.Wrote? then [f] else []
  {
    assert (h + [f])[..|h|] == h;
  }

  lemma WriteSame(d: Decoders, e: Decoders, dir: Dir, f: Fed)
    requires SameDecs(d, e)
    ensures SameDecs(Write(d, dir, f), if f.Wrote? then Write(e, dir, f) else e)
    ensures f.Wrote? ==> Unmarked(History(Write(d, dir, f), dir)) == History(Write(e, dir, f), dir)
  {
    hide Unmarked;
    UnmarkedSnoc(d.client, f);
    UnmarkedSnoc(d.server, f);
  }

  lemma FieldsSame(env: Env, d: Decoders, e: Decoders, dir: Dir, a: F.Act)
    requires Blind(env) && SameDecs(d, e)
    ensures FieldsOf(env, d, dir, a) == FieldsOf(env, e, dir, a) && SameDecs(DecsAfter(d, dir, a), DecsAfter(e, dir, a))
  {
    hide SameDecs, Unmarked, Write, History;
    if a.Block? { WriteSame(d, e, dir, Wrote(a.body)); }
  }

  /** The event so far is told, beside what was told before it. */
  ghost predicate Tells(all: bool, env: Env, dir: Dir, o: One, decs: Decoders, time: nat, now: int, told: seq<Request>, t: Tale) {
    && Follows(all, dir, o, time, now, t.o) && SameDecs(decs, t.decs)
    && t.told == told + CoreOf(all, OneComplete(env.o, o, time, now).1)
  }

  lemma PartTold(all: bool, env: Env, dir: Dir, id: nat, o: One, decs: Decoders, a: F.Act, time: nat, now: int, told: seq<Request>, t: Tale)
    requires env.o.enabled && Blind(env) && Tells(all, env, dir, o, decs, time, now, told, t) && Legal(all, env, id, t, Part(dir, a))
    ensures Tells(all, env, dir, OneAct(env, dir, id, o, a, FieldsOf(env, decs, dir, a), time, now), DecsAfter(decs, dir, a), time, now,
                  told, Tell(all, env, id, t, Part(dir, a)))
  {
    hide Blind, SameDecs, OneAct, OneComplete, FieldsOf, DecsAfter, Fits, Follows, Alike, Core;
    FieldsSame(env, decs, t.decs, dir, a);
    var fs := FieldsOf(env, decs, dir, a);
    var y, x := OneAct(env, dir, id, o, a, fs, time, now), OneAct(env, dir, id, t.o, a, fs, 0, 0);
    CompleteIs(env.o, o, time, now);
    if IsDone(Now(o, time, now)) {
      DoneStays(all, env, dir, id, o, t.o, a, fs, time, now);
      DoneTellsNothing(all, env, dir, o, t.o, time, now);
    } else {
      PartFollows(all, env, dir, id, o, t.o, a, fs, time, now);
      DoneByServer(all, env, dir, id, o, t.o, a, fs, time, now);
      CompleteFollows(all, env.o, dir, y, x, time, now);
    }
  }

  lemma DoneTellsNothing(all: bool, env: Env, dir: Dir, o: One, x: One, time: nat, now: int)
    requires Follows(all, dir, o, time, now, x) && IsDone(Now(o, time, now))
    ensures OneComplete(env.o, x, 0, 0) == (None, None) && Rest(x, None) == x
  {
  }

  function Parts(dir: Dir, acts: seq<F.Act>): (p: seq<Part>)
    ensures |p| == |acts|
  {
    seq(|acts|, i requires 0 <= i < |acts| => Part(dir, acts[i]))
  }

  lemma PartsInit(dir: Dir, acts: seq<F.Act>)
    requires acts != []
    ensures var n := |acts| - 1; Parts(dir, acts)[..n] == Parts(dir, acts[..n]) && Parts(dir, acts)[n] == Part(dir, acts[n])
  {
  }

  lemma {:induction false} ActsTold(all: bool, env: Env, dir: Dir, id: nat, o: One, decs: Decoders, acts: seq<F.Act>, time: nat, now: int,
                                    told: seq<Request>, t: Tale)
    requires env.o.enabled && Blind(env) && Tells(all, env, dir, o, decs, time, now, told, t)
    requires AllLegal(all, env, id, t, Parts(dir, acts))
    ensures var (y, d) := OneAll(env, dir, id, o, decs, acts, time, now);
      Tells(all, env, dir, y, d, time, now, told, TellAll(all, env, id, t, Parts(dir, acts)))
  {
    hide Blind, Tells, OneAct, FieldsOf, DecsAfter, Tell, Legal, Parts;
    if acts != [] {
      var n := |acts| - 1;
      PartsInit(dir, acts);
      ActsTold(all, env, dir, id, o, decs, acts[..n], time, now, told, t);
      var (y, d) := OneAll(env, dir, id, o, decs, acts[..n], time, now);
      PartTold(all, env, dir, id, y, d, acts[n], time, now, told, TellAll(all, env, id, t, Parts(dir, acts[..n])));
    }
  }

  /** Between two calls. */
  ghost predicate InStep(all: bool, x: One, decs: Decoders, t: Tale) {
    && x.status.None? && x.grpc.None? && !IsDone(x.st) && (x.mineClient || x.mineServer ==> x.st.Some?)
    && t.o == x.(st := StillOf(all, x.st)) && SameDecs(decs, t.decs)
  }

  lemma CallStarts(all: bool, env: Env, dir: Dir, x: One, decs: Decoders, time: nat, now: int, t: Tale)
    requires InStep(all, x, decs, t)
    ensures Tells(all, env, dir, x, decs, time, now, t.told, t)
  {
    hide SameDecs;
    assert t.told + [] == t.told;
  }

  lemma CallEnds(all: bool, env: Env, dir: Dir, y: One, decs: Decoders, time: nat, now: int, told: seq<Request>, t: Tale)
    requires Tells(all, env, dir, y, decs, time, now, told, t)
    ensures var (st, r) := OneComplete(env.o, y, time, now);
      InStep(all, Rest(y, st), Write(decs, dir, Closed), t) && t.told == told + CoreOf(all, r)
  {
    CompleteIs(env.o, y, time, now);
    WriteSame(decs, t.decs, dir, Closed);
    hide SameDecs, Still, OneComplete, OneAnswered, Write, Core, FinishStream;
  }

  /** A call in which the stream is not too old is told. */
  lemma CallTold(all: bool, env: Env, dir: Dir, id: nat, x: One, decs: Decoders, acts: seq<F.Act>, lastGc: nat, time: nat, now: int,
                 t: Tale)
    requires env.o.enabled && Blind(env) && InStep(all, x, decs, t) && AllLegal(all, env, id, t, Parts(dir, acts))
    requires lastGc == 0 || !Old(time, lastGc)
    ensures var (y, r) := OneCall(env, dir, id, x, decs, acts, lastGc, time, now);
      var t' := TellAll(all, env, id, t, Parts(dir, acts));
      && InStep(all, y, Write(OneAll(env, dir, id, x, decs, acts, time, now).1, dir, Closed), t')
      && t'.told == t.told + CoreOf(all, r)
  {
    hide Blind, InStep, OneAll, AllLegal, Tells, OneComplete, TellAll, Parts, CoreOf;
    CallStarts(all, env, dir, x, decs, time, now, t);
    ActsTold(all, env, dir, id, x, decs, acts, time, now, t.told, t);
    var (y, d) := OneAll(env, dir, id, x, decs, acts, time, now);
    CallEnds(all, env, dir, y, d, time, now, t.told, TellAll(all, env, id, t, Parts(dir, acts)));
  }

  // ---------------------------------------------------------------------------
  // Runs
  // ---------------------------------------------------------------------------

  /** The parts of frames an input brings. */
  function PartsIn(env: Env, p: Parser, i: Input): seq<Part> {
    match i
    case FlushAt(_) => []
    case Parse(dir, payload, _, _) => Parts(dir, F.Framed(env.o.enabled, dir.Client?, FrameState(p.frames, dir), payload).1)
  }

  /** All parts of frames of the first n inputs, in order. */
  function PartsOf(env: Env, inputs: seq<Input>, states: seq<Parser>, n: nat): seq<Part>
    requires n <= |inputs| <= |states|
  {
    if n == 0 then [] else PartsOf(env, inputs, states, n - 1) + PartsIn(env, states[n - 1], inputs[n - 1])
  }

  lemma PartsNext(env: Env, inputs: seq<Input>, states: seq<Parser>, n: nat)
    requires 0 < n <= |inputs| <= |states|
    ensures PartsOf(env, inputs, states, n) == PartsOf(env, inputs, states, n - 1) + PartsIn(env, states[n - 1], inputs[n - 1])
  {
  }

  /** What a call returned for a stream. */
  ghost function SaidIn(all: bool, out: set<Result>, id: nat): seq<Request> {
    if x :| x in out && x.r.id == id then [Core(all, x.r)] else []
  }

  /** What the first n calls returned for a stream, in order. */
  ghost function Said(all: bool, outs: seq<set<Result>>, id: nat, n: nat): seq<Request>
    requires n <= |outs|
  {
    if n == 0 then [] else Said(all, outs, id, n - 1) + SaidIn(all, outs[n - 1], id)
  }

  lemma SaidIs(all: bool, out: set<Result>, id: nat, r: Option<Request>)
    requires ReturnedFor(out, id, r)
    ensures SaidIn(all, out, id) == CoreOf(all, r)
  {
    hide Core;
  }

  lemma {:induction false} TellConcat(all: bool, env: Env, id: nat, t: Tale, a: seq<Part>, b: seq<Part>)
    ensures TellAll(all, env, id, t, a + b) == TellAll(all, env, id, TellAll(all, env, id, t, a), b)
    ensures AllLegal(all, env, id, t, a + b) ==> AllLegal(all, env, id, t, a) && AllLegal(all, env, id, TellAll(all, env, id, t, a), b)
  {
    hide Tell, Legal;
    if b == [] {
      assert a + b == a;
    } else {
      var n := |b| - 1;
      TellConcat(all, env, id, t, a, b[..n]);
      assert (a + b)[..|a + b| - 1] == a + b[..n];
    }
  }

  lemma ProceedIs(env: Env, p: Parser, dir: Dir, acts: seq<F.Act>, time: nat, now: int, id: nat, gone: set<Uid>)
    requires ParserOk(env.o.enabled, p, gone)
    ensures Known(p.s)
    ensures var q := Proceed(env, p, dir, acts, time, now).0;
      && q.decs == Write(OneAll(env, dir, id, Start(p, id), p.decs, acts, time, now).1, dir, Closed)
      && (q.lastGc == p.lastGc || q.lastGc == time)
  {
    var m := Mid(p.s, p.owners, p.decs, NONE);
    MidStarts(env.o.enabled, p, gone);
    hide MidOk, ParserOk, ApplyAll, OneAll, CompleteStreams, Reply;
    MidIs(m, gone);
    assert Seen(m, id) == Start(p, id);
    ActsSeen(env, dir, m, acts, time, now, id, gone);
  }

  lemma SkippedTold(all: bool, p: Parser, q: Parser, dir: Dir, id: nat, t: Tale)
    requires Known(p.s) && InStep(all, Start(p, id), p.decs, t)
    requires q.s == p.s && q.owners == p.owners && (q.decs == p.decs || q.decs == Write(p.decs, dir, Closed))
    ensures Known(q.s) && InStep(all, Start(q, id), q.decs, t) && SaidIn(all, {}, id) == []
  {
    hide SameDecs, Write;
    WriteSame(p.decs, t.decs, dir, Closed);
  }

  lemma ProceedTold(all: bool, env: Env, p: Parser, dir: Dir, acts: seq<F.Act>, time: nat, now: int, id: nat, gone: set<Uid>, t: Tale)
    requires ParserOk(env.o.enabled, p, gone) && env.o.enabled && Blind(env) && Known(p.s) && InStep(all, Start(p, id), p.decs, t)
    requires (p.lastGc == 0 || !Old(time, p.lastGc)) && AllLegal(all, env, id, t, Parts(dir, acts))
    ensures var (q, out) := Proceed(env, p, dir, acts, time, now);
      var t' := TellAll(all, env, id, t, Parts(dir, acts));
      && Known(q.s) && InStep(all, Start(q, id), q.decs, t') && t'.told == t.told + SaidIn(all, out, id)
      && (q.lastGc == p.lastGc || q.lastGc == time)
  {
    hide ParserOk, Proceed, OneCall, OneAll, InStep, ReturnedFor, TellAll, AllLegal, Write, Blind, Parts, SaidIn, CoreOf, Old;
    StreamsDoNotInterfere(env, p, dir, acts, time, now, id, gone);
    ProceedIs(env, p, dir, acts, time, now, id, gone);
    CallTold(all, env, dir, id, Start(p, id), p.decs, acts, p.lastGc, time, now, t);
    SaidIs(all, Proceed(env, p, dir, acts, time, now).1, id, OneCall(env, dir, id, Start(p, id), p.decs, acts, p.lastGc, time, now).1);
  }

  /** The two ways through a call. */
  lemma ParseAtIs(env: Env, p: Parser, dir: Dir, payload: bytes, time: nat, now: int)
    requires Known(p.s)
    ensures var (q, out) := ParseAt(env, p, dir, payload, time, now);
      var (f, acts) := F.Framed(env.o.enabled, dir.Client?, FrameState(p.frames, dir), payload);
      if acts == [] && Skips(p, dir, payload) then
        && q.s == p.s && q.owners == p.owners && q.lastGc == p.lastGc && out == {}
        && (q.decs == p.decs || q.decs == Write(p.decs, dir, Closed))
      else (q, out) == Proceed(env, p.(frames := WithFrameState(p.frames, dir, f)), dir, acts, time, now)
  {
    hide Proceed, F.Strip;
    var b, st := F.Strip(dir.Client?, payload), FrameState(p.frames, dir);
    if b != [] && StaysPartial(st, b) { F.FeedBody(env.o.enabled, st.h, st.acc, b); }
  }

  /** Nothing came, or not enough to complete a frame. */
  predicate Skips(p: Parser, dir: Dir, payload: bytes) {
    var b := F.Strip(dir.Client?, payload);
    b == [] || StaysPartial(FrameState(p.frames, dir), b)
  }

  lemma ParseTold(all: bool, env: Env, p: Parser, dir: Dir, payload: bytes, time: nat, now: int, id: nat, gone: set<Uid>, t: Tale)
    requires ParserOk(env.o.enabled, p, gone) && env.o.enabled && Blind(env) && Known(p.s) && InStep(all, Start(p, id), p.decs, t)
    requires p.lastGc == 0 || !Old(time, p.lastGc)
    requires AllLegal(all, env, id, t, PartsIn(env, p, Parse(dir, payload, time, now)))
    ensures var (q, out) := ParseAt(env, p, dir, payload, time, now);
      var t' := TellAll(all, env, id, t, PartsIn(env, p, Parse(dir, payload, time, now)));
      && Known(q.s) && InStep(all, Start(q, id), q.decs, t') && t'.told == t.told + SaidIn(all, out, id)
      && (q.lastGc == p.lastGc || q.lastGc == time)
  {
    hide ParserOk, ParseAt, F.Framed, Proceed, InStep, AllLegal, Write, Blind, SaidIn, Old, Skips, Known;
    ParseAtIs(env, p, dir, payload, time, now);
    var (q, out) := ParseAt(env, p, dir, payload, time, now);
    var (f, acts) := F.Framed(env.o.enabled, dir.Client?, FrameState(p.frames, dir), payload);
    if acts == [] && Skips(p, dir, payload) {
      SkippedTold(all, p, q, dir, id, t);
      assert Parts(dir, acts) == [] && t.told + [] == t.told;
    } else {
      B.FramesAreOk(env, p, dir, payload, gone);
      ProceedTold(all, env, p.(frames := WithFrameState(p.frames, dir, f)), dir, acts, time, now, id, gone, t);
    }
  }

  lemma FlushTold(all: bool, env: Env, p: Parser, now: int, id: nat, gone: set<Uid>, t: Tale)
    requires ParserOk(env.o.enabled, p, gone) && Known(p.s) && InStep(all, Start(p, id), p.decs, t)
    requires forall x :: x in Flush(env, p, now).1 ==> x.r.id != id
    ensures var (q, out) := Flush(env, p, now);
      Known(q.s) && InStep(all, Start(q, id), q.decs, t) && SaidIn(all, out, id) == [] && q.lastGc == p.lastGc
  {
    hide ParserOk, InStep, Quiet, FinishStream, Core;
    FlushesDoNotInterfere(env, p, now, id, gone);
  }

  /** No flush returns the stream, and no call is more than ten minutes after another. */
  ghost predicate Undisturbed(inputs: seq<Input>, outs: seq<set<Result>>, id: nat)
    requires |outs| == |inputs|
  {
    && (forall i, j :: 0 <= i < j < |inputs| && inputs[i].Parse? && inputs[j].Parse? ==> !Old(inputs[j].time, inputs[i].time))
    && (forall k, x :: 0 <= k < |inputs| && inputs[k].FlushAt? && x in outs[k] ==> x.r.id != id)
  }

  /** When old streams were last looked for. */
  ghost predicate GcTime(inputs: seq<Input>, n: nat, lastGc: nat)
    requires n <= |inputs|
  {
    lastGc == 0 || exists i :: 0 <= i < n && inputs[i].Parse? && lastGc == inputs[i].time
  }

  /** After n calls. */
  ghost predicate InStepAt(all: bool, inputs: seq<Input>, outs: seq<set<Result>>, id: nat, n: nat, p: Parser, t: Tale)
    requires n <= |inputs| == |outs|
  {
    Known(p.s) && InStep(all, Start(p, id), p.decs, t) && t.told == Said(all, outs, id, n) && GcTime(inputs, n, p.lastGc)
  }

  lemma HandleTold(all: bool, env: Env, inputs: seq<Input>, outs: seq<set<Result>>, id: nat, n: nat, p: Parser, q: Parser, gone: set<Uid>,
                   t: Tale)
    requires n < |inputs| == |outs| && Undisturbed(inputs, outs, id) && Handles(env, p, inputs[n], q, outs[n])
    requires ParserOk(env.o.enabled, p, gone) && env.o.enabled && Blind(env) && InStepAt(all, inputs, outs, id, n, p, t)
    requires AllLegal(all, env, id, t, PartsIn(env, p, inputs[n]))
    ensures InStepAt(all, inputs, outs, id, n + 1, q, TellAll(all, env, id, t, PartsIn(env, p, inputs[n])))
  {
    hide ParserOk, ParseAt, Flush, InStep, Blind, F.Framed, AllLegal, SaidIn, Known, Old;
    match inputs[n]
    case Parse(dir, payload, time, now) => ParseTold(all, env, p, dir, payload, time, now, id, gone, t);
    case FlushAt(now) =>
      FlushTold(all, env, p, now, id, gone, t);
      assert t.told + [] == t.told;
  }

  lemma NothingTold(all: bool, inputs: seq<Input>, outs: seq<set<Result>>, id: nat)
    requires |inputs| == |outs|
    ensures InStepAt(all, inputs, outs, id, 0, EMPTY, UNTOLD)
  {
  }

  /** Every run is told. */
  lemma {:induction false} RunTold(all: bool, env: Env, inputs: seq<Input>, states: seq<Parser>, outs: seq<set<Result>>, id: nat, n: nat)
    requires IsRun(env, inputs, states, outs) && env.o.enabled && Blind(env) && Undisturbed(inputs, outs, id) && n <= |inputs|
    requires AllLegal(all, env, id, UNTOLD, PartsOf(env, inputs, states, n))
    ensures InStepAt(all, inputs, outs, id, n, states[n], TellAll(all, env, id, UNTOLD, PartsOf(env, inputs, states, n)))
  {
    hide IsRun, Undisturbed, Blind, InStepAt, AllLegal, ParserOk, Handles, Known, TellAll, PartsIn, PartsOf, AllUids;
    RunLength(env, inputs, states, outs);
    if n == 0 {
      NothingTold(all, inputs, outs, id);
      RunStarts(all, env, inputs, states, outs, id);
    } else {
      PartsNext(env, inputs, states, n);
      var a, b := PartsOf(env, inputs, states, n - 1), PartsIn(env, states[n - 1], inputs[n - 1]);
      TellConcat(all, env, id, UNTOLD, a, b);
      RunTold(all, env, inputs, states, outs, id, n - 1);
      B.RunPrefix(env, inputs, states, outs, n - 1);
      HandleTold(all, env, inputs, outs, id, n - 1, states[n - 1], states[n], AllUids(outs[..n - 1]), TellAll(all, env, id, UNTOLD, a));
    }
  }

  lemma RunStarts(all: bool, env: Env, inputs: seq<Input>, states: seq<Parser>, outs: seq<set<Result>>, id: nat)
    requires IsRun(env, inputs, states, outs)
    ensures states[0] == EMPTY && PartsOf(env, inputs, states, 0) == [] && TellAll(all, env, id, UNTOLD, []) == UNTOLD
  {
  }

  /** What is reported of a stream, its times aside, is told by the parts of the frames alone: in any two
      runs over the same parts, however they come together in events and whenever, the same is returned for
      it. Its response has one final status; its body and size are the same too if `all`, where no trailer
      describes a body. */
  lemma CutsDoNotShow(all: bool, env: Env, id: nat, inputs: seq<Input>, states: seq<Parser>, outs: seq<set<Result>>,
                      inputs': seq<Input>, states': seq<Parser>, outs': seq<set<Result>>)
    requires env.o.enabled && Blind(env) && IsRun(env, inputs, states, outs) && IsRun(env, inputs', states', outs')
    requires Undisturbed(inputs, outs, id) && Undisturbed(inputs', outs', id)
    requires PartsOf(env, inputs, states, |inputs|) == PartsOf(env, inputs', states', |inputs'|)
    requires AllLegal(all, env, id, UNTOLD, PartsOf(env, inputs, states, |inputs|))
    ensures Said(all, outs, id, |outs|) == Said(all, outs', id, |outs'|)
  {
    hide IsRun, Undisturbed, Blind, AllLegal, TellAll, PartsOf, Said, InStep, Known, GcTime;
    RunLength(env, inputs, states, outs);
    RunLength(env, inputs', states', outs');
    RunTold(all, env, inputs, states, outs, id, |inputs|);
    RunTold(all, env, inputs', states', outs', id, |inputs'|);
  }

  lemma RunLength(env: Env, inputs: seq<Input>, states: seq<Parser>, outs: seq<set<Result>>)
    requires IsRun(env, inputs, states, outs)
    ensures |states| == |inputs| + 1 && |outs| == |inputs|
  {
  }

  // ---------------------------------------------------------------------------
  // The parts of frames
  // ---------------------------------------------------------------------------

  /** What one side sent, event by event. */
  function Payloads(dir: Dir, inputs: seq<Input>): seq<bytes> {
    if inputs == [] then []
    else
      var i := inputs[|inputs| - 1];
      Payloads(dir, inputs[..|inputs| - 1]) + if i.Parse? && i.dir == dir then [i.payload] else []
  }

  function OfDir(dir: Dir, parts: seq<Part>): seq<F.Act> {
    if parts == [] then []
    else
      var p := parts[|parts| - 1];
      OfDir(dir, parts[..|parts| - 1]) + if p.dir == dir then [p.act] else []
  }

  lemma {:induction false} OfDirConcat(dir: Dir, a: seq<Part>, b: seq<Part>)
    ensures OfDir(dir, a + b) == OfDir(dir, a) + OfDir(dir, b)
  {
    if b == [] {
      assert a + b == a;
    } else {
      OfDirConcat(dir, a, b[..|b| - 1]);
      assert (a + b)[..|a + b| - 1] == a + b[..|b| - 1];
    }
  }

  lemma {:induction false} OfDirParts(dir: Dir, from: Dir, acts: seq<F.Act>)
    ensures OfDir(dir, Parts(from, acts)) == if from == dir then acts else []
  {
    if acts != [] {
      hide Parts;
      var n := |acts| - 1;
      PartsInit(from, acts);
      OfDirParts(dir, from, acts[..n]);
      assert acts == acts[..n] + [acts[n]];
    }
  }

  /** A call takes the frames of its side on, and leaves the other side's. */
  lemma FramesGoOn(env: Env, p: Parser, i: Input, q: Parser, out: set<Result>, dir: Dir)
    requires Handles(env, p, i, q, out) && F.Left(FrameState(p.frames, dir)) == FrameState(p.frames, dir)
    ensures FrameState(q.frames, dir) ==
      if i.Parse? && i.dir == dir then F.Framed(env.o.enabled, dir.Client?, FrameState(p.frames, dir), i.payload).0
      else FrameState(p.frames, dir)
  {
    hide F.Strip, ApplyAll, CompleteStreams, Reply, Gc, F.Feed;
    if i.Parse? && i.dir == dir && F.Strip(dir.Client?, i.payload) == [] {
      FeedNothing(env.o.enabled, FrameState(p.frames, dir));
    }
  }

  lemma FeedNothing(bodies: bool, st: F.State)
    ensures F.Feed(bodies, st, []) == (st, [])
  {
  }

  lemma LeftTwice(bodies: bool, client: bool, st: F.State, payload: bytes)
    ensures var t := F.Framed(bodies, client, st, payload).0; F.Left(t) == t
  {
    hide F.Feed;
  }

  /** The frames of a side so far, and their parts. */
  ghost predicate FramedTo(env: Env, dir: Dir, events: seq<bytes>, p: Parser, parts: seq<Part>) {
    var (st, acts) := F.FramedAll(env.o.enabled, dir.Client?, F.IDLE, events);
    FrameState(p.frames, dir) == st && F.Left(st) == st && OfDir(dir, parts) == acts
  }

  lemma FramedNext(env: Env, dir: Dir, events: seq<bytes>, p: Parser, parts: seq<Part>, i: Input, q: Parser, out: set<Result>)
    requires FramedTo(env, dir, events, p, parts) && Handles(env, p, i, q, out)
    ensures FramedTo(env, dir, events + (if i.Parse? && i.dir == dir then [i.payload] else []), q, parts + PartsIn(env, p, i))
  {
    FramesGoOn(env, p, i, q, out, dir);
    OfDirConcat(dir, parts, PartsIn(env, p, i));
    hide F.FramedAll, F.Framed, F.Left, Handles, OfDir, Parts;
    if i.Parse? {
      OfDirParts(dir, i.dir, F.Framed(env.o.enabled, i.dir.Client?, FrameState(p.frames, i.dir), i.payload).1);
    } else {
      NoneOfDir(dir);
    }
    if i.Parse? && i.dir == dir {
      F.FramedAllSnoc(env.o.enabled, dir.Client?, F.IDLE, events, i.payload);
      LeftTwice(env.o.enabled, dir.Client?, FrameState(p.frames, dir), i.payload);
    } else {
      assert events + [] == events && OfDir(dir, parts) + [] == OfDir(dir, parts);
    }
  }

  lemma NoneFramed(env: Env, dir: Dir, none: seq<Input>)
    requires none == []
    ensures FramedTo(env, dir, Payloads(dir, none), EMPTY, [])
  {
  }

  lemma PayloadsNext(dir: Dir, inputs: seq<Input>)
    requires inputs != []
    ensures var i := inputs[|inputs| - 1];
      Payloads(dir, inputs) == Payloads(dir, inputs[..|inputs| - 1]) + if i.Parse? && i.dir == dir then [i.payload] else []
  {
  }

  /** In every run, the parts of one side are those of its bytes framed event by event. */
  lemma {:induction false} PartsAreFramed(env: Env, inputs: seq<Input>, states: seq<Parser>, outs: seq<set<Result>>, dir: Dir, n: nat)
    requires IsRun(env, inputs, states, outs) && n <= |inputs|
    ensures FramedTo(env, dir, Payloads(dir, inputs[..n]), states[n], PartsOf(env, inputs, states, n))
  {
    hide IsRun, FramedTo, Handles, ParserOk, Known, PartsIn, PartsOf, Payloads, AllUids;
    RunLength(env, inputs, states, outs);
    RunStarts(true, env, inputs, states, outs, 0);
    if n == 0 {
      NoneFramed(env, dir, inputs[..0]);
    } else {
      PartsNext(env, inputs, states, n);
      PayloadsNext(dir, inputs[..n]);
      PartsAreFramed(env, inputs, states, outs, dir, n - 1);
      B.RunPrefix(env, inputs, states, outs, n - 1);
      assert inputs[..n][..n - 1] == inputs[..n - 1];
      FramedNext(env, dir, Payloads(dir, inputs[..n - 1]), states[n - 1], PartsOf(env, inputs, states, n - 1), inputs[n - 1], states[n],
                 outs[n - 1]);
    }
  }

  /** However the frames of one side are cut into events, as long as no event ends inside a long one, the
      run brings their parts, in order. */
  lemma EveryCutBringsTheParts(env: Env, inputs: seq<Input>, states: seq<Parser>, outs: seq<set<Result>>, dir: Dir, fs: seq<F.Frame>,
                               preface: bool, events: seq<bytes>)
    requires IsRun(env, inputs, states, outs) && |inputs| <= |states|
    requires F.AreEventsOf(dir.Client?, fs, events) && events != [] && F.NoneInLong(env.o.enabled, fs, events, |events|)
    requires preface ==> dir.Client?
    requires Payloads(dir, inputs) == if preface then [F.MAGIC + events[0]] + events[1..] else events
    ensures F.FramesOk(fs) && OfDir(dir, PartsOf(env, inputs, states, |inputs|)) == F.AllActs(env.o.enabled, fs)
  {
    hide IsRun, F.FramedAll, F.Left, F.NoneInLong, F.AllActs, OfDir, PartsOf, Payloads;
    PartsAreFramed(env, inputs, states, outs, dir, |inputs|);
    assert inputs[..|inputs|] == inputs;
    F.EveryCutFramesAlike(env.o.enabled, dir.Client?, fs, preface, events);
  }

  lemma NoneOfDir(dir: Dir)
    ensures OfDir(dir, []) == []
  {
  }
}
