/**
The walk of one buffer (http1_walk_impl in ebpftracer/ebpf/l7/http1.c): phases chased in rounds,
header bytes gathered and flushed in events, bodies stepped over in pieces. It is proved to be the
byte-by-byte automaton of Http1Kernel, so neither the pieces nor the buffers show in what is kept.
*/
module Http1Walk {
  import opened Bytes
  import opened Http1Kernel

  const PAYLOAD_MAX: nat := 1024
  const LOOP_MAX: nat := 0x10_0000
  const MAX_ROUNDS: nat := 30

  datatype Kind = ClientHeaders | ServerHeaders | ClientData | ServerData

  datatype Event = Event(kind: Kind, payload: bytes)

  function HeadersKind(isReq: bool): Kind {
    if isReq then ClientHeaders else ServerHeaders
  }

  function DataKind(isReq: bool): Kind {
    if isReq then ClientData else ServerData
  }

  /** What an event carries, in the automaton's terms. */
  function Tagged(e: Event): seq<Out> {
    if e.kind.ClientHeaders? || e.kind.ServerHeaders? then Hdrs(e.payload) else Bodies(e.payload)
  }

  ghost predicate OfDirection(isReq: bool, e: Event) {
    e.payload != [] && |e.payload| <= 1024 && (e.kind == HeadersKind(isReq) || e.kind == DataKind(isReq))
  }

  /** The walk's log: the events it sends and, between them, the ends of phases. */
  datatype Piece = Sent(e: Event) | PhaseEnd

  function Shown(p: Piece): seq<Out> {
    match p
    case Sent(e) => Tagged(e)
    case PhaseEnd => [End]
  }

  /** What a log says in the automaton's terms. No event spans the end of a phase. */
  function Flat(log: seq<Piece>): seq<Out> {
    if log == [] then [] else Flat(log[..|log| - 1]) + Shown(log[|log| - 1])
  }

  function Events(log: seq<Piece>): seq<Event> {
    if log == [] then []
    else Events(log[..|log| - 1]) + (match log[|log| - 1] case Sent(e) => [e] case PhaseEnd => [])
  }

  ghost predicate LogOk(isReq: bool, log: seq<Piece>) {
    forall i :: 0 <= i < |log| && log[i].Sent? ==> OfDirection(isReq, log[i].e)
  }

  predicate IsHeaderPiece(p: Piece) {
    p.Sent? && (p.e.kind.ClientHeaders? || p.e.kind.ServerHeaders?)
  }

  /** Header bytes are sent in full events: only the last event of a phase is shorter. */
  ghost predicate Packed(log: seq<Piece>) {
    forall i, j :: 0 <= i < j < |log| && j == i + 1 && IsHeaderPiece(log[i]) && IsHeaderPiece(log[j]) ==>
      |log[i].e.payload| == 1024
  }

  ghost predicate EndsPhase(log: seq<Piece>) {
    log != [] && log[|log| - 1] == PhaseEnd
  }

  lemma PackedConcat(a: seq<Piece>, b: seq<Piece>)
    requires Packed(a) && Packed(b) && (a == [] || EndsPhase(a))
    ensures Packed(a + b)
  {
  }

  lemma FlatSnoc(log: seq<Piece>, p: Piece)
    ensures Flat(log + [p]) == Flat(log) + Shown(p)
  {
    hide Shown;
    assert (log + [p])[..|log|] == log;
  }

  lemma FlatEmpty()
    ensures Flat([]) == []
  {
  }

  lemma FlatOne(p: Piece)
    ensures Flat([p]) == Shown(p)
  {
    assert [p][..0] == [];
    assert [] + Shown(p) == Shown(p);
  }

  lemma {:induction false} FlatConcat(a: seq<Piece>, b: seq<Piece>)
    ensures Flat(a + b) == Flat(a) + Flat(b)
  {
    hide Shown, Flat;
    if b == [] {
      FlatEmpty();
      assert a + b == a && Flat(a) + [] == Flat(a);
    } else {
      var b', p := b[..|b| - 1], b[|b| - 1];
      FlatConcat(a, b');
      FlatSnoc(a + b', p);
      FlatSnoc(b', p);
      assert a + b == (a + b') + [p] && b == b' + [p];
      assert (Flat(a) + Flat(b')) + Shown(p) == Flat(a) + (Flat(b') + Shown(p));
    }
  }

  /** The number of phases that end in `out`. */
  function Ends(out: seq<Out>): nat {
    if out == [] then 0 else Ends(out[..|out| - 1]) + (if out[|out| - 1] == End then 1 else 0)
  }

  lemma {:induction false} EndsConcat(x: seq<Out>, y: seq<Out>)
    ensures Ends(x + y) == Ends(x) + Ends(y)
  {
    if y == [] {
      assert x + y == x;
    } else {
      EndsConcat(x, y[..|y| - 1]);
      assert (x + y)[..|x + y| - 1] == x + y[..|y| - 1];
    }
  }

  lemma {:induction false} NoEnds(x: seq<Out>)
    requires forall i :: 0 <= i < |x| ==> x[i] != End
    ensures Ends(x) == 0
  {
    if x != [] { NoEnds(x[..|x| - 1]); }
  }

  /** The result of one phase over src[p0..p]: the automaton's state, its output as events, and
      whether the phase ended (as it must when bytes are left). */
  ghost predicate Walked(cfg: Config, w: Walk, src: bytes, p0: nat, w': Walk, p: nat, log: seq<Piece>, ended: bool) {
    && p0 <= p <= |src|
    && Feed(cfg, w, src[p0..p]) == (w', Flat(log))
    && LogOk(cfg.isReq, log)
    && Ends(Flat(log)) == (if ended then 1 else 0)
    && (p < |src| ==> ended)
    && LastEnds(cfg, w, src[p0..p], ended)
    && Packed(log) && (ended ==> EndsPhase(log))
  }

  /** A phase ends with the last byte walked. */
  ghost predicate LastEnds(cfg: Config, w: Walk, input: bytes, ended: bool) {
    ended ==> input != [] && Plain(Feed(cfg, w, input[..|input| - 1]).1)
  }

  ghost predicate Plain(out: seq<Out>) {
    forall i :: 0 <= i < |out| ==> out[i] != End
  }

  lemma FeedNext(cfg: Config, w: Walk, src: bytes, p0: nat, p: nat)
    requires p0 <= p < |src|
    ensures var r := Feed(cfg, w, src[p0..p]);
      var s := Step(cfg, r.0, src[p]);
      Feed(cfg, w, src[p0..p + 1]) == (s.0, r.1 + s.1)
  {
    hide Feed, Step;
    FeedSnoc(cfg, w, src[p0..p], src[p]);
    assert src[p0..p] + [src[p]] == src[p0..p + 1];
  }

  lemma EndsOfPlain(out: seq<Out>)
    requires Plain(out)
    ensures Ends(out) == 0 && Ends(out + [End]) == 1
  {
    NoEnds(out);
    EndsConcat(out, [End]);
    assert Ends([End]) == 1 by { assert [End][..0] == []; }
  }

  /** The scan of a header block so far: `log` is sent, `dst` is gathered for the next event. */
  ghost predicate Scanned(cfg: Config, w: Walk, input: bytes, sc: Scan, log: seq<Piece>, dst: bytes, ended: bool) {
    && Feed(cfg, w, input) == AfterScan(cfg, w, sc, Flat(log) + Hdrs(dst), ended)
    && LogOk(cfg.isReq, log) && Plain(Flat(log))
    && |dst| <= PAYLOAD_MAX
    && LastEnds(cfg, w, input, ended)
  }

  ghost predicate AllFull(log: seq<Piece>) {
    forall i :: 0 <= i < |log| ==> log[i].Sent? && |log[i].e.payload| == PAYLOAD_MAX
  }

  function AfterScan(cfg: Config, w: Walk, sc: Scan, out: seq<Out>, ended: bool): (Walk, seq<Out>) {
    var st := w.st.(scan := sc);
    if ended then (AfterHeaders(cfg, st, w.head), out + [End]) else (w.(st := st), out)
  }

  lemma ScanStart(cfg: Config, w: Walk)
    ensures Scanned(cfg, w, [], w.st.scan, [], [], false)
  {
    FeedEmpty(cfg, w);
    assert w.st.(scan := w.st.scan) == w.st && w.(st := w.st) == w;
    assert Flat([]) + Hdrs([]) == [];
  }

  lemma ScanFlush(cfg: Config, w: Walk, input: bytes, sc: Scan, log: seq<Piece>, dst: bytes, ended: bool)
    requires Scanned(cfg, w, input, sc, log, dst, ended) && dst != []
    ensures Scanned(cfg, w, input, sc, log + [Sent(Event(HeadersKind(cfg.isReq), dst))], [], ended)
  {
    var e := Event(HeadersKind(cfg.isReq), dst);
    FlatSnoc(log, Sent(e));
    assert Hdrs(dst) == Tagged(e);
    assert Flat(log + [Sent(e)]) + Hdrs([]) == Flat(log) + Hdrs(dst);
  }

  lemma HeaderStep(cfg: Config, w: Walk, sc: Scan, b: byte)
    requires w.st.phase.Headers? || w.st.phase.ChunkTrailer?
    ensures Step(cfg, w.(st := w.st.(scan := sc)), b) ==
      AfterScan(cfg, w, ScanByte(sc, b), if sc.captured < CAPTURE_MAX then Hdrs([b]) else [], EndsHeaders(sc.tail, b))
  {
    assert Hdrs([b]) == [Hdr(b)];
  }

  lemma ScanNext(cfg: Config, w: Walk, input: bytes, b: byte, sc: Scan, log: seq<Piece>, dst: bytes)
    requires w.st.phase.Headers? || w.st.phase.ChunkTrailer?
    requires Scanned(cfg, w, input, sc, log, dst, false) && (sc.captured < CAPTURE_MAX ==> |dst| < PAYLOAD_MAX)
    ensures var dst' := if sc.captured < CAPTURE_MAX then dst + [b] else dst;
      Scanned(cfg, w, input + [b], ScanByte(sc, b), log, dst', EndsHeaders(sc.tail, b))
  {
    hide Feed, Step, ScanByte, AfterHeaders, Flat;
    FeedSnoc(cfg, w, input, b);
    assert (input + [b])[..|input|] == input;
    HeaderStep(cfg, w, sc, b);
    var out := Flat(log) + Hdrs(dst);
    var more := if sc.captured < CAPTURE_MAX then Hdrs([b]) else [];
    assert out + (more + [End]) == (out + more) + [End];
    assert out + more == Flat(log) + Hdrs(if sc.captured < CAPTURE_MAX then dst + [b] else dst);
  }

  lemma ScanEnd(cfg: Config, w: Walk, input: bytes, sc: Scan, log: seq<Piece>, ended: bool)
    requires Scanned(cfg, w, input, sc, log, [], ended)
    ensures var log' := if ended then log + [PhaseEnd] else log;
      && Feed(cfg, w, input) == (AfterScan(cfg, w, sc, [], ended).0, Flat(log'))
      && LogOk(cfg.isReq, log') && Ends(Flat(log')) == (if ended then 1 else 0)
      && LastEnds(cfg, w, input, ended)
  {
    FlatSnoc(log, PhaseEnd);
    assert Flat(log) + Hdrs([]) == Flat(log);
    EndsOfPlain(Flat(log));
  }

  /** http1_hdr_scan_cb over the buffer: a header block or a chunked trailer, from src[p0] on. */
  method ScanHeaders(cfg: Config, w: Walk, src: bytes, p0: nat)
    returns (w': Walk, p: nat, log: seq<Piece>, ended: bool)
    requires p0 <= |src| <= LOOP_MAX
    requires w.st.phase.Headers? || w.st.phase.ChunkTrailer?
    ensures Walked(cfg, w, src, p0, w', p, log, ended)
  {
    hide Scanned, Feed, Flat, Ends, ScanByte;
    var sc, dst: bytes, i := w.st.scan, [], 0;
    p, log, ended := p0, [], false;
    ScanStart(cfg, w);
    assert src[p0..p] == [];
    while i < LOOP_MAX && p < |src| && !ended
      invariant p0 <= p <= |src| && i == p - p0
      invariant Scanned(cfg, w, src[p0..p], sc, log, dst, ended) && AllFull(log) && |dst| <= PAYLOAD_MAX
    {
      var b := src[p];
      ended := EndsHeaders(sc.tail, b);
      if |dst| >= PAYLOAD_MAX && sc.captured < CAPTURE_MAX {
        ScanFlush(cfg, w, src[p0..p], sc, log, dst, false);
        log, dst := log + [Sent(Event(HeadersKind(cfg.isReq), dst))], [];
      }
      ScanNext(cfg, w, src[p0..p], b, sc, log, dst);
      assert src[p0..p] + [b] == src[p0..p + 1];
      if sc.captured < CAPTURE_MAX {
        dst := dst + [b];
      }
      sc := ScanByte(sc, b);
      p, i := p + 1, i + 1;
    }
    w', log := FinishScan(cfg, w, src[p0..p], sc, log, dst, ended);
  }

  /** The end of a header block or trailer in http1_walk_impl: the matchers are set back, the entry in
      http1_head_requests is made, used or dropped, and the phase that follows is chosen. */
  method EndHeaders(cfg: Config, st: State, head: bool) returns (w: Walk)
    ensures w == AfterHeaders(cfg, st, head)
  {
    var sc := st.scan;
    var length := sc.length.(pos := 0, mismatch := false, inValue := false, have := false);
    var encoding := sc.encoding.(pos := 0, mismatch := false, inValue := false, valuePos := 0);
    var headRequest, headResponse := head, false;
    var isTrailer := st.phase.ChunkTrailer?;
    if !isTrailer {
      if cfg.isReq {
        headRequest := sc.first.wordLen == 4 && !sc.first.notHead;
      } else if headRequest {
        headResponse, headRequest := true, false;
      }
    }
    var sv := st;
    if isTrailer || (!cfg.isReq && (headResponse || StatusHasNoBody(sc.first.code))) {
      encoding, length := encoding.(chunked := false), length.(value := 0);
      sv := sv.(phase := Headers, captured := 0);
    } else if encoding.chunked {
      length := length.(value := 0);
      sv := sv.(phase := ChunkSize, remaining := 0, sawCr := false, inExt := false, captured := 0);
    } else {
      var n := if sc.length.have then sc.length.value else if cfg.isReq then 0 else LEN_UNKNOWN;
      sv := sv.(phase := Data, remaining := n, captured := 0);
      if sv.remaining == 0 {
        sv := sv.(phase := Headers);
      }
      encoding, length := encoding.(chunked := false), length.(value := 0);
    }
    w := Walk(sv.(scan := Scan(length, encoding, FIRST0, sc.tail, 0)), headRequest);
  }

  /** What http1_walk_impl does when the scan of the buffer stops: flush, and move on if the block ended. */
  method FinishScan(cfg: Config, w: Walk, ghost input: bytes, sc: Scan, sent: seq<Piece>, dst: bytes, ended: bool)
    returns (w': Walk, log: seq<Piece>)
    requires Scanned(cfg, w, input, sc, sent, dst, ended) && AllFull(sent)
    ensures Feed(cfg, w, input) == (w', Flat(log)) && Packed(log) && (ended ==> EndsPhase(log))
    ensures LogOk(cfg.isReq, log) && Ends(Flat(log)) == (if ended then 1 else 0) && LastEnds(cfg, w, input, ended)
  {
    log := sent;
    if dst != [] {
      ScanFlush(cfg, w, input, sc, log, dst, ended);
      log := log + [Sent(Event(HeadersKind(cfg.isReq), dst))];
    }
    ScanEnd(cfg, w, input, sc, log, ended);
    var st := w.st.(scan := sc);
    if ended {
      log := log + [PhaseEnd];
      w' := EndHeaders(cfg, st, w.head);
    } else {
      w' := w.(st := st);
    }
  }

  // ---------------------------------------------------------------------------
  // Bodies
  // ---------------------------------------------------------------------------

  ghost predicate NoHeaders(log: seq<Piece>) {
    forall i :: 0 <= i < |log| ==> !IsHeaderPiece(log[i])
  }

  /** http1_body_step: as much of the body as this buffer holds, at most one event of it while the
      capture budget lasts. */
  method BodyStep(cfg: Config, st: State, src: bytes, p: nat) returns (n: nat, st': State, log: seq<Piece>)
    requires p < |src| && Ok(st) && (st.phase.Data? || st.phase.ChunkData?)
    ensures 0 < n <= |src| - p && InBody(cfg, st, n) && st' == Payload(cfg, st, n)
    ensures Flat(log) == Captured(cfg, st, src[p..p + n]) && LogOk(cfg.isReq, log) && NoHeaders(log)
  {
    hide Flat;
    var spent := if cfg.skip then CAPTURE_MAX else st.captured;
    n, log := |src| - p, [];
    FlatEmpty();
    if st.remaining != LEN_UNKNOWN && st.remaining < n {
      n := st.remaining;
    }
    if spent < CAPTURE_MAX {
      if n > CAPTURE_MAX - spent {
        n := CAPTURE_MAX - spent;
      }
      if n > PAYLOAD_MAX {
        n := PAYLOAD_MAX;
      }
      var e := Event(DataKind(cfg.isReq), src[p..p + n]);
      log := [Sent(e)];
      FlatOne(Sent(e));
      spent := spent + n;
    }
    st' := st.(captured := spent, remaining := if st.remaining == LEN_UNKNOWN then LEN_UNKNOWN else st.remaining - n);
  }

  /** After a body step: the automaton has walked the same bytes. */
  lemma BodyStepped(cfg: Config, w: Walk, walked: bytes, st: State, out: seq<Out>, d: bytes)
    requires Feed(cfg, w, walked) == (w.(st := st), out)
    requires d != [] && st.remaining > 0 && InBody(cfg, st, |d|)
    ensures Feed(cfg, w, walked + d) == Settle(w, Payload(cfg, st, |d|), out + Captured(cfg, st, d))
    ensures Plain(out) ==> Plain(Feed(cfg, w, (walked + d)[..|walked| + |d| - 1]).1)
  {
    var init := d[..|d| - 1];
    assert (walked + d)[..|walked| + |d| - 1] == walked + init;
    if init == [] {
      assert walked + init == walked;
    } else {
      BodyStepped(cfg, w, walked, st, out, init);
    }
    hide Feed, Step;
    FeedConcat(cfg, w, walked, d);
    FeedPayload(cfg, w.(st := st), d);
    SettleAfter(w, st, Payload(cfg, st, |d|), out, Captured(cfg, st, d));
  }

  lemma SettleAfter(w: Walk, st: State, t: State, out: seq<Out>, more: seq<Out>)
    ensures var r := Settle(w.(st := st), t, more);
      (r.0, out + r.1) == Settle(w, t, out + more)
  {
    assert (out + more) + BodyDone(t).1 == out + (more + BodyDone(t).1);
  }

  lemma PayloadKeepsOk(cfg: Config, st: State, n: nat)
    requires Ok(st) && InBody(cfg, st, n) && Payload(cfg, st, n).remaining > 0
    ensures Ok(Payload(cfg, st, n))
  {
  }

  lemma PlainCaptured(cfg: Config, st: State, d: bytes)
    ensures Plain(Captured(cfg, st, d))
  {
  }

  /** http1_body_walk_cb over the buffer: a body of known or unknown length. */
  method WalkBody(cfg: Config, w: Walk, src: bytes, p0: nat)
    returns (w': Walk, p: nat, log: seq<Piece>, ended: bool)
    requires p0 < |src| <= LOOP_MAX && Ok(w.st) && w.st.phase.Data?
    ensures Walked(cfg, w, src, p0, w', p, log, ended)
  {
    hide Feed, Flat, Ends;
    var st, i := w.st, 0;
    p, log := p0, [];
    FeedEmpty(cfg, w);
    FlatEmpty();
    assert src[p0..p] == [] && w.(st := st) == w;
    while i < LOOP_MAX && p < |src| && st.remaining != 0
      invariant p0 <= p <= |src| && 0 <= i <= p - p0
      invariant st.phase.Data? && (st.remaining > 0 ==> Ok(st))
      invariant Feed(cfg, w, src[p0..p]) == Settle(w, st, Flat(log))
      invariant LogOk(cfg.isReq, log) && NoHeaders(log) && Plain(Flat(log)) && LastEnds(cfg, w, src[p0..p], st.remaining == 0)
      decreases |src| - p
    {
      var n, next, more := BodyStep(cfg, st, src, p);
      BodyStepped(cfg, w, src[p0..p], st, Flat(log), src[p..p + n]);
      assert src[p0..p] + src[p..p + n] == src[p0..p + n];
      if next.remaining > 0 { PayloadKeepsOk(cfg, st, n); }
      PlainCaptured(cfg, st, src[p..p + n]);
      FlatConcat(log, more);
      st, log, p, i := next, log + more, p + n, i + 1;
    }
    EndsOfPlain(Flat(log));
    ended := st.remaining == 0;
    if ended {
      FlatSnoc(log, PhaseEnd);
      log := log + [PhaseEnd];
      st := st.(phase := Headers, captured := 0);
    }
    w' := w.(st := st);
  }

  lemma FramingStep(cfg: Config, w: Walk, st: State, b: byte)
    requires Ok(st) && (st.phase.ChunkSize? || st.phase.ChunkCrlf?)
    ensures var (t, out) := FramingByte(cfg, st, b);
      && Step(cfg, w.(st := st), b) == (w.(st := t), out)
      && out == (if t.phase.ChunkTrailer? then [End] else [])
      && Ok(t) && (t.phase.ChunkTrailer? || t.phase.ChunkSize? || t.phase.ChunkData? || t.phase.ChunkCrlf?)
  {
    BodyByteKeepsOk(cfg, st, b);
  }

  lemma ChunkDone(cfg: Config, w: Walk, st: State, n: nat, out: seq<Out>)
    requires Ok(st) && st.phase.ChunkData? && InBody(cfg, st, n)
    ensures var t := Payload(cfg, st, n);
      var u := if t.remaining == 0 then t.(phase := ChunkCrlf, crlf := 0) else t;
      Settle(w, t, out) == (w.(st := u), out) && Ok(u)
  {
    assert out + [] == out;
  }

  /** http1_chunks_walk_cb over the buffer: the framing of a chunked body, however many chunks it holds. */
  method WalkChunks(cfg: Config, w: Walk, src: bytes, p0: nat)
    returns (w': Walk, p: nat, log: seq<Piece>, ended: bool)
    requires p0 < |src| <= LOOP_MAX && Ok(w.st)
    requires w.st.phase.ChunkSize? || w.st.phase.ChunkData? || w.st.phase.ChunkCrlf?
    ensures Walked(cfg, w, src, p0, w', p, log, ended)
  {
    hide Feed, Flat, Ends;
    var st, i := w.st, 0;
    p, log := p0, [];
    FeedEmpty(cfg, w);
    FlatEmpty();
    assert src[p0..p] == [] && w.(st := st) == w;
    while i < LOOP_MAX && p < |src| && !st.phase.ChunkTrailer?
      invariant p0 <= p <= |src| && 0 <= i <= p - p0 && Ok(st)
      invariant st.phase.ChunkSize? || st.phase.ChunkData? || st.phase.ChunkCrlf? || st.phase.ChunkTrailer?
      invariant LogOk(cfg.isReq, log) && NoHeaders(log) && Plain(Flat(log)) && LastEnds(cfg, w, src[p0..p], st.phase.ChunkTrailer?)
      invariant Feed(cfg, w, src[p0..p]) == (w.(st := st), if st.phase.ChunkTrailer? then Flat(log) + [End] else Flat(log))
      decreases |src| - p
    {
      if st.phase.ChunkData? {
        var n, next, more := BodyStep(cfg, st, src, p);
        BodyStepped(cfg, w, src[p0..p], st, Flat(log), src[p..p + n]);
        assert src[p0..p] + src[p..p + n] == src[p0..p + n];
        PlainCaptured(cfg, st, src[p..p + n]);
        FlatConcat(log, more);
        ChunkDone(cfg, w, st, n, Flat(log + more));
        st, log, p := next, log + more, p + n;
        if st.remaining == 0 {
          st := st.(phase := ChunkCrlf, crlf := 0);
        }
      } else {
        FeedNext(cfg, w, src, p0, p);
        assert src[p0..p + 1][..p - p0] == src[p0..p];
        FramingStep(cfg, w, st, src[p]);
        assert Flat(log) + [] == Flat(log);
        st, p := FramingByte(cfg, st, src[p]).0, p + 1;
      }
      i := i + 1;
    }
    EndsOfPlain(Flat(log));
    ended := st.phase.ChunkTrailer?;
    if ended {
      FlatSnoc(log, PhaseEnd);
      log := log + [PhaseEnd];
    }
    w' := w.(st := st);
  }

  // ---------------------------------------------------------------------------
  // The buffer
  // ---------------------------------------------------------------------------

  /** One round of http1_walk_impl: the phase the walk is in. */
  method WalkPhase(cfg: Config, w: Walk, src: bytes, p0: nat)
    returns (w': Walk, p: nat, log: seq<Piece>, ended: bool)
    requires p0 < |src| <= LOOP_MAX && Ok(w.st)
    ensures Walked(cfg, w, src, p0, w', p, log, ended)
  {
    if w.st.phase.Headers? || w.st.phase.ChunkTrailer? {
      w', p, log, ended := ScanHeaders(cfg, w, src, p0);
    } else if w.st.phase.Data? {
      w', p, log, ended := WalkBody(cfg, w, src, p0);
    } else {
      w', p, log, ended := WalkChunks(cfg, w, src, p0);
    }
  }

  /** A buffer needs no more rounds than there are: at most 30 phases end before its last byte. */
  ghost predicate RoundsSuffice(cfg: Config, w: Walk, buf: bytes)
    requires buf != []
  {
    Ends(Feed(cfg, w, buf[..|buf| - 1]).1) <= 30
  }

  /** What is known after `rounds` rounds over buf[..p], of which the last ended if `ended`. */
  ghost predicate RoundsDone(cfg: Config, w: Walk, buf: bytes, w': Walk, p: nat, log: seq<Piece>, rounds: nat, ended: bool) {
    && p <= |buf|
    && Feed(cfg, w, buf[..p]) == (w', Flat(log))
    && LogOk(cfg.isReq, log) && Packed(log) && (ended ==> EndsPhase(log))
    && Ends(Flat(log)) == rounds + (if ended then 1 else 0)
    && (p > 0 ==> Ends(Feed(cfg, w, buf[..p - 1]).1) == rounds)
    && (p < |buf| ==> ended)
  }

  lemma OneMoreRound(cfg: Config, w: Walk, buf: bytes, w1: Walk, p: nat, log: seq<Piece>, rounds: nat,
                     w2: Walk, q: nat, more: seq<Piece>, ended: bool)
    requires p < |buf| && Feed(cfg, w, buf[..p]) == (w1, Flat(log)) && LogOk(cfg.isReq, log)
    requires Packed(log) && (log == [] || EndsPhase(log))
    requires Ends(Flat(log)) == rounds && Walked(cfg, w1, buf, p, w2, q, more, ended) && p < q
    ensures RoundsDone(cfg, w, buf, w2, q, log + more, rounds, ended)
  {
    hide Feed, Flat, Ends;
    FeedConcat(cfg, w, buf[..p], buf[p..q]);
    assert buf[..p] + buf[p..q] == buf[..q];
    FlatConcat(log, more);
    EndsConcat(Flat(log), Flat(more));
    var init := buf[p..q][..q - p - 1];
    FeedConcat(cfg, w, buf[..p], init);
    assert buf[..p] + init == buf[..q - 1];
    var out := Feed(cfg, w1, init).1;
    EndsConcat(Flat(log), out);
    PackedConcat(log, more);
    PhaseEndsLate(cfg, w1, buf[p..q], ended);
  }

  lemma PhaseEndsLate(cfg: Config, w: Walk, input: bytes, ended: bool)
    requires input != [] && LastEnds(cfg, w, input, ended) && Ends(Feed(cfg, w, input).1) == if ended then 1 else 0
    ensures Ends(Feed(cfg, w, input[..|input| - 1]).1) == 0
  {
    hide Feed, Step, Ends;
    var init := input[..|input| - 1];
    if ended {
      NoEnds(Feed(cfg, w, init).1);
    } else {
      FeedSnoc(cfg, w, init, input[|input| - 1]);
      assert init + [input[|input| - 1]] == input;
      EndsConcat(Feed(cfg, w, init).1, Step(cfg, Feed(cfg, w, init).0, input[|input| - 1]).1);
    }
  }

  lemma WalkedAdvances(cfg: Config, w: Walk, src: bytes, p0: nat, w': Walk, p: nat, log: seq<Piece>, ended: bool)
    requires Walked(cfg, w, src, p0, w', p, log, ended) && p0 < |src|
    ensures p0 < p
  {
  }

  /** The end of a shorter walk is in the longer one. */
  lemma EndsMonotone(cfg: Config, w: Walk, buf: bytes, p: nat, q: nat)
    requires p <= q <= |buf|
    ensures Ends(Feed(cfg, w, buf[..p]).1) <= Ends(Feed(cfg, w, buf[..q]).1)
  {
    hide Feed, Ends;
    FeedConcat(cfg, w, buf[..p], buf[p..q]);
    assert buf[..p] + buf[p..q] == buf[..q];
    EndsConcat(Feed(cfg, w, buf[..p]).1, Feed(cfg, Feed(cfg, w, buf[..p]).0, buf[p..q]).1);
  }

  lemma StoppedWhereRoundsTell(cfg: Config, w: Walk, buf: bytes, w': Walk, p: nat, log: seq<Piece>, rounds: nat, ended: bool)
    requires buf != [] && 0 < p && RoundsDone(cfg, w, buf, w', p, log, rounds, ended)
    requires rounds <= MAX_ROUNDS && (p == |buf| || rounds == MAX_ROUNDS)
    ensures p == |buf| <==> RoundsSuffice(cfg, w, buf)
  {
    hide Feed;
    if p < |buf| { EndsMonotone(cfg, w, buf, p, |buf| - 1); }
  }

  /** The kernel side of one connection: the http1_state entries of its two directions and its entry
      in http1_head_requests. */
  class Walker {
    const skip: bool
    var req: State
    var resp: State
    var head: bool

    constructor (skip: bool)
      ensures Valid() && this.skip == skip && req == INITIAL && resp == INITIAL && !head
    {
      this.skip := skip;
      req, resp, head := INITIAL, INITIAL, false;
    }

    ghost predicate Valid()
      reads this
    {
      Ok(req) && Ok(resp)
    }

    function Cfg(isReq: bool): Config {
      Config(isReq, skip)
    }

    function Direction(isReq: bool): Walk
      reads this
    {
      Walk(if isReq then req else resp, head)
    }

    /** The walk of one buffer of one direction. `n` of its bytes are walked: all of them, unless
        they take more rounds than there are. */
    method WalkBuffer(isReq: bool, buf: bytes) returns (log: seq<Piece>, n: nat)
      requires Valid() && 0 < |buf| <= 0x10_0000
      modifies this
      ensures Valid() && n <= |buf| && LogOk(isReq, log) && Packed(log)
      ensures (if isReq then resp else req) == old(if isReq then resp else req)
      ensures (Direction(isReq), Flat(log)) == Feed(Cfg(isReq), old(Direction(isReq)), buf[..n])
      ensures n == |buf| <==> RoundsSuffice(Cfg(isReq), old(Direction(isReq)), buf)
    {
      hide Feed, Flat, Ends;
      var cfg := Cfg(isReq);
      ghost var w0 := Direction(isReq);
      var round := 0;
      var w, p, ended := Direction(isReq), 0, false;
      w, p, log, ended := WalkPhase(cfg, w, buf, 0);
      WalkedAdvances(cfg, w0, buf, 0, w, p, log, ended);
      FeedEmpty(cfg, w0);
      FlatEmpty();
      NoEnds([]);
      assert buf[..0] == [] && [] + log == log;
      OneMoreRound(cfg, w0, buf, w0, 0, [], 0, w, p, log, ended);
      while ended && p < |buf| && round < MAX_ROUNDS
        invariant 0 < p <= |buf| && round <= MAX_ROUNDS
        invariant RoundsDone(cfg, w0, buf, w, p, log, round, ended)
        invariant Valid() && req == old(req) && resp == old(resp)
        decreases |buf| - p
      {
        FeedKeepsOk(cfg, w0, buf[..p]);
        var w', p', more, ended' := WalkPhase(cfg, w, buf, p);
        WalkedAdvances(cfg, w, buf, p, w', p', more, ended');
        OneMoreRound(cfg, w0, buf, w, p, log, round + 1, w', p', more, ended');
        w, p, log, ended, round := w', p', log + more, ended', round + 1;
      }
      StoppedWhereRoundsTell(cfg, w0, buf, w, p, log, round, ended);
      FeedKeepsOk(cfg, w0, buf[..p]);
      n := p;
      head := w.head;
      if isReq {
        req := w.st;
      } else {
        resp := w.st;
      }
    }
  }
}
