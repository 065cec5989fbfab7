/**
What the kernel side of the HTTP/1 capture (ebpftracer/ebpf/l7/http1.c) does with one byte of one
direction of a connection. The fields of `State` are those of struct http1_state_val, grouped by the
matcher they belong to.
*/
module Http1Kernel {
  import opened Bytes
  import opened Transducer

  const CAPTURE_MAX: nat := 4096
  const LEN_UNKNOWN: nat := 0xFFFF_FFFF_FFFF_FFFF

  datatype Phase = Headers | Data | ChunkSize | ChunkData | ChunkCrlf | ChunkTrailer

  /** The Content-Length matcher: line_pos, line_mismatch, in_value, have_content_length, content_length. */
  datatype Length = Length(pos: nat, mismatch: bool, inValue: bool, have: bool, value: nat)

  /** The Transfer-Encoding matcher: te_line_pos, te_line_mismatch, te_in_value, te_value_pos, chunked. */
  datatype Encoding = Encoding(pos: nat, mismatch: bool, inValue: bool, valuePos: nat, chunked: bool)

  /** The first line: status_line_done, status_space_seen, status_digits, status_code, first_word_len, not_head. */
  datatype FirstLine = FirstLine(done: bool, space: bool, digits: nat, code: nat, wordLen: nat, notHead: bool)

  /** `tail` is tail[0..tail_len], the last bytes scanned, at most three. */
  datatype Scan = Scan(length: Length, encoding: Encoding, first: FirstLine, tail: bytes, captured: nat)

  datatype State = State(phase: Phase, scan: Scan, remaining: nat, captured: nat, sawCr: bool, inExt: bool, crlf: nat)

  const LENGTH0 := Length(0, false, false, false, 0)
  const ENCODING0 := Encoding(0, false, false, 0, false)
  const FIRST0 := FirstLine(false, false, 0, 0, 0, false)

  function Fresh(tail: bytes): Scan {
    Scan(LENGTH0, ENCODING0, FIRST0, tail, 0)
  }

  /** No http1_state entry yet. */
  const INITIAL := State(Headers, Fresh([]), LEN_UNKNOWN, 0, false, false, 0)

  /** `isReq`: the request direction; `skip`: the bodies are captured elsewhere (skip_bodies). */
  datatype Config = Config(isReq: bool, skip: bool)

  /** What a byte adds to the output: itself, captured as header or as body, and the end of a phase. */
  datatype Out = Hdr(b: byte) | Body(b: byte) | End

  /** One direction of a connection as the kernel remembers it. `head` is the entry of the connection
      in http1_head_requests: its request waiting for a response is a HEAD. */
  datatype Walk = Walk(st: State, head: bool)

  ghost predicate Ok(st: State) {
    && |st.scan.tail| <= 3
    && st.scan.captured <= CAPTURE_MAX && st.captured <= CAPTURE_MAX
    && st.remaining <= LEN_UNKNOWN && st.scan.length.value < LEN_UNKNOWN
    && (st.phase.Data? || st.phase.ChunkData? ==> st.remaining > 0)
    && st.crlf <= 2 && (st.phase.ChunkCrlf? ==> st.crlf < 2)
  }

  // ---------------------------------------------------------------------------
  // Header blocks: http1_hdr_scan_cb
  // ---------------------------------------------------------------------------

  const LENGTH_NAME := Ascii("content-length:")
  const ENCODING_NAME := Ascii("transfer-encoding:")
  const CHUNKED := Ascii("chunked")
  const HEAD := Ascii("HEAD")

  function LengthByte(l: Length, b: byte): Length {
    var m :=
      if l.have then l
      else if !l.mismatch && l.pos < |LENGTH_NAME| then
        if Lower(b) == LENGTH_NAME[l.pos] then l.(pos := l.pos + 1, inValue := l.inValue || l.pos + 1 == |LENGTH_NAME|)
        else l.(mismatch := true)
      else if l.inValue then
        if b == SP || b == TAB then l
        else if IsDigit(b) then
          if l.value < (LEN_UNKNOWN - 9) / 10 then l.(value := l.value * 10 + (b - 48)) else l
        else l.(have := true, inValue := false)
      else l;
    if b == LF then m.(pos := 0, mismatch := false) else m
  }

  function EncodingByte(e: Encoding, b: byte): Encoding {
    var m :=
      if e.chunked then e
      else if !e.mismatch && e.pos < |ENCODING_NAME| then
        if Lower(b) == ENCODING_NAME[e.pos] then e.(pos := e.pos + 1, inValue := e.inValue || e.pos + 1 == |ENCODING_NAME|)
        else e.(mismatch := true)
      else if e.inValue then
        if b == SP || b == TAB then e
        else if e.valuePos < |CHUNKED| && Lower(b) == CHUNKED[e.valuePos] then
          if e.valuePos + 1 == |CHUNKED| then e.(valuePos := e.valuePos + 1, chunked := true, inValue := false)
          else e.(valuePos := e.valuePos + 1)
        else e.(inValue := false)
      else e;
    if b == LF then m.(pos := 0, mismatch := false, valuePos := 0) else m
  }

  function FirstLineByte(f: FirstLine, b: byte): FirstLine {
    if f.done then f
    else if b == LF then f.(done := true)
    else if !f.space then
      if b == SP then f.(space := true)
      else f.(notHead := f.notHead || f.wordLen >= 4 || b != HEAD[f.wordLen],
              wordLen := if f.wordLen < 0xff then f.wordLen + 1 else f.wordLen)
    else if f.digits < 3 && IsDigit(b) then f.(code := f.code * 10 + (b - 48), digits := f.digits + 1)
    else f
  }

  function Push(tail: bytes, b: byte): bytes {
    if |tail| < 3 then tail + [b] else tail[1..] + [b]
  }

  function ScanByte(sc: Scan, b: byte): Scan {
    Scan(LengthByte(sc.length, b), EncodingByte(sc.encoding, b), FirstLineByte(sc.first, b), Push(sc.tail, b),
         if sc.captured < CAPTURE_MAX then sc.captured + 1 else sc.captured)
  }

  predicate EndsHeaders(tail: bytes, b: byte) {
    tail == [CR, LF, CR] && b == LF
  }

  predicate StatusHasNoBody(code: nat) {
    100 <= code < 200 || code == 204 || code == 304
  }

  /** What follows the end of a header block. */
  function AfterHeaders(cfg: Config, st: State, head: bool): Walk {
    var sc := st.scan;
    var base := st.(scan := Fresh(sc.tail), captured := 0);
    if st.phase.ChunkTrailer? then Walk(base.(phase := Headers), head)
    else
      var head' := cfg.isReq && sc.first.wordLen == 4 && !sc.first.notHead;
      if !cfg.isReq && (head || StatusHasNoBody(sc.first.code)) then Walk(base.(phase := Headers), head')
      else if sc.encoding.chunked then
        Walk(base.(phase := ChunkSize, remaining := 0, sawCr := false, inExt := false,
                   scan := base.scan.(encoding := ENCODING0.(chunked := true))), head')
      else
        var n := if sc.length.have then sc.length.value else if cfg.isReq then 0 else LEN_UNKNOWN;
        Walk(base.(phase := if n == 0 then Headers else Data, remaining := n), head')
  }

  function HeaderByte(cfg: Config, w: Walk, b: byte): (Walk, seq<Out>) {
    var out := if w.st.scan.captured < CAPTURE_MAX then [Hdr(b)] else [];
    var scanned := w.st.(scan := ScanByte(w.st.scan, b));
    if EndsHeaders(w.st.scan.tail, b) then (AfterHeaders(cfg, scanned, w.head), out + [End])
    else (w.(st := scanned), out)
  }

  // ---------------------------------------------------------------------------
  // Bodies: http1_body_walk_cb, http1_chunks_walk_cb
  // ---------------------------------------------------------------------------

  function Spent(cfg: Config, st: State): nat {
    if cfg.skip then CAPTURE_MAX else st.captured
  }

  function Less(remaining: nat): nat {
    if remaining == LEN_UNKNOWN || remaining == 0 then remaining else remaining - 1
  }

  /** One byte of a body or of a chunk's data, captured while the budget lasts. */
  function BodyByte(cfg: Config, st: State, b: byte): (State, seq<Out>) {
    var spent := Spent(cfg, st);
    if spent < CAPTURE_MAX then (st.(captured := spent + 1, remaining := Less(st.remaining)), [Body(b)])
    else (st.(captured := spent, remaining := Less(st.remaining)), [])
  }

  function HexValue(b: byte): int {
    if IsDigit(b) then b - 48
    else if 97 <= b <= 102 then b - 97 + 10
    else if 65 <= b <= 70 then b - 65 + 10
    else -1
  }

  /** One byte of a chunk-size line. */
  function SizeByte(st: State, b: byte): (State, seq<Out>) {
    if st.sawCr && b == LF then
      if st.remaining == 0 then (st.(phase := ChunkTrailer), [End]) else (st.(phase := ChunkData), [])
    else if b == CR then (st.(sawCr := true), [])
    else
      var s := st.(sawCr := false);
      if s.inExt then (s, [])
      else if HexValue(b) >= 0 then
        (if s.remaining < LEN_UNKNOWN / 16 then s.(remaining := s.remaining * 16 + HexValue(b)) else s, [])
      else if b == SEMICOLON then (s.(inExt := true), [])
      else (s, [])
  }

  /** What follows the last byte of a body or of a chunk's data. */
  function BodyDone(st: State): (State, seq<Out>) {
    if st.phase.Data? then (st.(phase := Headers, captured := 0), [End])
    else (st.(phase := ChunkCrlf, crlf := 0), [])
  }

  function PayloadByte(cfg: Config, st: State, b: byte): (State, seq<Out>) {
    var (t, out) := BodyByte(cfg, st, b);
    if t.remaining == 0 then
      var (u, end) := BodyDone(t);
      (u, out + end)
    else (t, out)
  }

  /** One byte of the framing of a chunked body. */
  function FramingByte(cfg: Config, st: State, b: byte): (State, seq<Out>) {
    var s := st.(captured := Spent(cfg, st));
    if s.phase.ChunkCrlf? then
      (if s.crlf + 1 == 2 then s.(phase := ChunkSize, crlf := 2, remaining := 0, sawCr := false, inExt := false)
       else s.(crlf := s.crlf + 1), [])
    else SizeByte(s, b)
  }

  // ---------------------------------------------------------------------------
  // The automaton
  // ---------------------------------------------------------------------------

  function Step(cfg: Config, w: Walk, b: byte): (Walk, seq<Out>) {
    if w.st.phase.Headers? || w.st.phase.ChunkTrailer? then HeaderByte(cfg, w, b)
    else
      var (t, out) :=
        if w.st.phase.Data? || w.st.phase.ChunkData? then PayloadByte(cfg, w.st, b) else FramingByte(cfg, w.st, b);
      (w.(st := t), out)
  }

  function Stepper(cfg: Config): (Walk, byte) -> (Walk, seq<Out>) {
    (w: Walk, b: byte) => Step(cfg, w, b)
  }

  /** The walk of `input`: byte after byte. */
  function Feed(cfg: Config, w: Walk, input: bytes): (Walk, seq<Out>) {
    Run(Stepper(cfg), w, input)
  }

  /** Split invariance: the walk of two buffers is the walk of their concatenation, wherever the cut is. */
  lemma FeedConcat(cfg: Config, w: Walk, a: bytes, b: bytes)
    ensures var r := Feed(cfg, w, a);
      var s := Feed(cfg, r.0, b);
      Feed(cfg, w, a + b) == (s.0, r.1 + s.1)
  {
    hide Step;
    RunConcat(Stepper(cfg), w, a, b);
  }

  lemma FeedEmpty(cfg: Config, w: Walk)
    ensures Feed(cfg, w, []) == (w, [])
  {
    RunEmpty(Stepper(cfg), w);
  }

  lemma FeedOne(cfg: Config, w: Walk, b: byte)
    ensures Feed(cfg, w, [b]) == Step(cfg, w, b)
  {
    hide Step;
    RunOne(Stepper(cfg), w, b);
  }

  lemma FeedSnoc(cfg: Config, w: Walk, a: bytes, b: byte)
    ensures var r := Feed(cfg, w, a);
      var s := Step(cfg, r.0, b);
      Feed(cfg, w, a + [b]) == (s.0, r.1 + s.1)
  {
    hide Step;
    RunSnoc(Stepper(cfg), w, a, b);
  }

  lemma LengthStaysKnown(l: Length, b: byte)
    requires l.value < LEN_UNKNOWN
    ensures LengthByte(l, b).value < LEN_UNKNOWN
  {
  }

  lemma AfterHeadersIsOk(cfg: Config, st: State, head: bool)
    requires |st.scan.tail| <= 3 && st.remaining <= LEN_UNKNOWN && st.scan.length.value < LEN_UNKNOWN && st.crlf <= 2
    requires st.phase.Headers? || st.phase.ChunkTrailer?
    ensures Ok(AfterHeaders(cfg, st, head).st)
  {
  }

  lemma HeaderByteKeepsOk(cfg: Config, w: Walk, b: byte)
    requires Ok(w.st) && (w.st.phase.Headers? || w.st.phase.ChunkTrailer?)
    ensures Ok(HeaderByte(cfg, w, b).0.st)
  {
    var sc := ScanByte(w.st.scan, b);
    assert |sc.tail| <= 3 && sc.captured <= CAPTURE_MAX;
    LengthStaysKnown(w.st.scan.length, b);
    AfterHeadersIsOk(cfg, w.st.(scan := sc), w.head);
  }

  lemma BodyByteKeepsOk(cfg: Config, st: State, b: byte)
    requires Ok(st) && !st.phase.Headers? && !st.phase.ChunkTrailer?
    ensures Ok(if st.phase.Data? || st.phase.ChunkData? then PayloadByte(cfg, st, b).0 else FramingByte(cfg, st, b).0)
  {
  }

  lemma StepKeepsOk(cfg: Config, w: Walk, b: byte)
    requires Ok(w.st)
    ensures Ok(Step(cfg, w, b).0.st)
  {
    if w.st.phase.Headers? || w.st.phase.ChunkTrailer? {
      HeaderByteKeepsOk(cfg, w, b);
    } else {
      BodyByteKeepsOk(cfg, w.st, b);
    }
  }

  lemma FeedKeepsOk(cfg: Config, w: Walk, input: bytes)
    requires Ok(w.st)
    ensures Ok(Feed(cfg, w, input).0.st)
  {
    var inv := (x: Walk) => Ok(x.st);
    forall x: Walk, b: byte | inv(x)
      ensures inv(Stepper(cfg)(x, b).0)
    {
      StepKeepsOk(cfg, x, b);
    }
    RunKeeps(Stepper(cfg), inv, w, input);
  }

  // ---------------------------------------------------------------------------
  // Runs of body bytes
  // ---------------------------------------------------------------------------

  function Bodies(d: bytes): (r: seq<Out>)
    ensures |r| == |d|
  {
    seq(|d|, i requires 0 <= i < |d| => Body(d[i]))
  }

  function Hdrs(d: bytes): (r: seq<Out>)
    ensures |r| == |d|
  {
    seq(|d|, i requires 0 <= i < |d| => Hdr(d[i]))
  }

  /** The state after n body bytes that do not end the body, captured all or not at all. */
  function Payload(cfg: Config, st: State, n: nat): State
    requires st.remaining == LEN_UNKNOWN || n <= st.remaining
  {
    var spent := Spent(cfg, st);
    st.(captured := if spent < CAPTURE_MAX then spent + n else spent,
        remaining := if st.remaining == LEN_UNKNOWN then LEN_UNKNOWN else st.remaining - n)
  }

  ghost predicate InBody(cfg: Config, st: State, n: nat) {
    && (st.phase.Data? || st.phase.ChunkData?)
    && (st.remaining == LEN_UNKNOWN || n <= st.remaining)
    && st.captured <= CAPTURE_MAX && st.remaining <= LEN_UNKNOWN
    && (Spent(cfg, st) + n <= CAPTURE_MAX || Spent(cfg, st) == CAPTURE_MAX)
  }

  /** The walk after the body bytes d, if it is in `t` before the end of the body is looked at. */
  function Settle(w: Walk, t: State, out: seq<Out>): (Walk, seq<Out>) {
    if t.remaining == 0 then (w.(st := BodyDone(t).0), out + BodyDone(t).1) else (w.(st := t), out)
  }

  function Captured(cfg: Config, st: State, d: bytes): seq<Out> {
    if Spent(cfg, st) < CAPTURE_MAX then Bodies(d) else []
  }

  lemma PayloadSnoc(cfg: Config, w: Walk, d: bytes, b: byte)
    requires InBody(cfg, w.st, |d| + 1) && w.st.remaining > 0
    ensures var t := if d == [] then w.st else Payload(cfg, w.st, |d|);
      var r := Step(cfg, w.(st := t), b);
      (r.0, Captured(cfg, w.st, d) + r.1) == Settle(w, Payload(cfg, w.st, |d| + 1), Captured(cfg, w.st, d + [b]))
  {
    var c := Captured(cfg, w.st, d);
    var t := if d == [] then w.st else Payload(cfg, w.st, |d|);
    OneMoreByte(cfg, w.st, d, b);
    var (u, o) := BodyByte(cfg, t, b);
    hide Captured, Payload, BodyByte, InBody, BodyDone;
    assert (c + o) + BodyDone(u).1 == c + (o + BodyDone(u).1);
  }

  lemma OneMoreByte(cfg: Config, st: State, d: bytes, b: byte)
    requires InBody(cfg, st, |d| + 1) && st.remaining > 0
    ensures var t := if d == [] then st else Payload(cfg, st, |d|);
      var (u, o) := BodyByte(cfg, t, b);
      u == Payload(cfg, st, |d| + 1) && Captured(cfg, st, d) + o == Captured(cfg, st, d + [b])
      && (t.phase.Data? || t.phase.ChunkData?)
  {
    assert Bodies(d + [b]) == Bodies(d) + [Body(b)];
  }

  /** A step over several body bytes is the walk of them one by one. */
  lemma {:induction false} FeedPayload(cfg: Config, w: Walk, d: bytes)
    requires d != [] && InBody(cfg, w.st, |d|) && w.st.remaining > 0
    ensures Feed(cfg, w, d) == Settle(w, Payload(cfg, w.st, |d|), Captured(cfg, w.st, d))
  {
    var n := |d| - 1;
    var init, b := d[..n], d[n];
    assert d == init + [b];
    PayloadSnoc(cfg, w, init, b);
    FeedSnoc(cfg, w, init, b);
    hide Feed, Step;
    if n > 0 {
      FeedPayload(cfg, w, init);
    } else {
      FeedEmpty(cfg, w);
      assert Captured(cfg, w.st, init) == [];
    }
  }
}
