/**
Bodies as their sender writes them, sized (section 6.2 of RFC 9112) or chunked (section 7.1), and
that the kernel side captures the start of each and finds its end.
*/
module Http1Body {
  import opened Bytes
  import opened Http1Kernel
  import opened Http1Message
  import opened Http1Fields

  // ---------------------------------------------------------------------------
  // Body bytes under the capture budget
  // ---------------------------------------------------------------------------

  /** How much of the capture budget is left. */
  function Budget(cfg: Config, st: State): nat
    requires st.captured <= CAPTURE_MAX
  {
    CAPTURE_MAX - Spent(cfg, st)
  }

  lemma BodiesConcat(a: bytes, b: bytes)
    ensures Bodies(a + b) == Bodies(a) + Bodies(b)
  {
  }

  lemma SettleJoins(w: Walk, st: State, t: State, out: seq<Out>)
    ensures var r := Settle(w.(st := st), t, []);
      (r.0, out + r.1) == Settle(w, t, out)
  {
    assert [] + BodyDone(t).1 == BodyDone(t).1 && out + [] == out;
  }

  /** Any number of body bytes: the first of them are captured, as many as the budget allows. */
  lemma FeedBody(cfg: Config, w: Walk, d: bytes)
    requires d != [] && Ok(w.st) && (w.st.phase.Data? || w.st.phase.ChunkData?)
    requires |d| <= w.st.remaining < LEN_UNKNOWN
    ensures Feed(cfg, w, d) ==
      Settle(w, w.st.(captured := Min(Spent(cfg, w.st) + |d|, CAPTURE_MAX), remaining := w.st.remaining - |d|),
             Bodies(Take(d, Budget(cfg, w.st))))
  {
    hide Feed, Bodies;
    var k := Budget(cfg, w.st);
    if k == 0 || |d| <= k {
      FeedPayload(cfg, w, d);
      BodiesOfNothing();
      assert Take(d, k) == if k == 0 then [] else d;
    } else {
      var a, b := d[..k], d[k..];
      assert d == a + b;
      FeedPayload(cfg, w, a);
      var t := Payload(cfg, w.st, k);
      FeedPayload(cfg, w.(st := t), b);
      FeedConcat(cfg, w, a, b);
      SettleJoins(w, t, Payload(cfg, t, |b|), Bodies(a));
    }
  }

  lemma BodiesOfNothing()
    ensures Bodies([]) == []
  {
  }

  /** A body that ends with the connection: its start is captured, and everything after it belongs to it. */
  lemma FeedUnsizedBody(cfg: Config, w: Walk, d: bytes)
    requires Ok(w.st) && w.st.phase.Data? && w.st.remaining == LEN_UNKNOWN && d != []
    ensures Feed(cfg, w, d) ==
      (w.(st := w.st.(captured := Min(Spent(cfg, w.st) + |d|, CAPTURE_MAX))), Bodies(Take(d, Budget(cfg, w.st))))
  {
    hide Feed, Bodies;
    var k := Budget(cfg, w.st);
    if k == 0 || |d| <= k {
      FeedPayload(cfg, w, d);
      BodiesOfNothing();
      assert Take(d, k) == if k == 0 then [] else d;
    } else {
      var a, b := d[..k], d[k..];
      assert d == a + b;
      FeedPayload(cfg, w, a);
      var t := Payload(cfg, w.st, k);
      FeedPayload(cfg, w.(st := t), b);
      FeedConcat(cfg, w, a, b);
      assert Bodies(a) + [] == Bodies(a);
    }
  }

  /** A body of declared length: captured up to the budget, and the walk is back at header blocks. */
  lemma FeedSizedBody(cfg: Config, w: Walk, body: bytes)
    requires Ok(w.st) && w.st.phase.Data? && w.st.captured == 0 && |body| == w.st.remaining < LEN_UNKNOWN
    ensures Feed(cfg, w, body) ==
      (w.(st := w.st.(phase := Headers, remaining := 0)), Bodies(Take(body, Budget(cfg, w.st))) + [End])
  {
    hide Feed, Bodies;
    FeedBody(cfg, w, body);
  }

  // ---------------------------------------------------------------------------
  // Chunked bodies
  // ---------------------------------------------------------------------------

  /** A chunk: its size in hex, white space, an extension from its ';' on, its data. */
  datatype Chunk = Chunk(size: bytes, pad: bytes, ext: bytes, data: bytes)

  predicate IsHex(b: bytes) {
    forall i :: 0 <= i < |b| ==> HexValue(b[i]) >= 0
  }

  const HEX_DIGITS := Ascii("0123456789abcdef")

  /** The value of a hex digit is its place among them, in either letter case; nothing else has one. */
  lemma HexDigits(b: byte, v: nat)
    requires v < 16
    ensures HexValue(b) == v <==> Lower(b) == HEX_DIGITS[v]
  {
    assert HEX_DIGITS[v] == if v < 10 then 48 + v else 97 + (v - 10);
  }

  function Hex(b: bytes): nat
    requires IsHex(b)
  {
    if b == [] then 0 else Hex(b[..|b| - 1]) * 16 + HexValue(b[|b| - 1])
  }

  /** The kernel side drops digits that would take it past 64 bits. */
  const SIZE_LIMIT: nat := LEN_UNKNOWN / 16 * 16

  predicate IsChunk(c: Chunk) {
    && c.size != [] && IsHex(c.size) && Hex(c.size) == |c.data| < SIZE_LIMIT
    && IsOws(c.pad) && NoLineEnd(c.ext) && (c.ext == [] || c.ext[0] == SEMICOLON)
  }

  function SizeLine(c: Chunk): bytes {
    c.size + c.pad + c.ext + CRLF
  }

  function Encode(c: Chunk): bytes {
    SizeLine(c) + c.data + CRLF
  }

  function EncodeAll(chunks: seq<Chunk>): bytes {
    if chunks == [] then [] else EncodeAll(chunks[..|chunks| - 1]) + Encode(chunks[|chunks| - 1])
  }

  function Decoded(chunks: seq<Chunk>): bytes {
    if chunks == [] then [] else Decoded(chunks[..|chunks| - 1]) + chunks[|chunks| - 1].data
  }

  ghost predicate AreChunks(chunks: seq<Chunk>) {
    forall i :: 0 <= i < |chunks| ==> IsChunk(chunks[i]) && chunks[i].data != []
  }

  /** A chunked body: its chunks, the last chunk and the trailer section. */
  function ChunkedBody(chunks: seq<Chunk>, last: Chunk, trailer: seq<Field>): bytes {
    EncodeAll(chunks) + SizeLine(last) + Block(FieldLines(trailer))
  }

  /** Before a size line. */
  ghost predicate AtSize(st: State) {
    Ok(st) && st.phase.ChunkSize? && st.remaining == 0 && !st.sawCr && !st.inExt
  }

  /** The walk keeps what a size line has nothing to do with; the budget is normalised. */
  function Sized(cfg: Config, st: State, n: nat, ext: bool, cr: bool): State {
    st.(captured := Spent(cfg, st), remaining := n, inExt := ext, sawCr := cr)
  }

  lemma {:induction false} FeedSize(cfg: Config, w: Walk, size: bytes)
    requires AtSize(w.st) && size != [] && IsHex(size) && Hex(size) < SIZE_LIMIT
    ensures Feed(cfg, w, size) == (w.(st := Sized(cfg, w.st, Hex(size), false, false)), [])
  {
    var n := |size| - 1;
    var init, b := size[..n], size[n];
    assert size == init + [b] && HexValue(b) >= 0;
    hide Feed;
    FeedSnoc(cfg, w, init, b);
    if n == 0 {
      assert init == [];
      FeedEmpty(cfg, w);
    } else {
      FeedSize(cfg, w, init);
    }
    DigitByte(cfg, if n == 0 then w.st else Sized(cfg, w.st, Hex(init), false, false), b);
  }

  lemma DigitByte(cfg: Config, st: State, b: byte)
    requires st.phase.ChunkSize? && !st.sawCr && !st.inExt && HexValue(b) >= 0 && st.remaining * 16 + HexValue(b) < SIZE_LIMIT
    ensures FramingByte(cfg, st, b) == (Sized(cfg, st, st.remaining * 16 + HexValue(b), false, false), [])
  {
  }

  lemma IgnoredByte(cfg: Config, st: State, b: byte)
    requires st.phase.ChunkSize? && !st.sawCr && st.captured == Spent(cfg, st)
    requires b != CR && b != LF && (st.inExt || b == SP || b == TAB)
    ensures FramingByte(cfg, st, b) == (st, [])
  {
    assert st.(captured := Spent(cfg, st)) == st && st.(sawCr := false) == st;
  }

  /** Bytes after the digits that change nothing: white space, or anything in an extension. */
  lemma {:induction false} FeedIgnored(cfg: Config, w: Walk, rest: bytes)
    requires w.st.phase.ChunkSize? && !w.st.sawCr && w.st.captured == Spent(cfg, w.st)
    requires NoLineEnd(rest) && (w.st.inExt || IsOws(rest))
    ensures Feed(cfg, w, rest) == (w, [])
  {
    if rest == [] {
      FeedEmpty(cfg, w);
    } else {
      var n := |rest| - 1;
      assert rest == rest[..n] + [rest[n]];
      FeedIgnored(cfg, w, rest[..n]);
      FeedSnoc(cfg, w, rest[..n], rest[n]);
      hide Feed;
      IgnoredByte(cfg, w.st, rest[n]);
      assert w.(st := w.st) == w;
      assert Step(cfg, w, rest[n]) == (w, []);
      assert [] + Step(cfg, w, rest[n]).1 == [];
    }
  }

  lemma FeedExt(cfg: Config, w: Walk, ext: bytes)
    requires w.st.phase.ChunkSize? && !w.st.sawCr && !w.st.inExt && w.st.captured == Spent(cfg, w.st)
    requires NoLineEnd(ext) && (ext == [] || ext[0] == SEMICOLON)
    ensures Feed(cfg, w, ext) == (w.(st := w.st.(inExt := ext != [])), [])
  {
    if ext == [] {
      FeedEmpty(cfg, w);
      assert w.(st := w.st.(inExt := false)) == w;
    } else {
      var v := w.(st := w.st.(inExt := true));
      FeedOne(cfg, w, SEMICOLON);
      assert Step(cfg, w, SEMICOLON) == (v, []);
      FeedIgnored(cfg, v, ext[1..]);
      FeedConcat(cfg, w, [SEMICOLON], ext[1..]);
      assert ext == [SEMICOLON] + ext[1..];
    }
  }

  lemma FeedLineEnd(cfg: Config, w: Walk)
    requires w.st.phase.ChunkSize? && !w.st.sawCr && w.st.captured == Spent(cfg, w.st)
    ensures Feed(cfg, w, CRLF) ==
      (w.(st := w.st.(sawCr := true, phase := if w.st.remaining == 0 then ChunkTrailer else ChunkData)),
       if w.st.remaining == 0 then [End] else [])
  {
    var v := w.(st := w.st.(sawCr := true));
    FeedOne(cfg, w, CR);
    FeedOne(cfg, v, LF);
    FeedConcat(cfg, w, [CR], [LF]);
    assert [CR] + [LF] == CRLF;
    hide Feed;
    assert Step(cfg, w, CR) == (v, []);
    assert forall o: seq<Out> :: [] + o == o;
  }

  /** A size line is read whole, whatever its extension. */
  lemma FeedSizeLine(cfg: Config, w: Walk, c: Chunk)
    requires AtSize(w.st) && IsChunk(c)
    ensures Feed(cfg, w, SizeLine(c)) ==
      (w.(st := Sized(cfg, w.st, |c.data|, c.ext != [], true).(phase := if c.data == [] then ChunkTrailer else ChunkData)),
       if c.data == [] then [End] else [])
  {
    hide Feed, Hex, IsHex;
    var v := w.(st := Sized(cfg, w.st, |c.data|, false, false));
    var x := w.(st := Sized(cfg, w.st, |c.data|, c.ext != [], false));
    FeedSize(cfg, w, c.size);
    FeedIgnored(cfg, v, c.pad);
    FeedExt(cfg, v, c.ext);
    FeedLineEnd(cfg, x);
    FeedConcat(cfg, w, c.size, c.pad);
    FeedConcat(cfg, w, c.size + c.pad, c.ext);
    FeedConcat(cfg, w, c.size + c.pad + c.ext, CRLF);
    assert v.(st := v.st.(inExt := c.ext != [])) == x;
    assert forall o: seq<Out> :: [] + o == o;
  }

  lemma FeedDataEnd(cfg: Config, w: Walk)
    requires w.st.phase.ChunkCrlf? && w.st.crlf == 0 && w.st.captured == Spent(cfg, w.st)
    ensures Feed(cfg, w, CRLF) == (w.(st := w.st.(phase := ChunkSize, crlf := 2, remaining := 0, sawCr := false, inExt := false)), [])
  {
    var v := w.(st := w.st.(crlf := 1));
    FeedOne(cfg, w, CR);
    FeedOne(cfg, v, LF);
    assert Step(cfg, w, CR) == (v, []);
    FeedConcat(cfg, w, [CR], [LF]);
    assert [CR] + [LF] == CRLF;
  }

  /** What the walk of part of a chunked body has captured of the data d. */
  ghost predicate Gathered(cfg: Config, w: Walk, r: (Walk, seq<Out>), d: bytes)
    requires w.st.captured <= CAPTURE_MAX
  {
    && AtSize(r.0.st) && r.0.st.scan == w.st.scan && r.0.head == w.head
    && Spent(cfg, r.0.st) == Min(Spent(cfg, w.st) + |d|, CAPTURE_MAX)
    && r.1 == Bodies(Take(d, Budget(cfg, w.st)))
  }

  lemma FeedChunk(cfg: Config, w: Walk, c: Chunk)
    requires AtSize(w.st) && IsChunk(c) && c.data != []
    ensures Gathered(cfg, w, Feed(cfg, w, Encode(c)), c.data)
  {
    hide Feed, Bodies, Hex, IsHex;
    FeedSizeLine(cfg, w, c);
    var v := w.(st := Sized(cfg, w.st, |c.data|, c.ext != [], true).(phase := ChunkData));
    FeedBody(cfg, v, c.data);
    var x := v.(st := v.st.(captured := Min(Spent(cfg, v.st) + |c.data|, CAPTURE_MAX), remaining := 0, phase := ChunkCrlf, crlf := 0));
    FeedDataEnd(cfg, x);
    FeedConcat(cfg, w, SizeLine(c), c.data);
    FeedConcat(cfg, w, SizeLine(c) + c.data, CRLF);
    var out := Bodies(Take(c.data, Budget(cfg, v.st)));
    assert out + [] == out && [] + out == out;
  }

  lemma TakeMore(a: bytes, b: bytes, k: nat)
    ensures Bodies(Take(a, k)) + Bodies(Take(b, k - Min(|a|, k))) == Bodies(Take(a + b, k))
  {
    BodiesConcat(Take(a, k), Take(b, k - Min(|a|, k)));
    assert Take(a, k) + Take(b, k - Min(|a|, k)) == Take(a + b, k);
  }

  lemma GatherMore(cfg: Config, w: Walk, r: (Walk, seq<Out>), s: (Walk, seq<Out>), a: bytes, b: bytes)
    requires w.st.captured <= CAPTURE_MAX && Gathered(cfg, w, r, a) && Gathered(cfg, r.0, s, b)
    ensures Gathered(cfg, w, (s.0, r.1 + s.1), a + b)
  {
    hide Bodies, Take;
    TakeMore(a, b, Budget(cfg, w.st));
  }

  lemma {:induction false} FeedChunks(cfg: Config, w: Walk, chunks: seq<Chunk>)
    requires AtSize(w.st) && AreChunks(chunks)
    ensures Gathered(cfg, w, Feed(cfg, w, EncodeAll(chunks)), Decoded(chunks))
  {
    if chunks == [] {
      FeedEmpty(cfg, w);
      BodiesOfNothing();
    } else {
      var n := |chunks| - 1;
      var init, c := chunks[..n], chunks[n];
      assert AreChunks(init) && IsChunk(c) && c.data != [];
      assert EncodeAll(chunks) == EncodeAll(init) + Encode(c) && Decoded(chunks) == Decoded(init) + c.data;
      hide Feed, Bodies, Encode, EncodeAll, Decoded, Take, IsChunk, Min, Spent;
      FeedChunks(cfg, w, init);
      var r := Feed(cfg, w, EncodeAll(init));
      FeedChunk(cfg, r.0, c);
      FeedConcat(cfg, w, EncodeAll(init), Encode(c));
      GatherMore(cfg, w, r, Feed(cfg, r.0, Encode(c)), Decoded(init), c.data);
    }
  }

  // ---------------------------------------------------------------------------
  // Back at header blocks
  // ---------------------------------------------------------------------------

  /** Between messages: the walk waits for a header block, and all matchers are fresh. */
  ghost predicate Clean(st: State) {
    Ok(st) && st.phase.Headers? && st.scan == Fresh(st.scan.tail) && st.captured == 0
  }

  /** The trailer section of a chunked body. Its first line end is recognised, when it has no fields,
      because the scan still remembers the end of the header block. */
  lemma FeedTrailer(cfg: Config, w: Walk, trailer: seq<Field>)
    requires AtTrailer(w.st) && AreFields(trailer)
    ensures var block := Block(FieldLines(trailer));
      var r := Feed(cfg, w, block);
      && Clean(r.0.st) && r.0.st.scan.tail == [LF, CR, LF] && r.0.head == w.head
      && r.1 == Hdrs(Take(block, CAPTURE_MAX)) + [End]
  {
    var lines := FieldLines(trailer);
    assert AreLines(lines) by {
      forall i | 0 <= i < |lines|
        ensures IsLine(lines[i])
      {
        assert IsField(trailer[i]);
      }
    }
    FeedKeepsOk(cfg, w, Block(lines));
    hide Feed, ScanAll, Hdrs, Block;
    FeedBlock(cfg, w, lines);
  }

  /** Before a trailer section. */
  ghost predicate AtTrailer(st: State) {
    Ok(st) && st.phase.ChunkTrailer? && st.scan.captured == 0 && st.scan.tail == [LF, CR, LF]
  }

  /** All of a chunked body but its trailer section. */
  function ChunkedData(chunks: seq<Chunk>, last: Chunk): bytes {
    EncodeAll(chunks) + SizeLine(last)
  }

  lemma FeedChunkedData(cfg: Config, w: Walk, chunks: seq<Chunk>, last: Chunk)
    requires AtSize(w.st) && w.st.captured == 0 && w.st.scan.captured == 0 && w.st.scan.tail == [LF, CR, LF]
    requires AreChunks(chunks) && IsChunk(last) && last.data == []
    ensures var r := Feed(cfg, w, ChunkedData(chunks, last));
      && AtTrailer(r.0.st) && r.0.head == w.head
      && r.1 == Bodies(Take(Decoded(chunks), Budget(cfg, w.st))) + [End]
  {
    hide Feed, Bodies, Take, EncodeAll, Decoded, IsChunk;
    FeedChunks(cfg, w, chunks);
    var v := Feed(cfg, w, EncodeAll(chunks)).0;
    FeedSizeLine(cfg, v, last);
    FeedKeepsOk(cfg, v, SizeLine(last));
    FeedConcat(cfg, w, EncodeAll(chunks), SizeLine(last));
  }

  /** Chunked decoding: whatever the sizes, the extensions and the trailer, the data events carry the
      start of the decoded body, and the walk is back at header blocks right after the trailer. */
  lemma FeedChunkedBody(cfg: Config, w: Walk, chunks: seq<Chunk>, last: Chunk, trailer: seq<Field>)
    requires AtSize(w.st) && w.st.captured == 0 && w.st.scan.captured == 0 && w.st.scan.tail == [LF, CR, LF]
    requires AreChunks(chunks) && IsChunk(last) && last.data == [] && AreFields(trailer)
    ensures var block := Block(FieldLines(trailer));
      var r := Feed(cfg, w, ChunkedBody(chunks, last, trailer));
      && Clean(r.0.st) && r.0.st.scan.tail == [LF, CR, LF] && r.0.head == w.head
      && r.1 == Bodies(Take(Decoded(chunks), Budget(cfg, w.st))) + [End] + (Hdrs(Take(block, CAPTURE_MAX)) + [End])
  {
    var block := Block(FieldLines(trailer));
    hide Feed, Bodies, Hdrs, Take, Block, FieldLines, Decoded, IsChunk, AreFields;
    FeedChunkedData(cfg, w, chunks, last);
    FeedTrailer(cfg, Feed(cfg, w, ChunkedData(chunks, last)).0, trailer);
    FeedConcat(cfg, w, ChunkedData(chunks, last), block);
  }
}
