/**
What it costs when a buffer cuts the line end of an empty trailer section: its line feed stays in the
header buffer of the parser, the next header block of that direction is taken for a continuation of
it, and an exchange is lost. Together with Http1Conversation this says exactly when every exchange is
reported.
*/
module Http1CutTrailer {
  import opened Bytes
  import opened Http1Kernel
  import opened Http1Walk
  import opened Http1Message
  import opened Http1Fields
  import opened Http1Body
  import opened Http1Pairing
  import opened Http1EndToEnd
  import opened Http1Order
  import opened Http1Conversation
  import opened Wrappers
  import P = Http1Parser

  // ---------------------------------------------------------------------------
  // Header bytes behind a leftover line end
  // ---------------------------------------------------------------------------

  predicate IsLineEnd(b: byte) {
    b == CR || b == LF
  }

  predicate AreLineEnds(b: bytes) {
    forall i :: 0 <= i < |b| ==> IsLineEnd(b[i])
  }

  /** No start line is read from a block that begins with a line end. */
  lemma NoStartLine(b: bytes)
    requires b != [] && IsLineEnd(b[0])
    ensures P.ParseRequestLine(b).None? && P.ParseStatusLine(b).None?
  {
    var line := P.StartLine(b);
    if line != [] {
      assert line[0] == CR;
      assert P.Before(line, SP)[0] == CR;
    }
  }

  /** What a header event leaves in the buffer when no start line is read. */
  function NextBuffer(b: bytes, payload: bytes): bytes {
    var buf := b + P.Incoming(b, payload);
    if buf != [] && P.Complete(buf) then [] else buf
  }

  lemma MutedEvent(v: View, isReq: bool, e: Event)
    requires e.kind == HeadersKind(isReq)
    requires var b := Buffer(v, isReq);
      var buf := b + P.Incoming(b, e.payload);
      buf == [] || IsLineEnd(buf[0])
    ensures See(v, e) == (WithBuffer(v, isReq, NextBuffer(Buffer(v, isReq), e.payload)), [])
  {
    hide P.ParseRequestLine, P.ParseStatusLine, P.Complete;
    var b := Buffer(v, isReq);
    var buf := b + P.Incoming(b, e.payload);
    if buf != [] { NoStartLine(buf); }
  }

  /** What is over when n bytes come to a buffer that gives up at HEADERS_MAX. */
  function Over(n: nat): nat {
    if n <= P.HEADERS_MAX then 0 else n - P.HEADERS_MAX
  }

  /** What can be left over in a header buffer: a part of the end of a block. */
  predicate IsResidue(b: bytes) {
    b in {[], [LF], CRLF, [LF, CR, LF]}
  }

  predicate IsSuffix(b: bytes, x: bytes) {
    |b| <= |x| && b == x[|x| - |b|..]
  }

  /** Header bytes `block` may follow the leftover j: no part of them ends a block with it, and they end
      with line ends. */
  ghost predicate Leftover(j: bytes, block: bytes) {
    && 0 < |j| <= 3 && AreLineEnds(j) && |block| <= P.HEADERS_MAX
    && (forall k :: 0 <= k < |block| ==> !P.EndsBlock(j + block[..k]))
    && (forall i :: 0 <= i < |block| && |block| - 3 <= i ==> IsLineEnd(block[i]))
  }

  /** The buffer is full or the block is over, and b is of what came after that. */
  ghost predicate GivenUp(j: bytes, x: bytes, block: bytes, b: bytes) {
    && (|j| + |x| >= P.HEADERS_MAX || x == block)
    && AreLineEnds(b) && |b| <= Over(|j| + |x|) && IsSuffix(b, x)
  }

  /** Of the bytes x of the block, behind the leftover j, the buffer holds b. */
  ghost predicate Swallowed(j: bytes, x: bytes, block: bytes, b: bytes) {
    (b == j + x && !P.Complete(b)) || GivenUp(j, x, block, b)
  }

  lemma {:induction false} TrimmedLineEnds(p: bytes)
    ensures var t := P.TrimLeadingCrlf(p); IsSuffix(t, p) && (AreLineEnds(p) ==> AreLineEnds(t))
  {
    if |p| >= 2 && p[..2] == CRLF { TrimmedLineEnds(p[2..]); }
  }

  lemma SuffixGrows(b: bytes, init: bytes, t: bytes, payload: bytes)
    requires IsSuffix(b, init) && IsSuffix(t, payload)
    ensures IsSuffix(b + payload, init + payload) && IsSuffix(t, init + payload)
  {
  }

  lemma HeldNext(j: bytes, init: bytes, payload: bytes, block: bytes)
    requires Leftover(j, block) && payload != [] && init + payload <= block
    ensures Swallowed(j, init + payload, block, NextBuffer(j + init, payload))
  {
    var x := init + payload;
    assert (j + init) + payload == j + x && x == block[..|x|];
    if P.EndsBlock(j + x) {
      assert x == block;
    }
    assert AreLineEnds([]);
  }

  /** The last bytes of a block are line ends. */
  lemma LastBytes(j: bytes, init: bytes, payload: bytes, block: bytes)
    requires Leftover(j, block) && init + payload <= block && |j| + |init| >= P.HEADERS_MAX
    ensures AreLineEnds(payload)
  {
    hide P.EndsBlock;
    forall i | 0 <= i < |payload|
      ensures IsLineEnd(payload[i])
    {
      assert payload[i] == (init + payload)[|init| + i] == block[|init| + i];
    }
  }

  lemma LineEndsArrive(b: bytes, init: bytes, payload: bytes)
    requires AreLineEnds(b) && AreLineEnds(payload) && IsSuffix(b, init)
    ensures var buf := b + P.Incoming(b, payload);
      AreLineEnds(buf) && |buf| <= |b| + |payload| && IsSuffix(buf, init + payload)
  {
    TrimmedLineEnds(payload);
    SuffixGrows(b, init, P.TrimLeadingCrlf(payload), payload);
    hide P.TrimLeadingCrlf, IsSuffix;
    if b == [] { assert b + P.TrimLeadingCrlf(payload) == P.TrimLeadingCrlf(payload); }
  }

  lemma NothingIsLeft(x: bytes)
    ensures AreLineEnds([]) && IsSuffix([], x)
  {
  }

  lemma GivenUpNext(j: bytes, init: bytes, payload: bytes, block: bytes, b: bytes)
    requires Leftover(j, block) && GivenUp(j, init, block, b) && payload != [] && init + payload <= block
    ensures AreLineEnds(b + P.Incoming(b, payload)) && GivenUp(j, init + payload, block, NextBuffer(b, payload))
  {
    hide Leftover, AreLineEnds, IsSuffix, P.Incoming, P.Complete;
    LastBytes(j, init, payload, block);
    LineEndsArrive(b, init, payload);
    NothingIsLeft(init + payload);
  }

  lemma SwallowedNext(j: bytes, init: bytes, payload: bytes, block: bytes, b: bytes)
    requires Leftover(j, block) && Swallowed(j, init, block, b) && payload != [] && init + payload <= block
    ensures var buf := b + P.Incoming(b, payload); buf == [] || IsLineEnd(buf[0])
    ensures Swallowed(j, init + payload, block, NextBuffer(b, payload))
  {
    assert j != [] && IsLineEnd(j[0]);
    hide Leftover, GivenUp, NextBuffer, P.Complete;
    if GivenUp(j, init, block, b) {
      GivenUpNext(j, init, payload, block, b);
    } else {
      HeldNext(j, init, payload, block);
    }
  }

  lemma {:induction false} LeftoverSwallows(v: View, isReq: bool, log: seq<Piece>, x: bytes, block: bytes) returns (b: bytes)
    requires LogOk(isReq, log) && Flat(log) == Hdrs(x) && x <= block && Leftover(Buffer(v, isReq), block)
    ensures Swallowed(Buffer(v, isReq), x, block, b) && SeeAll(v, log) == (WithBuffer(v, isReq, b), [])
    decreases |log|, 1
  {
    var j := Buffer(v, isReq);
    if x == [] {
      SilentLog(v, isReq, log);
      b := j;
      assert j + [] == j;
    } else {
      hide Flat, SeeAll, LogOk, Leftover, Swallowed, Hdrs, NextBuffer;
      var e, init, b0 := LastSwallowed(v, isReq, log, x, block);
      SwallowedNext(j, init, e.payload, block, b0);
      b := NextBuffer(b0, e.payload);
    }
  }

  /** The last event of the bytes x, behind what the events before it left. */
  lemma LastSwallowed(v: View, isReq: bool, log: seq<Piece>, x: bytes, block: bytes)
    returns (e: Event, init: bytes, b: bytes)
    requires LogOk(isReq, log) && Flat(log) == Hdrs(x) && x != [] && x <= block && Leftover(Buffer(v, isReq), block)
    ensures log != [] && log[|log| - 1] == Sent(e) && x == init + e.payload && e.payload != []
    ensures Swallowed(Buffer(v, isReq), init, block, b)
    ensures SeeAll(v, log) == (WithBuffer(v, isReq, NextBuffer(b, e.payload)), [])
    decreases |log|, 0
  {
    hide Flat, SeeAll, LogOk, See, Leftover, Swallowed, Hdrs, NextBuffer;
    var k;
    e, k := LastHeaderPiece(isReq, log, x);
    var n := |log| - 1;
    init := x[..k];
    LogOkPrefix(isReq, log, n);
    assert log == log[..n] + [log[n]] && x == init + e.payload;
    b := LeftoverSwallows(v, isReq, log[..n], init, block);
    SwallowedNext(Buffer(v, isReq), init, e.payload, block, b);
    var u := WithBuffer(v, isReq, b);
    MutedEvent(u, isReq, e);
    SeeAllSnoc(v, log[..n], log[n]);
    assert WithBuffer(u, isReq, NextBuffer(b, e.payload)) == WithBuffer(v, isReq, NextBuffer(b, e.payload));
    assert [] + See(u, e).1 == [];
  }

  /** A header block, or a trailer section with fields. */
  ghost predicate IsHeaderBlock(block: bytes) {
    IsWhole(block) && P.EndsBlock(block) && block[0] != LF && |block| <= P.HEADERS_MAX
  }

  lemma BlockFollows(j: bytes, block: bytes)
    requires IsHeaderBlock(block) && IsResidue(j) && j != []
    ensures Leftover(j, block)
  {
    forall k | 0 <= k < |block|
      ensures !P.EndsBlock(j + block[..k])
    {
      EndsNoPrefix(j, block, k);
    }
    assert forall i :: 0 <= i < |block| && |block| - 3 <= i ==> block[i] == block[|block| - 4..][i - |block| + 4];
  }

  lemma BlockEnding(y: bytes)
    requires P.EndsBlock(y)
    ensures var n := |y|; n >= 4 && y[n - 4] == CR && y[n - 3] == LF && y[n - 2] == CR && y[n - 1] == LF
  {
    var e := y[|y| - 4..];
    assert e[0] == CR && e[1] == LF && e[2] == CR && e[3] == LF;
  }

  lemma NoLongPrefix(j: bytes, block: bytes, k: nat)
    requires IsWhole(block) && 4 <= k < |block|
    ensures !P.EndsBlock(j + block[..k])
  {
    hide Partial;
    PartialPrefix(block[..|block| - 1], k);
    assert block[..|block| - 1][..k] == block[..k];
    PartialPrefix(block[..k], k);
    assert (j + block[..k])[|j| + k - 4..] == block[..k][k - 4..];
  }

  lemma EndsNoPrefix(j: bytes, block: bytes, k: nat)
    requires IsWhole(block) && block[0] != LF && k < |block| && 0 < |j| <= 3 && j[|j| - 1] == LF
    ensures !P.EndsBlock(j + block[..k])
  {
    if k >= 4 {
      NoLongPrefix(j, block, k);
    } else {
      var y := j + block[..k];
      assert block[0] != CR;
      hide IsWhole, P.EndsBlock;
      if P.EndsBlock(y) { BlockEnding(y); }
    }
  }

  lemma ResidueOfBlock(b: bytes, block: bytes)
    requires P.EndsBlock(block) && IsSuffix(b, block) && |b| <= 3
    ensures IsResidue(b)
  {
    BlockEnding(block);
    hide P.EndsBlock;
    var n := |block|;
    assert |b| == 1 ==> b == [LF];
    assert |b| == 2 ==> b == CRLF;
    assert |b| == 3 ==> b == [LF, CR, LF];
  }

  /** A header block behind a leftover is dropped, and what is left over after it is again such a part. */
  lemma BlockIsDropped(v: View, isReq: bool, log: seq<Piece>, block: bytes) returns (b: bytes)
    requires LogOk(isReq, log) && Flat(log) == Hdrs(block) && IsHeaderBlock(block)
    requires IsResidue(Buffer(v, isReq)) && Buffer(v, isReq) != []
    ensures SeeAll(v, log) == (WithBuffer(v, isReq, b), []) && IsResidue(b)
  {
    var j := Buffer(v, isReq);
    assert P.Complete(j + block) by { assert (j + block)[|j + block| - 4..] == block[|block| - 4..]; }
    assert |j| <= 3 && P.EndsBlock(block) && |block| <= P.HEADERS_MAX;
    hide Flat, SeeAll, LogOk, Hdrs, Leftover, IsHeaderBlock, P.EndsBlock, IsResidue;
    BlockFollows(j, block);
    b := LeftoverSwallows(v, isReq, log, block, block);
    ResidueOfBlock(b, block);
  }

  /** A header block behind a cut line end is dropped: a request is never waited with, a response never
      paired. The buffer is clean after it, unless the line end and the block together fill it and the
      last line feed comes in an event of its own; then a line feed is left over again. */
  lemma BlockAfterCutIsDropped(v: View, isReq: bool, log: seq<Piece>, block: bytes) returns (b: bytes)
    requires LogOk(isReq, log) && Flat(log) == Hdrs(block) && IsHeaderBlock(block) && Buffer(v, isReq) == CRLF
    ensures SeeAll(v, log) == (WithBuffer(v, isReq, b), []) && b in {[], [LF], CRLF}
    ensures log != [] && log[|log| - 1].Sent?
    ensures b == [] <==> |block| + 2 <= P.HEADERS_MAX || |log[|log| - 1].e.payload| > 1
  {
    assert block != [] && P.EndsBlock(block) && |block| <= P.HEADERS_MAX;
    hide Flat, SeeAll, LogOk, See, Leftover, Swallowed, Hdrs, NextBuffer, P.EndsBlock, IsHeaderBlock;
    BlockFollows(CRLF, block);
    var e, init, b0 := LastSwallowed(v, isReq, log, block, block);
    b := NextBuffer(b0, e.payload);
    LastOfBlock(init, e.payload, block, b0);
  }

  /** The last event of a block. */
  lemma LastOfBlock(init: bytes, payload: bytes, block: bytes, b: bytes)
    requires P.EndsBlock(block) && |block| <= P.HEADERS_MAX && block == init + payload && payload != []
    requires Swallowed(CRLF, init, block, b)
    ensures var b' := NextBuffer(b, payload);
      && (b' == [] <==> |block| + 2 <= P.HEADERS_MAX || |payload| > 1)
      && b' in {[], [LF], CRLF}
  {
    if b == CRLF + init && !P.Complete(b) {
      assert b + payload == CRLF + block;
      assert (CRLF + block)[|CRLF + block| - 4..] == block[|block| - 4..];
    } else {
      assert payload[|payload| - 1] == block[|block| - 4..][3] == LF;
      if |payload| == 1 {
        assert payload == [LF];
        if b != [] {
          assert init[|init| - 1] == block[|block| - 4..][2] == CR;
          assert b == [CR] && [CR] + [LF] == CRLF;
        } else {
          assert b + [LF] == [LF];
        }
      } else {
        assert b == [] && payload[0] == block[|block| - 4..][2] == CR;
        assert payload == CRLF;
        assert P.TrimLeadingCrlf(CRLF) == [] by { assert CRLF[2..] == []; }
      }
    }
  }

  // ---------------------------------------------------------------------------
  // A message behind a leftover line end
  // ---------------------------------------------------------------------------

  /** A data event that looks like a response. */
  predicate LooksLikeResponse(p: Piece) {
    p.Sent? && p.e.kind.ServerData? && P.RESPONSE_PREFIX <= p.e.payload
  }

  /** Nothing of a response after its header block looks like a response. */
  predicate Quiet(c: Content, log: seq<Piece>) {
    && (forall i :: 0 <= i < |log| ==> !LooksLikeResponse(log[i]))
    && (c.Chunks? && c.trailer != [] ==> !(P.HTTP_SLASH <= c.trailer[0].name))
  }

  ghost predicate Calm(v: View, isReq: bool, log: seq<Piece>) {
    isReq || v.pending.None? || v.server != [] || forall i :: 0 <= i < |log| ==> !LooksLikeResponse(log[i])
  }

  lemma CalmPiece(v: View, isReq: bool, e: Event)
    requires OfDirection(isReq, e) && NoHdr(Tagged(e)) && Calm(v, isReq, [Sent(e)])
    ensures See(v, e) == (v, [])
  {
    assert !Tagged(e)[0].Hdr?;
    assert !isReq && v.pending.Some? && v.server == [] ==> !LooksLikeResponse([Sent(e)][0]);
  }

  lemma {:induction false} CalmPieces(v: View, isReq: bool, log: seq<Piece>)
    requires LogOk(isReq, log) && NoHdr(Flat(log)) && Calm(v, isReq, log)
    ensures SeeAll(v, log) == (v, [])
  {
    if log == [] {
      SeeAllEmpty(v);
    } else {
      var n := |log| - 1;
      FlatLast(log);
      LogOkAt(isReq, log, n);
      LogOkPrefix(isReq, log, n);
      hide Flat, See, SeeAll, NoHdr, Tagged, OfDirection, LogOk;
      NoHdrSplit(Flat(log[..n]), Shown(log[n]));
      CalmPieces(v, isReq, log[..n]);
      SeeAllSnoc(v, log[..n], log[n]);
      assert log == log[..n] + [log[n]];
      if log[n].Sent? {
        CalmPiece(v, isReq, log[n].e);
        assert [] + See(v, log[n].e).1 == [];
      }
    }
  }

  lemma TrailerIsNoStatus(trailer: seq<Field>)
    requires AreFields(trailer) && trailer != [] && !(P.HTTP_SLASH <= trailer[0].name)
    ensures P.ParseStatusLine(Block(FieldLines(trailer))).None?
  {
    hide P.Atoi, AreFields;
    var more := TrailerStart(trailer);
    var f := trailer[0];
    var line := FieldLine(f);
    StartLineIs(line, more);
    if P.HTTP_SLASH <= P.Before(line, SP) { SlashIsInName(f, P.Before(line, SP)); }
  }

  lemma SlashIsInName(f: Field, m: bytes)
    requires m <= FieldLine(f) && IsField(f) && P.HTTP_SLASH <= m
    ensures P.HTTP_SLASH <= f.name
  {
    var line := FieldLine(f);
    assert forall i :: 0 <= i < 5 ==> P.HTTP_SLASH[i] == m[i] == line[i];
    assert |f.name| >= 5 by {
      assert line[|f.name|] == COLON;
    }
    assert f.name[..5] == P.HTTP_SLASH;
  }

  ghost predicate TrailerOk(trailer: seq<Field>) {
    && AreFields(trailer) && (forall i :: 0 <= i < |trailer| ==> NoSpace(trailer[i].name))
    && |Block(FieldLines(trailer))| <= CAPTURE_MAX
  }

  lemma TrailerBlock(trailer: seq<Field>)
    requires TrailerOk(trailer) && trailer != []
    ensures IsHeaderBlock(Block(FieldLines(trailer)))
  {
    hide Block, FieldLines, IsWhole, P.EndsBlock, AreFields;
    var lines := FieldLines(trailer);
    FieldsAreLines(trailer);
    BlockIsWhole(lines);
    BlockEndsBlock(lines);
    var more := TrailerStart(trailer);
  }

  lemma NoTrailerBlock()
    ensures Block(FieldLines([])) == CRLF
  {
    assert FieldLines([]) == [];
    assert [] + CRLF == CRLF;
  }

  lemma EmptyTrailerFollows(j: bytes)
    requires IsResidue(j) && j != []
    ensures Leftover(j, CRLF)
  {
    hide P.EndsBlock;
    forall k | 0 <= k < 2
      ensures !P.EndsBlock(j + CRLF[..k])
    {
      if P.EndsBlock(j + CRLF[..k]) { BlockEnding(j + CRLF[..k]); }
    }
  }

  lemma AfterEmptyTrailer(j: bytes, b: bytes)
    requires IsResidue(j) && j != [] && Swallowed(j, CRLF, CRLF, b)
    ensures IsResidue(b)
  {
    assert (CRLF + CRLF)[0..] == HEADER_END && ([LF, CR, LF] + CRLF)[1..] == HEADER_END;
    assert [LF] + CRLF == [LF, CR, LF];
  }

  /** A trailer section behind a leftover: nothing is read from it. */
  lemma TrailerDropped(v: View, isReq: bool, log: seq<Piece>, trailer: seq<Field>) returns (b: bytes)
    requires TrailerOk(trailer) && LogOk(isReq, log) && Flat(log) == Hdrs(Block(FieldLines(trailer)))
    requires IsResidue(Buffer(v, isReq)) && Buffer(v, isReq) != []
    ensures SeeAll(v, log) == (WithBuffer(v, isReq, b), []) && IsResidue(b)
  {
    hide Flat, SeeAll, Hdrs, LogOk, Leftover, Swallowed, FieldLines, Block, TrailerOk, IsHeaderBlock, IsResidue;
    if trailer == [] {
      NoTrailerBlock();
      EmptyTrailerFollows(Buffer(v, isReq));
      b := LeftoverSwallows(v, isReq, log, CRLF, CRLF);
      AfterEmptyTrailer(Buffer(v, isReq), b);
    } else {
      TrailerBlock(trailer);
      b := BlockIsDropped(v, isReq, log, Block(FieldLines(trailer)));
    }
  }

  /** A trailer section, behind nothing or a leftover: nothing is read from it. */
  lemma TrailerMuted(v: View, isReq: bool, log: seq<Piece>, trailer: seq<Field>) returns (b: bytes)
    requires TrailerOk(trailer) && LogOk(isReq, log) && Flat(log) == Hdrs(Block(FieldLines(trailer))) + [End]
    requires IsResidue(Buffer(v, isReq))
    requires isReq || v.pending.None? || trailer == [] || !(P.HTTP_SLASH <= trailer[0].name)
    ensures SeeAll(v, log) == (WithBuffer(v, isReq, b), []) && IsResidue(b)
  {
    if Buffer(v, isReq) == [] {
      b := CleanTrailerMuted(v, isReq, log, trailer);
    } else {
      hide Flat, SeeAll, Hdrs, LogOk, FieldLines, Block, TrailerOk, IsResidue;
      EndedLog(isReq, log, Hdrs(Block(FieldLines(trailer))));
      var n := |log| - 1;
      LogOkPrefix(isReq, log, n);
      b := TrailerDropped(v, isReq, log[..n], trailer);
      assert log == log[..n] + [log[n]];
      SeeAllSnoc(v, log[..n], log[n]);
    }
  }

  lemma CleanTrailerMuted(v: View, isReq: bool, log: seq<Piece>, trailer: seq<Field>) returns (b: bytes)
    requires TrailerOk(trailer) && LogOk(isReq, log) && Flat(log) == Hdrs(Block(FieldLines(trailer))) + [End]
    requires Buffer(v, isReq) == []
    requires isReq || v.pending.None? || trailer == [] || !(P.HTTP_SLASH <= trailer[0].name)
    ensures SeeAll(v, log) == (WithBuffer(v, isReq, b), []) && IsResidue(b)
  {
    var lines := FieldLines(trailer);
    if trailer == [] {
      assert Block(lines) == CRLF by { assert lines == []; assert [] + CRLF == CRLF; }
      hide Flat, SeeAll, Hdrs;
      EmptyTrailerSeen(v, isReq, log);
      b := if LoneLineFeed(log) then CRLF else [];
    } else {
      hide Flat, SeeAll, Hdrs, FieldLines, Block, P.ParseRequestLine, P.ParseStatusLine, IsWhole, AreFields, LogOk;
      FieldsAreLines(trailer);
      BlockIsWhole(lines);
      WholeBlock(v, isReq, log, Block(lines));
      TrailerIsNoRequest(trailer);
      if !isReq && v.pending.Some? { TrailerIsNoStatus(trailer); }
      b := [];
      assert WithBuffer(v, isReq, []) == v;
    }
  }

  lemma ContentMuted(cfg: Config, v: View, log: seq<Piece>, c: Content) returns (b: bytes)
    requires ContentOk(c) && LogOk(cfg.isReq, log) && Flat(log) == ContentOut(cfg, c)
    requires IsResidue(Buffer(v, cfg.isReq))
    requires cfg.isReq || v.pending.None? || Quiet(c, log)
    ensures SeeAll(v, log) == (WithBuffer(v, cfg.isReq, b), []) && IsResidue(b)
  {
    hide Flat, SeeAll, Hdrs, Bodies, Take, Decoded, FieldLines, Block, NoHdr;
    var budget := if cfg.skip then 0 else CAPTURE_MAX;
    b := Buffer(v, cfg.isReq);
    assert WithBuffer(v, cfg.isReq, b) == v;
    match c
    case Nothing => SilentLog(v, cfg.isReq, log);
    case Whole(data) =>
      NoHdrInBody(Take(data, budget));
      CalmPieces(v, cfg.isReq, log);
    case Chunks(chunks, last, trailer) =>
      assert TrailerOk(trailer);
      b := ChunksMuted(v, cfg.isReq, log, Take(Decoded(chunks), budget), trailer);
  }

  lemma ChunksMuted(v: View, isReq: bool, log: seq<Piece>, d: bytes, trailer: seq<Field>) returns (b: bytes)
    requires TrailerOk(trailer) && LogOk(isReq, log)
    requires Flat(log) == Bodies(d) + [End] + (Hdrs(Block(FieldLines(trailer))) + [End])
    requires IsResidue(Buffer(v, isReq)) && Calm(v, isReq, log)
    requires isReq || v.pending.None? || trailer == [] || !(P.HTTP_SLASH <= trailer[0].name)
    ensures SeeAll(v, log) == (WithBuffer(v, isReq, b), []) && IsResidue(b)
  {
    hide Flat, SeeAll, Hdrs, Bodies, FieldLines, Block, NoHdr, TrailerOk, LogOk;
    var x, y := CutAtEnd(isReq, log, Bodies(d), Hdrs(Block(FieldLines(trailer))) + [End]);
    NoHdrInBody(d);
    assert Calm(v, isReq, x) by { assert forall i :: 0 <= i < |x| ==> x[i] == log[i]; }
    CalmPieces(v, isReq, x);
    b := TrailerMuted(v, isReq, y, trailer);
    SeeAllConcat(v, x, y);
    assert [] + SeeAll(v, y).1 == [];
  }

  /** A message behind a leftover: nothing is read from it. */
  lemma MessageMuted(cfg: Config, v: View, log: seq<Piece>, block: bytes, c: Content) returns (b: bytes)
    requires LogOk(cfg.isReq, log) && Flat(log) == MessageOut(cfg, block, c) && ContentOk(c)
    requires IsHeaderBlock(block) && IsResidue(Buffer(v, cfg.isReq)) && Buffer(v, cfg.isReq) != []
    requires cfg.isReq || v.pending.None? || Quiet(c, log)
    ensures SeeAll(v, log) == (WithBuffer(v, cfg.isReq, b), []) && IsResidue(b)
  {
    hide Flat, SeeAll, Hdrs, ContentOut, ContentOk, LogOk, IsHeaderBlock, IsResidue;
    var isReq := cfg.isReq;
    var x, y := CutAtEnd(isReq, log, Hdrs(block), ContentOut(cfg, c));
    EndedLog(isReq, x, Hdrs(block));
    var n := |x| - 1;
    LogOkPrefix(isReq, x, n);
    var b0 := BlockIsDropped(v, isReq, x[..n], block);
    assert x == x[..n] + [x[n]];
    SeeAllSnoc(v, x[..n], x[n]);
    var u := WithBuffer(v, isReq, b0);
    assert Quiet(c, log) ==> Quiet(c, y) by { assert forall i :: 0 <= i < |y| ==> y[i] == log[|x| + i]; }
    b := ContentMuted(cfg, u, y, c);
    SeeAllConcat(v, x, y);
    assert WithBuffer(u, isReq, b) == WithBuffer(v, isReq, b);
    assert [] + SeeAll(u, y).1 == [];
  }

  // ---------------------------------------------------------------------------
  // Counting answers
  // ---------------------------------------------------------------------------

  /** Whether a request waits. */
  function Waiting(v: View): nat {
    if v.pending.Some? then 1 else 0
  }

  /** What server events do: each answer takes the request that waits. */
  ghost predicate Conserves(v: View, r: (View, seq<Answer>)) {
    |r.1| + Waiting(r.0) == Waiting(v) && r.0.client == v.client
  }

  lemma ServerBytesConserve(v: View, payload: bytes)
    ensures Conserves(v, ServerBytes(v, payload))
  {
    hide P.ParseStatusLine, P.Incoming, P.Complete;
  }

  lemma {:induction false} ServerPayloadConserves(v: View, payload: bytes)
    ensures Conserves(v, ServerPayload(v, payload))
    decreases |payload|
  {
    hide ServerBytes, P.BlockEnd;
    if v.pending.Some? && v.server == [] && P.RESPONSE_PREFIX <= payload {
      var end := P.BlockEnd(payload);
      if end == -1 || end == |payload| {
        ServerBytesConserve(v, payload);
      } else {
        ServerBytesConserve(v, payload[..end]);
        ServerPayloadConserves(ServerBytes(v, payload[..end]).0, payload[end..]);
      }
    }
  }

  /** Over the events of a response there are as many answers as requests that stop waiting. */
  lemma {:induction false} ResponsesConserve(v: View, log: seq<Piece>)
    requires LogOk(false, log)
    ensures Conserves(v, SeeAll(v, log))
  {
    if log == [] {
      SeeAllEmpty(v);
    } else {
      var n := |log| - 1;
      LogOkPrefix(false, log, n);
      LogOkAt(false, log, n);
      assert log == log[..n] + [log[n]];
      hide SeeAll, ServerBytes, ServerPayload, LogOk;
      ResponsesConserve(v, log[..n]);
      SeeAllSnoc(v, log[..n], log[n]);
      if log[n].Sent? {
        var u := SeeAll(v, log[..n]).0;
        ServerBytesConserve(u, log[n].e.payload);
        ServerPayloadConserves(u, log[n].e.payload);
      }
    }
  }

  lemma {:induction false} ConversationLogConcat(a: seq<Trace>, b: seq<Trace>)
    ensures ConversationLog(a + b) == ConversationLog(a) + ConversationLog(b)
  {
    hide TurnLog;
    if b == [] {
      assert a + b == a;
    } else {
      var n := |b| - 1;
      ConversationLogConcat(a, b[..n]);
      assert (a + b)[..|a + b| - 1] == a + b[..n];
      assert ConversationLog(a) + ConversationLog(b[..n]) + TurnLog(b[n]) == ConversationLog(a) + (ConversationLog(b[..n]) + TurnLog(b[n]));
    }
  }

  /** A conversation up to its i-th exchange, and that exchange. */
  lemma {:induction false} ConversationAt(skip: bool, turns: seq<Turn>, trs: seq<Trace>, i: nat)
    requires Conversation(skip, turns, trs) && i < |turns|
    ensures |trs| == |turns| && Conversation(skip, turns[..i], trs[..i]) && TurnOk(turns[i])
    ensures Ready(AfterAll(skip, turns[..i])) && Traced(skip, AfterAll(skip, turns[..i]), turns[i], trs[i])
    decreases |turns|
  {
    hide TurnOk, Traced, AfterAll, Ready;
    var n := |turns| - 1;
    if i < n {
      ConversationAt(skip, turns[..n], trs[..n], i);
      assert turns[..n][..i] == turns[..i] && trs[..n][..i] == trs[..i];
    } else {
      ReadyAfterAll(skip, turns[..n], trs[..n]);
    }
  }

  lemma ConversationLength(skip: bool, turns: seq<Turn>, trs: seq<Trace>)
    requires Conversation(skip, turns, trs)
    ensures |trs| == |turns|
  {
  }

  // ---------------------------------------------------------------------------
  // What is lost
  // ---------------------------------------------------------------------------

  /** The log of a conversation around its i-th exchange and the one after it. */
  lemma AroundPair(trs: seq<Trace>, i: nat)
    requires i + 1 < |trs|
    ensures ConversationLog(trs) ==
      ConversationLog(trs[..i]) + (TurnLog(trs[i]) + TurnLog(trs[i + 1])) + ConversationLog(trs[i + 2..])
  {
    hide TurnLog, ConversationLog;
    var a, b := trs[..i], trs[i + 2..];
    TwoAt(trs, i);
    ConversationLogConcat((a + [trs[i]]) + [trs[i + 1]], b);
    ConversationLogSnoc(a + [trs[i]], trs[i + 1]);
    ConversationLogSnoc(a, trs[i]);
    ConcatThree(ConversationLog(a), TurnLog(trs[i]), TurnLog(trs[i + 1]));
  }

  lemma TwoAt<T>(s: seq<T>, i: nat)
    requires i + 1 < |s|
    ensures s == ((s[..i] + [s[i]]) + [s[i + 1]]) + s[i + 2..]
  {
  }

  lemma ConcatThree<T>(x: seq<T>, y: seq<T>, z: seq<T>)
    ensures (x + y) + z == x + (y + z)
  {
  }

  lemma ConversationLogSnoc(trs: seq<Trace>, tr: Trace)
    ensures ConversationLog(trs + [tr]) == ConversationLog(trs) + TurnLog(tr)
  {
    hide TurnLog;
    assert (trs + [tr])[..|trs|] == trs;
  }

  lemma BlocksOfTurn(t: Turn)
    requires TurnOk(t)
    ensures IsHeaderBlock(QueryBlock(t.q)) && ContentOk(t.q.content) && IsHeaderBlock(ReplyBlock(t.r)) && ContentOk(t.r.content)
  {
    hide IsHeaderBlock, ContentOk, P.IsHttpMethod, Decimal, Framed, HeaderBlock, InOrder;
    var q, r := t.q, t.r;
    QueryFields(q);
    StartIsLine(RequestLine(q.verb, q.path, q.version), q.verb, q.path + [SP] + q.version);
    WholeAndEnded(RequestLine(q.verb, q.path, q.version), q.fields);
    ReplyFields(r, q.verb);
    assert NoLineEnd(r.code + r.reason) by { assert forall i :: 0 <= i < 3 ==> IsDigit(r.code[i]); }
    StartIsLine(StatusLine(r.version, r.code, r.reason), r.version, r.code + r.reason);
    WholeAndEnded(StatusLine(r.version, r.code, r.reason), r.fields);
  }

  lemma WholeAndEnded(start: bytes, fields: seq<Field>)
    requires IsLine(start) && AreFields(fields) && |HeaderBlock(start, fields)| <= CAPTURE_MAX
    ensures IsHeaderBlock(HeaderBlock(start, fields))
  {
    assert start != [] && start[0] != LF;
    hide IsWhole, IsLine, P.EndsBlock;
    BlockIsWholeToo(start, fields);
    BlockLinesAreLines(start, fields);
    BlockEndsBlock([start] + FieldLines(fields));
    HeaderBlockIs(start, fields);
  }

  /** A request behind a leftover is not waited with. */
  lemma RequestMuted(skip: bool, k: Kernel, t: Turn, tr: Trace, v: View) returns (b: bytes)
    requires TurnOk(t) && Traced(skip, k, t, tr) && Ready(k) && IsResidue(v.client) && v.client != []
    ensures SeeAll(v, AllLog(tr.sent)) == (v.(client := b), []) && IsResidue(b)
  {
    hide Flat, SeeAll, LogOk, TurnOk, Traced, Ready, MessageOut, QueryBlock, IsHeaderBlock, ContentOk, AllLog, TrailerCut,
      CutsTrailer, IsResidue, Quiet;
    BlocksOfTurn(t);
    RequestLogged(skip, k, t, tr);
    b := MessageMuted(Config(true, skip), v, AllLog(tr.sent), QueryBlock(t.q), t.q.content);
  }

  /** A response behind a leftover is not paired, unless something in it looks like a response. */
  lemma ResponseMuted(skip: bool, k: Kernel, t: Turn, tr: Trace, v: View)
    requires TurnOk(t) && Traced(skip, k, t, tr) && Ready(k) && v.server == CRLF
    requires Quiet(t.r.content, AllLog(tr.received))
    ensures SeeAll(v, AllLog(tr.received)).1 == []
  {
    assert IsResidue(CRLF);
    hide Flat, SeeAll, LogOk, TurnOk, Traced, Ready, TrailerCut, CutsTrailer, MessageOut, ReplyBlock, IsHeaderBlock, ContentOk,
      Quiet, IsResidue, AllLog;
    BlocksOfTurn(t);
    ResponseLogged(skip, k, t, tr);
    var b := MessageMuted(Config(false, skip), v, AllLog(tr.received), ReplyBlock(t.r), t.r.content);
  }

  /** In whatever order its buffers come and whatever is left over from before, the parser sees the request
      of an exchange and then its response. */
  lemma AnyTurnInOrder(skip: bool, k: Kernel, t: Turn, tr: Trace, v: View)
    requires TurnOk(t) && Traced(skip, k, t, tr) && Ready(k) && IsResidue(v.client)
    ensures LogOk(true, AllLog(tr.sent)) && LogOk(false, AllLog(tr.received))
    ensures SeeAll(v, TurnLog(tr)) == SeeAll(v, AllLog(tr.sent) + AllLog(tr.received))
  {
    hide SeeAll, LogOk, TurnOk, Traced, Ready, Flat, MessageOut, AllLog, TrailerCut, CutsTrailer, QueryBlock, ReplyBlock,
      IsResidue, SilentWhenMixed;
    RequestLogged(skip, k, t, tr);
    ResponseLogged(skip, k, t, tr);
    if v.client == [] {
      TurnInOrder(skip, k, t, tr, v);
    } else {
      TraceFits(skip, k, t, tr);
      var b := RequestMuted(skip, k, t, tr, View(v.client, [], None));
      AllSilent(v, tr.order, tr.sent);
      OrderDoesNotMatter(v, tr.order, tr.sent, tr.received);
    }
  }

  /** What a request does to the parser, whatever is left over from before. */
  lemma AnyRequest(skip: bool, k: Kernel, t: Turn, tr: Trace, v: View)
    requires TurnOk(t) && Traced(skip, k, t, tr) && Ready(k) && IsResidue(v.client)
    ensures var r := SeeAll(v, AllLog(tr.sent)); r.1 == [] && IsResidue(r.0.client)
  {
    assert IsResidue(LeftOver(t.q.content, t.sent));
    hide SeeAll, TurnOk, Traced, Ready, AllLog, LeftOver, IsResidue;
    if v.client == [] {
      RequestSeen(skip, k, t, tr, v);
    } else {
      var b := RequestMuted(skip, k, t, tr, v);
    }
  }

  /** Whatever came before, an exchange is answered at most once. */
  lemma AtMostOne(skip: bool, k: Kernel, t: Turn, tr: Trace, v: View)
    requires TurnOk(t) && Traced(skip, k, t, tr) && Ready(k) && IsResidue(v.client)
    ensures var r := SeeAll(v, TurnLog(tr)); |r.1| <= 1 && IsResidue(r.0.client)
  {
    hide SeeAll, LogOk, AllLog, TurnOk, Traced, Ready, TurnLog, IsResidue;
    AnyTurnInOrder(skip, k, t, tr, v);
    AnyRequest(skip, k, t, tr, v);
    var x, y := AllLog(tr.sent), AllLog(tr.received);
    SeeAllConcat(v, x, y);
    ResponsesConserve(SeeAll(v, x).0, y);
  }

  lemma {:induction false} AtMostOneEach(skip: bool, turns: seq<Turn>, trs: seq<Trace>, m: nat, n: nat, v: View)
    requires Conversation(skip, turns, trs) && m <= n <= |turns| && IsResidue(v.client)
    ensures |trs| == |turns|
    ensures var r := SeeAll(v, ConversationLog(trs[m..n])); |r.1| <= n - m && IsResidue(r.0.client)
    decreases n
  {
    hide SeeAll, TurnLog, Conversation, TurnOk, Traced, Ready, AfterAll, IsResidue;
    ConversationLength(skip, turns, trs);
    if m == n {
      SeeAllEmpty(v);
    } else {
      AtMostOneEach(skip, turns, trs, m, n - 1, v);
      ConversationAt(skip, turns, trs, n - 1);
      assert trs[m..n][..n - m - 1] == trs[m..n - 1] && trs[m..n][n - m - 1] == trs[n - 1];
      var a := ConversationLog(trs[m..n - 1]);
      SeeAllConcat(v, a, TurnLog(trs[n - 1]));
      AtMostOne(skip, AfterAll(skip, turns[..n - 1]), turns[n - 1], trs[n - 1], SeeAll(v, a).0);
    }
  }

  lemma AtMostOneBefore(skip: bool, turns: seq<Turn>, trs: seq<Trace>, i: nat)
    requires Conversation(skip, turns, trs) && i <= |turns|
    ensures |trs| == |turns| && |SeeAll(IDLE, ConversationLog(trs[..i])).1| <= i
  {
    assert IsResidue(IDLE.client);
    hide SeeAll, ConversationLog, Conversation, IsResidue;
    AtMostOneEach(skip, turns, trs, 0, i, IDLE);
    assert trs[0..i] == trs[..i];
  }

  lemma AtMostOneAfter(skip: bool, turns: seq<Turn>, trs: seq<Trace>, i: nat, v: View)
    requires Conversation(skip, turns, trs) && i <= |turns| && IsResidue(v.client)
    ensures |trs| == |turns| && |SeeAll(v, ConversationLog(trs[i..])).1| <= |turns| - i
  {
    hide SeeAll, ConversationLog, Conversation, IsResidue;
    AtMostOneEach(skip, turns, trs, i, |turns|, v);
    assert trs[i..|turns|] == trs[i..];
  }

  /** If two exchanges in a row have one answer at most, the conversation has fewer answers than exchanges. */
  lemma PairLosesOne(skip: bool, turns: seq<Turn>, trs: seq<Trace>, i: nat)
    requires Conversation(skip, turns, trs) && i + 1 < |turns| == |trs|
    requires var r := SeeAll(SeeAll(IDLE, ConversationLog(trs[..i])).0, TurnLog(trs[i]) + TurnLog(trs[i + 1]));
      |r.1| <= 1 && IsResidue(r.0.client)
    ensures |SeeAll(IDLE, ConversationLog(trs)).1| < |turns|
  {
    hide SeeAll, TurnLog, ConversationLog, Conversation, IsResidue;
    AroundPair(trs, i);
    AtMostOneBefore(skip, turns, trs, i);
    var x, y := ConversationLog(trs[..i]), TurnLog(trs[i]) + TurnLog(trs[i + 1]);
    AtMostOneAfter(skip, turns, trs, i + 2, SeeAll(SeeAll(IDLE, x).0, y).0);
    ThreeParts(IDLE, x, y, ConversationLog(trs[i + 2..]));
  }

  lemma ThreeParts(v: View, x: seq<Piece>, y: seq<Piece>, z: seq<Piece>)
    ensures var u := SeeAll(v, x).0;
      |SeeAll(v, x + y + z).1| == |SeeAll(v, x).1| + |SeeAll(u, y).1| + |SeeAll(SeeAll(u, y).0, z).1|
  {
    hide SeeAll;
    SeeAllConcat(v, x, y);
    SeeAllConcat(v, x + y, z);
  }

  predicate RequestCut(t: Turn) {
    CutsTrailer(t.q.content, t.sent)
  }

  lemma TurnKeepsClientClean(skip: bool, k: Kernel, t: Turn, tr: Trace, v: View)
    requires TurnOk(t) && Traced(skip, k, t, tr) && Ready(k) && v.client == [] && !RequestCut(t)
    ensures SeeAll(v, TurnLog(tr)).0.client == []
  {
    assert IsResidue(v.client);
    hide SeeAll, TurnOk, Traced, Ready, CutsTrailer, AllLog, LogOk, TurnLog, IsResidue;
    AnyTurnInOrder(skip, k, t, tr, v);
    var x, y := AllLog(tr.sent), AllLog(tr.received);
    RequestSeen(skip, k, t, tr, v);
    ResponsesConserve(SeeAll(v, x).0, y);
    SeeAllConcat(v, x, y);
  }

  lemma {:induction false} ClientStaysClean(skip: bool, turns: seq<Turn>, trs: seq<Trace>)
    requires Conversation(skip, turns, trs) && forall i :: 0 <= i < |turns| ==> !RequestCut(turns[i])
    ensures SeeAll(IDLE, ConversationLog(trs)).0.client == []
    decreases |turns|
  {
    hide SeeAll, TurnOk, Traced, AfterAll, Ready, RequestCut, TurnLog, Conversation;
    ConversationLength(skip, turns, trs);
    if turns == [] {
      SeeAllEmpty(IDLE);
    } else {
      var n := |turns| - 1;
      ConversationAt(skip, turns, trs, n);
      ClientStaysClean(skip, turns[..n], trs[..n]);
      TurnKeepsClientClean(skip, AfterAll(skip, turns[..n]), turns[n], trs[n], SeeAll(IDLE, ConversationLog(trs[..n])).0);
      SeeAllConcat(IDLE, ConversationLog(trs[..n]), TurnLog(trs[n]));
    }
  }

  /** The request of an exchange is cut: it and the next one have one answer at most. */
  lemma CutRequestPair(skip: bool, k: Kernel, t: Turn, tr: Trace, k': Kernel, t': Turn, tr': Trace, v: View)
    requires TurnOk(t) && Traced(skip, k, t, tr) && Ready(k) && TurnOk(t') && Traced(skip, k', t', tr') && Ready(k')
    requires v.client == [] && RequestCut(t)
    ensures var r := SeeAll(v, TurnLog(tr) + TurnLog(tr')); |r.1| <= 1 && IsResidue(r.0.client)
  {
    assert IsResidue([]) && IsResidue(CRLF);
    hide SeeAll, TurnOk, Traced, Ready, CutsTrailer, AllLog, LogOk, TurnLog, IsResidue;
    var x, y, x', y' := AllLog(tr.sent), AllLog(tr.received), AllLog(tr'.sent), AllLog(tr'.received);
    AnyTurnInOrder(skip, k, t, tr, v);
    RequestSeen(skip, k, t, tr, v);
    var v1 := SeeAll(v, x).0;
    ResponsesConserve(v1, y);
    var v2 := SeeAll(v1, y).0;
    AnyTurnInOrder(skip, k', t', tr', v2);
    var b := RequestMuted(skip, k', t', tr', v2);
    ResponsesConserve(SeeAll(v2, x').0, y');
    SeeAllConcat(v, x, y);
    SeeAllConcat(v2, x', y');
    SeeAllConcat(v, TurnLog(tr), TurnLog(tr'));
  }

  /** The response of an exchange is cut: the next one has no answer, unless its response looks like two. */
  lemma CutResponsePair(skip: bool, k: Kernel, t: Turn, tr: Trace, k': Kernel, t': Turn, tr': Trace)
    requires TurnOk(t) && Traced(skip, k, t, tr) && Ready(k) && TurnOk(t') && Traced(skip, k', t', tr') && Ready(k')
    requires !RequestCut(t) && !Uncut(t) && Quiet(t'.r.content, AllLog(tr'.received))
    ensures var r := SeeAll(IDLE, TurnLog(tr) + TurnLog(tr')); |r.1| <= 1 && IsResidue(r.0.client)
  {
    assert IsResidue([]);
    hide SeeAll, TurnOk, Traced, Ready, CutsTrailer, AllLog, LogOk, Quiet, Decimal, TurnLog, IsResidue;
    var x', y' := AllLog(tr'.sent), AllLog(tr'.received);
    TurnSeen(skip, k, t, tr);
    var v := SeeAll(IDLE, TurnLog(tr)).0;
    AnyTurnInOrder(skip, k', t', tr', v);
    AnyRequest(skip, k', t', tr', v);
    RequestSeen(skip, k', t', tr', v);
    ResponseMuted(skip, k', t', tr', SeeAll(v, x').0);
    ResponsesConserve(SeeAll(v, x').0, y');
    SeeAllConcat(v, x', y');
    SeeAllConcat(IDLE, TurnLog(tr), TurnLog(tr'));
  }

  lemma {:induction false} FirstRequestCut(turns: seq<Turn>, i: nat) returns (m: nat)
    requires i < |turns| && RequestCut(turns[i])
    ensures m <= i && RequestCut(turns[m]) && forall j :: 0 <= j < m ==> !RequestCut(turns[j])
    decreases i
  {
    hide RequestCut;
    m := i;
    if j :| 0 <= j < i && RequestCut(turns[j]) {
      m := FirstRequestCut(turns, j);
    }
  }

  lemma FirstRequestCutLoses(skip: bool, turns: seq<Turn>, trs: seq<Trace>, m: nat)
    requires Conversation(skip, turns, trs) && m + 1 < |turns| && RequestCut(turns[m])
    requires forall j :: 0 <= j < m ==> !RequestCut(turns[j])
    ensures |SeeAll(IDLE, ConversationLog(trs)).1| < |turns|
  {
    hide Conversation, SeeAll, ConversationLog, TurnLog, TurnOk, Traced, Ready, AfterAll, RequestCut, IsResidue;
    ConversationLength(skip, turns, trs);
    ConversationAt(skip, turns, trs, m);
    ConversationAt(skip, turns, trs, m + 1);
    ClientStaysClean(skip, turns[..m], trs[..m]);
    var v := SeeAll(IDLE, ConversationLog(trs[..m])).0;
    var k, k' := AfterAll(skip, turns[..m]), AfterAll(skip, turns[..m + 1]);
    CutRequestPair(skip, k, turns[m], trs[m], k', turns[m + 1], trs[m + 1], v);
    PairLosesOne(skip, turns, trs, m);
  }

  /** A request whose trailer's line end is cut, with an exchange after it, costs an answer, whatever else
      happens in the conversation. */
  lemma CutRequestLosesAnExchange(skip: bool, turns: seq<Turn>, trs: seq<Trace>, i: nat)
    requires Conversation(skip, turns, trs) && i + 1 < |turns| && CutsTrailer(turns[i].q.content, turns[i].sent)
    ensures |SeeAll(IDLE, ConversationLog(trs)).1| < |turns|
  {
    hide Conversation, SeeAll, ConversationLog, CutsTrailer;
    assert RequestCut(turns[i]);
    var m := FirstRequestCut(turns, i);
    FirstRequestCutLoses(skip, turns, trs, m);
  }

  /** A response whose trailer's line end is cut costs the next answer, if it is the first such cut and
      nothing in the next response looks like a response. */
  lemma CutResponseLosesAnExchange(skip: bool, turns: seq<Turn>, trs: seq<Trace>, i: nat)
    requires Conversation(skip, turns, trs) && i + 1 < |turns| && AllUncut(turns[..i])
    requires CutsTrailer(turns[i].r.content, turns[i].received) && |trs| == |turns|
    requires Quiet(turns[i + 1].r.content, AllLog(trs[i + 1].received))
    ensures |SeeAll(IDLE, ConversationLog(trs)).1| < |turns|
  {
    if RequestCut(turns[i]) {
      CutRequestLosesAnExchange(skip, turns, trs, i);
    } else {
      assert !Uncut(turns[i]);
      hide Conversation, SeeAll, ConversationLog, TurnLog, TurnOk, Traced, Ready, AfterAll, RequestCut, Quiet, Uncut, IsResidue;
      ConversationAt(skip, turns, trs, i);
      ConversationAt(skip, turns, trs, i + 1);
      ConversationSeen(skip, turns[..i], trs[..i]);
      UncutLeavesNothing(turns[..i]);
      CutResponsePair(skip, AfterAll(skip, turns[..i]), turns[i], trs[i], AfterAll(skip, turns[..i + 1]), turns[i + 1], trs[i + 1]);
      PairLosesOne(skip, turns, trs, i);
    }
  }

  ghost predicate AllQuiet(turns: seq<Turn>, trs: seq<Trace>) {
    |trs| == |turns| && forall i :: 0 <= i < |turns| ==> Quiet(turns[i].r.content, AllLog(trs[i].received))
  }

  lemma {:induction false} FirstCut(turns: seq<Turn>, i: nat) returns (m: nat)
    requires i < |turns| && !Uncut(turns[i])
    ensures m <= i && !Uncut(turns[m]) && AllUncut(turns[..m])
    decreases i
  {
    hide Uncut;
    m := i;
    if j :| 0 <= j < i && !Uncut(turns[j]) {
      m := FirstCut(turns, j);
    }
  }

  lemma AnyCutLosesAnExchange(skip: bool, turns: seq<Turn>, trs: seq<Trace>, i: nat)
    requires Conversation(skip, turns, trs) && AllQuiet(turns, trs) && i + 1 < |turns| && !Uncut(turns[i])
    ensures |SeeAll(IDLE, ConversationLog(trs)).1| < |turns|
  {
    hide Conversation, SeeAll, ConversationLog, Quiet, CutsTrailer, AllUncut;
    var m := FirstCut(turns, i);
    if CutsTrailer(turns[m].q.content, turns[m].sent) {
      CutRequestLosesAnExchange(skip, turns, trs, m);
    } else {
      CutResponseLosesAnExchange(skip, turns, trs, m);
    }
  }

  /** What is said of exchanges: what is returned and, with bodies, what is still held. */
  function Said(o: P.Options, r: (P.State, seq<P.Request>)): seq<Answer> {
    if o.enabled then CoreAnswers(P.Cores(r.1) + P.HeldCore(r.0)) else Answers(r.1)
  }

  /** The exact condition: where no response looks like two, every exchange is reported if and only if no
      line end of an empty trailer section is cut before the last exchange. */
  lemma ReportedIffNoTrailerCut(skip: bool, turns: seq<Turn>, trs: seq<Trace>, o: P.Options, ins: seq<P.Input>)
    requires Conversation(skip, turns, trs) && AllQuiet(turns, trs) && Parsed(ins) == Events(ConversationLog(trs))
    ensures AnswersAre(turns, Said(o, P.HandleAll(o, P.EMPTY, ins))) <==> NoTrailerCut(turns)
  {
    hide Conversation, AllQuiet, SeeAll, P.HandleAll, Parsed, Events, Uncut, P.Cores, P.HeldCore;
    if NoTrailerCut(turns) {
      if o.enabled {
        EveryExchangeIsReportedOrHeld(skip, turns, trs, o, ins);
      } else {
        EveryExchangeIsReported(skip, turns, trs, o, ins);
      }
    } else {
      var i :| 0 <= i < |turns| - 1 && !Uncut(turns[i]);
      AnyCutLosesAnExchange(skip, turns, trs, i);
      PlainParserSees(P.Plain(o), ConversationLog(trs), ins);
      if o.enabled {
        P.BodiesRefinePlain(o, ins);
      } else {
        assert P.Plain(o) == o;
      }
    }
  }

  // ---------------------------------------------------------------------------
  // Responses that look like one
  // ---------------------------------------------------------------------------

  predicate IsAt(x: bytes, d: bytes, i: int) {
    0 <= i <= |d| - |x| && forall j :: 0 <= j < |x| ==> d[i + j] == x[j]
  }

  /** Whether x is somewhere in d. */
  ghost predicate Within(x: bytes, d: bytes) {
    exists i :: IsAt(x, d, i)
  }

  function DataOf(c: Content): bytes {
    match c
    case Nothing => []
    case Whole(data) => data
    case Chunks(chunks, _, _) => Decoded(chunks)
  }

  /** No data that is captured and no trailer of a response begins like a response, wherever it is cut. */
  ghost predicate OnlyItself(skip: bool, c: Content) {
    && (skip || !Within(P.RESPONSE_PREFIX, DataOf(c)))
    && (c.Chunks? && c.trailer != [] ==> !(P.HTTP_SLASH <= c.trailer[0].name))
  }

  lemma PieceInLog(log: seq<Piece>, i: nat)
    requires i < |log|
    ensures Flat(log) == Flat(log[..i]) + Shown(log[i]) + Flat(log[i + 1..])
  {
    hide Shown;
    SplitAt(log, i);
    assert log == log[..i + 1] + log[i + 1..];
    FlatConcat(log[..i + 1], log[i + 1..]);
    assert log[..i + 1][..i] == log[..i];
  }

  /** Where the body bytes are in what a message says. */
  lemma BodyByteAt(cfg: Config, block: bytes, c: Content, j: nat)
    requires var out := MessageOut(cfg, block, c); j < |out| && out[j].Body?
    ensures !cfg.skip && |block| < j <= |block| + |DataOf(c)| && MessageOut(cfg, block, c)[j] == Body(DataOf(c)[j - |block| - 1])
  {
  }

  /** Body bytes next to each other in what a message says are next to each other in its data. */
  lemma BodyRun(cfg: Config, block: bytes, c: Content, x: bytes, a: seq<Out>, b: seq<Out>)
    requires x != [] && MessageOut(cfg, block, c) == a + Bodies(x) + b
    ensures !cfg.skip && Within(x, DataOf(c))
  {
    hide MessageOut, DataOf;
    var q := |a| - |block| - 1;
    BodyOfRun(cfg, block, c, x, a, b, 0);
    BodyOfRun(cfg, block, c, x, a, b, |x| - 1);
    forall j | 0 <= j < |x|
      ensures DataOf(c)[q + j] == x[j]
    {
      BodyOfRun(cfg, block, c, x, a, b, j);
    }
    assert IsAt(x, DataOf(c), q);
  }

  lemma BodyOfRun(cfg: Config, block: bytes, c: Content, x: bytes, a: seq<Out>, b: seq<Out>, j: nat)
    requires j < |x| && MessageOut(cfg, block, c) == a + Bodies(x) + b
    ensures var q := |a| - |block| - 1; !cfg.skip && 0 <= q + j < |DataOf(c)| && DataOf(c)[q + j] == x[j]
  {
    hide MessageOut, DataOf;
    assert MessageOut(cfg, block, c)[|a| + j] == Bodies(x)[j];
    BodyByteAt(cfg, block, c, |a| + j);
  }

  lemma OnlyItselfIsQuiet(skip: bool, k: Kernel, t: Turn, tr: Trace)
    requires TurnOk(t) && Traced(skip, k, t, tr) && Ready(k) && OnlyItself(skip, t.r.content)
    ensures Quiet(t.r.content, AllLog(tr.received))
  {
    hide Flat, TurnOk, Traced, Ready, MessageOut, ReplyBlock, AllLog, Within;
    ResponseLogged(skip, k, t, tr);
    var log := AllLog(tr.received);
    forall i | 0 <= i < |log|
      ensures !LooksLikeResponse(log[i])
    {
      if LooksLikeResponse(log[i]) {
        PieceInLog(log, i);
        var x, rest := P.RESPONSE_PREFIX, log[i].e.payload[|P.RESPONSE_PREFIX|..];
        assert Bodies(log[i].e.payload) == Bodies(x) + Bodies(rest);
        assert Flat(log) == Flat(log[..i]) + Bodies(x) + (Bodies(rest) + Flat(log[i + 1..]));
        BodyRun(Config(false, skip), ReplyBlock(t.r), t.r.content, x, Flat(log[..i]), Bodies(rest) + Flat(log[i + 1..]));
      }
    }
  }

  lemma AllAreQuiet(skip: bool, turns: seq<Turn>, trs: seq<Trace>)
    requires Conversation(skip, turns, trs) && forall i :: 0 <= i < |turns| ==> OnlyItself(skip, turns[i].r.content)
    ensures AllQuiet(turns, trs)
  {
    hide Conversation, OnlyItself, Quiet, TurnOk, Traced, Ready, AfterAll;
    ConversationLength(skip, turns, trs);
    forall i | 0 <= i < |turns|
      ensures Quiet(turns[i].r.content, AllLog(trs[i].received))
    {
      ConversationAt(skip, turns, trs, i);
      OnlyItselfIsQuiet(skip, AfterAll(skip, turns[..i]), turns[i], trs[i]);
    }
  }

  /** The same of the parser, with bodies kept or not: what is returned and what is held. */
  lemma CutRequestIsNotReported(skip: bool, turns: seq<Turn>, trs: seq<Trace>, o: P.Options, ins: seq<P.Input>, i: nat)
    requires Conversation(skip, turns, trs) && i + 1 < |turns| && CutsTrailer(turns[i].q.content, turns[i].sent)
    requires Parsed(ins) == Events(ConversationLog(trs))
    ensures var r := P.HandleAll(o, P.EMPTY, ins); |r.1| + |P.HeldCore(r.0)| < |turns|
  {
    hide Conversation, SeeAll, P.HandleAll, Parsed, Events, CutsTrailer;
    CutRequestLosesAnExchange(skip, turns, trs, i);
    PlainParserSees(P.Plain(o), ConversationLog(trs), ins);
    if o.enabled {
      P.BodiesRefinePlain(o, ins);
    } else {
      assert P.Plain(o) == o;
    }
  }

  const CHUNKED_POST := Query(Ascii("POST"), Ascii("/"), Ascii("HTTP/1.1"), [Field(ENCODING_FIELD, CHUNKED)],
                              Chunks([], Chunk(Ascii("0"), [], [], []), []))
  const NO_CONTENT := Reply(Ascii("HTTP/1.1"), Ascii("204"), [], [], Nothing)

  /** There are such exchanges: a chunked request without data, of which the last byte is a buffer of its own. */
  lemma SomeRequestIsCut() returns (t: Turn)
    ensures TurnOk(t) && CutsTrailer(t.q.content, t.sent)
  {
    hide QueryOk, ReplyOk;
    var x, y := QueryBytes(CHUNKED_POST), ReplyBytes(NO_CONTENT);
    MessagesAreNotEmpty(Turn(CHUNKED_POST, NO_CONTENT, [], [], []));
    hide QueryBytes, ReplyBytes;
    var a, b := x[..|x| - 1], x[|x| - 1..];
    t := Turn(CHUNKED_POST, NO_CONTENT, [a, b], [y], [true, true, false]);
    JoinSnoc([a], b);
    JoinSnoc([], a);
    JoinSnoc([], y);
    assert [a] + [b] == [a, b] && [] + [a] == [a] && [] + [y] == [y];
    PostIsOk();
    NoContentIsOk();
    assert t.sent[..2] == t.sent && |QueryBlock(CHUNKED_POST)| <= |x| by { BlockIsFirst(CHUNKED_POST); }
    hide Join, QueryBlock;
    TwoWritesOneRead();
    assert forall m :: 0 <= m < 3 && !t.order[m] ==> m == 2;
  }

  lemma BlockIsFirst(q: Query)
    ensures |QueryBlock(q)| <= |QueryBytes(q)|
  {
  }

  lemma TwoWritesOneRead()
    ensures Writes([true, true, false]) == 2 && Writes([true, true, false][..2]) == 2
  {
    assert [true, true, false][..2] == [true, true] && [true, true][..1] == [true] && [true][..0] == [];
  }

  lemma PostField()
    ensures var f := CHUNKED_POST.fields[0]; IsField(f) && Reads(f.name, ENCODING_FIELD) && IsChunkedValue(f.value)
  {
    assert IsField(CHUNKED_POST.fields[0]);
    assert Reads(ENCODING_FIELD, ENCODING_FIELD) && Reads(CHUNKED, CHUNKED);
    hide Reads, ENCODING_FIELD;
    var none: bytes := [];
    assert CHUNKED == none + CHUNKED + none && IsOws(none);
  }

  lemma PostFields()
    ensures Declares(CHUNKED_POST.fields, Chunked)
  {
    hide Reads, IsField, IsChunkedValue;
    PostField();
  }

  lemma PostContent()
    ensures ContentOk(CHUNKED_POST.content)
  {
    var last := CHUNKED_POST.content.last;
    assert Hex(last.size) == 0 by { assert last.size[..0] == []; }
    assert FieldLines([]) == [];
  }

  lemma PostIsOk()
    ensures QueryOk(CHUNKED_POST)
  {
    hide Declares, ContentOk, Block, Lines, FieldLines;
    var q := CHUNKED_POST;
    PostFields();
    PostContent();
    var start := RequestLine(q.verb, q.path, q.version);
    HeaderBlockIs(start, q.fields);
    assert FieldLines(q.fields) == [FieldLine(q.fields[0])];
    LinesOne(FieldLine(q.fields[0]));
  }

  lemma NoContentIsOk()
    ensures ReplyOk(NO_CONTENT, Ascii("POST"))
  {
    hide Block, Lines, FieldLines, Decimal;
    var r := NO_CONTENT;
    DecimalOfThree(r.code);
    HeaderBlockIs(StatusLine(r.version, r.code, r.reason), r.fields);
    LinesOfNone();
  }

  lemma LinesOfNone()
    ensures Lines(FieldLines([])) == []
  {
  }
}
