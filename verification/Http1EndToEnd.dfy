/**
From the bytes of an HTTP/1 connection to the requests the agent reports: the kernel side walks the
buffers of the system calls, its events go to the user side's parser, and the parser returns each
exchange. The conversation is not pipelined, header blocks fit the capture budget, responses are
final and framed; how the bytes are cut into buffers, and when the events are parsed, is arbitrary.
*/
module Http1EndToEnd {
  import opened Bytes
  import opened Http1Kernel
  import opened Http1Walk
  import opened Http1Message
  import opened Http1Fields
  import opened Http1Body
  import opened Http1Pairing
  import opened Wrappers
  import P = Http1Parser

  // ---------------------------------------------------------------------------
  // Messages
  // ---------------------------------------------------------------------------

  datatype Content = Nothing | Whole(data: bytes) | Chunks(chunks: seq<Chunk>, last: Chunk, trailer: seq<Field>)

  datatype Query = Query(verb: bytes, path: bytes, version: bytes, fields: seq<Field>, content: Content)

  datatype Reply = Reply(version: bytes, code: bytes, reason: bytes, fields: seq<Field>, content: Content)

  function ContentBytes(c: Content): bytes {
    match c
    case Nothing => []
    case Whole(data) => data
    case Chunks(chunks, last, trailer) => ChunkedBody(chunks, last, trailer)
  }

  function QueryBlock(q: Query): bytes {
    HeaderBlock(RequestLine(q.verb, q.path, q.version), q.fields)
  }

  function ReplyBlock(r: Reply): bytes {
    HeaderBlock(StatusLine(r.version, r.code, r.reason), r.fields)
  }

  ghost predicate ContentOk(c: Content) {
    match c
    case Nothing => true
    case Whole(data) => data != []
    case Chunks(chunks, last, trailer) =>
      && AreChunks(chunks) && IsChunk(last) && last.data == []
      && AreFields(trailer) && (forall i :: 0 <= i < |trailer| ==> NoSpace(trailer[i].name))
      && |Block(FieldLines(trailer))| <= CAPTURE_MAX
  }

  /** The fields say how long the content is. */
  ghost predicate Framed(fields: seq<Field>, c: Content) {
    match c
    case Nothing => Declares(fields, Sized(0))
    case Whole(data) => Declares(fields, Sized(|data|))
    case Chunks(_, _, _) => Declares(fields, Chunked)
  }

  ghost predicate QueryOk(q: Query) {
    && P.IsHttpMethod(q.verb) && NoSpace(q.path) && NoLineEnd(q.path) && NoLineEnd(q.version)
    && ContentOk(q.content) && |QueryBlock(q)| <= CAPTURE_MAX
    && (Framed(q.fields, q.content) || (q.content.Nothing? && Declares(q.fields, Unframed)))
  }

  /** A final response to a request with that method. */
  ghost predicate ReplyOk(r: Reply, verb: bytes) {
    && P.HTTP_SLASH <= r.version && NoSpace(r.version) && NoLineEnd(r.version) && |r.version| < |LENGTH_FIELD|
    && |r.code| == 3 && IsDigits(r.code) && Decimal(r.code) >= 200
    && NoLineEnd(r.reason) && (r.reason == [] || r.reason[0] == SP)
    && ContentOk(r.content) && |ReplyBlock(r)| <= CAPTURE_MAX
    && if Bodiless(r, verb) then r.content.Nothing? && AreFields(r.fields) else Framed(r.fields, r.content)
  }

  /** Responses that end with their headers, whatever they declare (section 6.4.1 of RFC 9110). */
  ghost predicate Bodiless(r: Reply, verb: bytes)
    requires IsDigits(r.code)
  {
    verb == HEAD || Decimal(r.code) == 204 || Decimal(r.code) == 304
  }

  // ---------------------------------------------------------------------------
  // The kernel side over one message
  // ---------------------------------------------------------------------------

  /** What the header block leaves the walk waiting for. */
  ghost predicate Expects(st: State, c: Content) {
    && Ok(st) && st.captured == 0 && st.scan.captured == 0
    && match c
       case Nothing => Clean(st)
       case Whole(data) => st.phase.Data? && st.remaining == |data| && st.scan == Fresh(st.scan.tail)
       case Chunks(_, _, _) => AtSize(st) && st.scan.tail == [LF, CR, LF]
  }

  function ContentOut(cfg: Config, c: Content): seq<Out> {
    var budget := if cfg.skip then 0 else CAPTURE_MAX;
    match c
    case Nothing => []
    case Whole(data) => Bodies(Take(data, budget)) + [End]
    case Chunks(chunks, _, trailer) =>
      Bodies(Take(Decoded(chunks), budget)) + [End] + (Hdrs(Block(FieldLines(trailer))) + [End])
  }

  lemma ContentWalk(cfg: Config, w: Walk, c: Content)
    requires Expects(w.st, c) && ContentOk(c) && (c.Whole? ==> |c.data| < LEN_UNKNOWN)
    ensures var r := Feed(cfg, w, ContentBytes(c));
      Clean(r.0.st) && r.0.head == w.head && r.1 == ContentOut(cfg, c)
  {
    FeedKeepsOk(cfg, w, ContentBytes(c));
    hide Feed, Bodies, Hdrs, Decoded, ChunkedBody, Block, FieldLines;
    match c
    case Nothing => FeedEmpty(cfg, w);
    case Whole(data) => FeedSizedBody(cfg, w, data);
    case Chunks(chunks, last, trailer) =>
      FeedChunkedBody(cfg, w, chunks, last, trailer);
      TakeAll(Block(FieldLines(trailer)));
  }

  lemma TakeAll(b: bytes)
    requires |b| <= CAPTURE_MAX
    ensures Take(b, CAPTURE_MAX) == b
  {
  }

  lemma BlockLinesAreLines(start: bytes, fields: seq<Field>)
    requires IsLine(start) && AreFields(fields)
    ensures AreLines([start] + FieldLines(fields))
  {
    forall i | 0 <= i < |[start] + FieldLines(fields)|
      ensures IsLine(([start] + FieldLines(fields))[i])
    {
      if i > 0 { assert IsField(fields[i - 1]); }
    }
  }

  /** The walk of a header block, and what it leaves. */
  lemma HeaderWalk(cfg: Config, w: Walk, start: bytes, fields: seq<Field>)
    requires Clean(w.st) && IsLine(start) && AreFields(fields) && |HeaderBlock(start, fields)| <= CAPTURE_MAX
    ensures var block := HeaderBlock(start, fields);
      var sc := ScanAll(w.st.scan, block);
      && Feed(cfg, w, block) == (AfterHeaders(cfg, w.st.(scan := sc), w.head), Hdrs(block) + [End])
      && sc.tail == [LF, CR, LF]
      && Ok(AfterHeaders(cfg, w.st.(scan := sc), w.head).st)
  {
    FeedKeepsOk(cfg, w, HeaderBlock(start, fields));
    hide Feed, ScanAll, AfterHeaders, Hdrs;
    BlockLinesAreLines(start, fields);
    FeedBlock(cfg, w, [start] + FieldLines(fields));
    TakeAll(HeaderBlock(start, fields));
  }

  /** The state after a header block is right for the content its fields declare. */
  lemma AfterFramedBlock(cfg: Config, st: State, head: bool, sc: Scan, c: Content)
    requires Clean(st) && sc.tail == [LF, CR, LF]
    requires cfg.isReq || (!head && !StatusHasNoBody(sc.first.code))
    requires c.Chunks? <==> sc.encoding.chunked
    requires c.Whole? ==> sc.length.have && sc.length.value == |c.data| && c.data != []
    requires c.Nothing? ==> if sc.length.have then sc.length.value == 0 else cfg.isReq
    requires Ok(AfterHeaders(cfg, st.(scan := sc), head).st)
    ensures Expects(AfterHeaders(cfg, st.(scan := sc), head).st, c)
  {
  }

  lemma MethodIsShortWord(verb: bytes)
    requires P.IsHttpMethod(verb)
    ensures NoSpace(verb) && NoLineEnd(verb) && 0 < |verb| < |LENGTH_FIELD|
  {
  }

  lemma LengthFits(fields: seq<Field>, n: nat)
    requires Declares(fields, Sized(n))
    ensures n < LENGTH_LIMIT
  {
    var i :| 0 <= i < |fields| && Reads(fields[i].name, LENGTH_FIELD);
    assert IsNumber(fields[i].value, n);
  }

  function QueryBytes(q: Query): bytes {
    QueryBlock(q) + ContentBytes(q.content)
  }

  function ReplyBytes(r: Reply): bytes {
    ReplyBlock(r) + ContentBytes(r.content)
  }

  /** What the walk of a message says. */
  function MessageOut(cfg: Config, block: bytes, c: Content): seq<Out> {
    Hdrs(block) + [End] + ContentOut(cfg, c)
  }

  /** A framed message from its block on. */
  lemma MessageWalk(cfg: Config, w: Walk, start: bytes, word: bytes, fields: seq<Field>, framing: Framing, c: Content)
    requires Clean(w.st) && StartsWith(start, word) && Declares(fields, framing) && ContentOk(c)
    requires |HeaderBlock(start, fields)| <= CAPTURE_MAX
    requires cfg.isReq || (!w.head && !StatusHasNoBody(FirstAll(FIRST0, HeaderBlock(start, fields)).code))
    requires match c
      case Nothing => framing == Sized(0) || (cfg.isReq && framing == Unframed)
      case Whole(data) => framing == Sized(|data|)
      case Chunks(_, _, _) => framing == Chunked
    ensures var block := HeaderBlock(start, fields);
      var r := Feed(cfg, w, block + ContentBytes(c));
      && Clean(r.0.st) && r.1 == MessageOut(cfg, block, c)
      && (cfg.isReq ==> var f := FirstAll(FIRST0, block); r.0.head == (f.wordLen == 4 && !f.notHead))
      && (!cfg.isReq ==> !r.0.head)
      && TrailerAhead(cfg, w, block, c) && HeadPasses(cfg, w, block, c)
  {
    hide Feed, ScanAll, FirstAll, HeaderBlock, Hdrs, ContentOut, ContentBytes, ContentOk, TrailerAhead;
    var block := HeaderBlock(start, fields);
    HeaderWalk(cfg, w, start, fields);
    ScanFindsFraming(start, word, fields, framing, w.st.scan.tail);
    var sc := ScanAll(w.st.scan, block);
    if c.Whole? { LengthFits(fields, |c.data|); }
    ContentIsThere(c);
    AfterFramedBlock(cfg, w.st, w.head, sc, c);
    var v := AfterHeaders(cfg, w.st.(scan := sc), w.head);
    ContentWalk(cfg, v, c);
    FeedConcat(cfg, w, block, ContentBytes(c));
    TrailerIsAhead(cfg, w, block, v, c);
    ContentWalk(cfg, Walk(v.st, true), c);
    ContentWalk(cfg, Walk(v.st, false), c);
  }

  /** The content of a message leaves the entry in http1_head_requests alone. */
  ghost predicate HeadPasses(cfg: Config, w: Walk, block: bytes, c: Content) {
    PassesHead(cfg, Feed(cfg, w, block).0.st, ContentBytes(c))
  }

  ghost predicate PassesHead(cfg: Config, st: State, input: bytes) {
    Feed(cfg, Walk(st, true), input).0.head && !Feed(cfg, Walk(st, false), input).0.head
  }

  /** After all of a chunked message but its trailer section, the walk waits for that, and the last
      thing it said is that a phase ended. */
  ghost predicate TrailerAhead(cfg: Config, w: Walk, block: bytes, c: Content) {
    c.Chunks? ==>
      var r := Feed(cfg, w, block + ChunkedData(c.chunks, c.last));
      AtTrailer(r.0.st) && r.1 != [] && r.1[|r.1| - 1] == End
  }

  lemma TrailerIsAhead(cfg: Config, w: Walk, block: bytes, v: Walk, c: Content)
    requires Feed(cfg, w, block).0 == v && Expects(v.st, c) && ContentOk(c)
    ensures TrailerAhead(cfg, w, block, c)
  {
    if c.Chunks? {
      hide Feed, Bodies, Take, Decoded;
      FeedChunkedData(cfg, v, c.chunks, c.last);
      FeedConcat(cfg, w, block, ChunkedData(c.chunks, c.last));
    }
  }

  lemma ContentIsThere(c: Content)
    requires ContentOk(c)
    ensures c.Whole? ==> c.data != []
  {
  }

  /** The kernel side over a request: it knows a HEAD, it finds the end, and it says what it saw. */
  lemma QueryWalk(cfg: Config, w: Walk, q: Query)
    requires cfg.isReq && Clean(w.st) && QueryOk(q)
    ensures var r := Feed(cfg, w, QueryBytes(q));
      && Clean(r.0.st) && r.0.head == (q.verb == HEAD) && r.1 == MessageOut(cfg, QueryBlock(q), q.content)
      && TrailerAhead(cfg, w, QueryBlock(q), q.content) && HeadPasses(cfg, w, QueryBlock(q), q.content)
  {
    hide Feed, FirstAll, HeaderBlock, P.IsHttpMethod, MessageOut, TrailerAhead, HeadPasses;
    var start := RequestLine(q.verb, q.path, q.version);
    var rest := q.path + [SP] + q.version;
    MethodIsShortWord(q.verb);
    assert StartsWith(start, q.verb);
    var framing :=
      if q.content.Chunks? then Chunked else if Framed(q.fields, q.content) then Sized(|ContentBytes(q.content)|) else Unframed;
    HeaderBlockIs(start, q.fields);
    RequestLineIsHead(q.verb, rest, Lines(FieldLines(q.fields)) + CRLF);
    MessageWalk(cfg, w, start, q.verb, q.fields, framing, q.content);
  }

  /** The kernel side over a response. */
  lemma ReplyWalk(cfg: Config, w: Walk, r: Reply, verb: bytes)
    requires !cfg.isReq && Clean(w.st) && ReplyOk(r, verb) && w.head == (verb == HEAD)
    ensures var s := Feed(cfg, w, ReplyBytes(r));
      && Clean(s.0.st) && !s.0.head && s.1 == MessageOut(cfg, ReplyBlock(r), r.content)
      && TrailerAhead(cfg, w, ReplyBlock(r), r.content)
  {
    hide Feed, FirstAll, HeaderBlock, MessageOut, Decimal, TrailerAhead, HeadPasses;
    var start := StatusLine(r.version, r.code, r.reason);
    assert NoLineEnd(start) by { assert forall i :: 0 <= i < 3 ==> IsDigit(r.code[i]); }
    assert StartsWith(start, r.version);
    HeaderBlockIs(start, r.fields);
    assert start == r.version + [SP] + r.code + r.reason;
    StatusLineCode(r.version, r.code, r.reason, Lines(FieldLines(r.fields)) + CRLF);
    CodeIsRead(r.code);
    if Bodiless(r, verb) {
      BodilessWalk(cfg, w, start, r.fields);
      NoTrailerAhead(cfg, w, ReplyBlock(r));
    } else {
      MessageWalk(cfg, w, start, r.version, r.fields, if r.content.Chunks? then Chunked else Sized(|ContentBytes(r.content)|), r.content);
    }
  }

  /** An interim response ends with its headers, whatever they declare, and the entry for a HEAD request is
      used up. */
  lemma InterimWalk(cfg: Config, w: Walk, r: Reply)
    requires !cfg.isReq && Clean(w.st) && AreFields(r.fields) && |ReplyBlock(r)| <= 4096
    requires P.HTTP_SLASH <= r.version && NoSpace(r.version) && NoLineEnd(r.version) && |r.version| < |LENGTH_FIELD|
    requires |r.code| == 3 && IsDigits(r.code) && 100 <= Decimal(r.code) <= 199
    requires NoLineEnd(r.reason) && (r.reason == [] || r.reason[0] == SP)
    ensures var s := Feed(cfg, w, ReplyBlock(r)); Clean(s.0.st) && !s.0.head && s.1 == Hdrs(ReplyBlock(r)) + [End]
  {
    hide Feed, FirstAll, HeaderBlock, Decimal, Hdrs;
    var start := StatusLine(r.version, r.code, r.reason);
    assert NoLineEnd(start) by { assert forall i :: 0 <= i < 3 ==> IsDigit(r.code[i]); }
    HeaderBlockIs(start, r.fields);
    assert start == r.version + [SP] + r.code + r.reason;
    StatusLineCode(r.version, r.code, r.reason, Lines(FieldLines(r.fields)) + CRLF);
    CodeIsRead(r.code);
    BodilessWalk(cfg, w, start, r.fields);
    assert ReplyBlock(r) + [] == ReplyBlock(r) && Hdrs(ReplyBlock(r)) + [End] + [] == Hdrs(ReplyBlock(r)) + [End];
  }

  /** A final response that declares neither a length nor chunks has a body that ends with the connection,
      section 6.3 of RFC 9112: whatever follows its header block, the first 4096 bytes of it are captured as
      data and no end of the body is seen. */
  lemma CloseDelimitedWalk(cfg: Config, w: Walk, r: Reply, data: bytes)
    requires !cfg.isReq && Clean(w.st) && !w.head && data != []
    requires P.HTTP_SLASH <= r.version && NoSpace(r.version) && NoLineEnd(r.version) && |r.version| < |LENGTH_FIELD|
    requires |r.code| == 3 && IsDigits(r.code) && Decimal(r.code) >= 200 && Decimal(r.code) != 204 && Decimal(r.code) != 304
    requires NoLineEnd(r.reason) && (r.reason == [] || r.reason[0] == SP)
    requires Declares(r.fields, Unframed) && |ReplyBlock(r)| <= 4096
    ensures var s := Feed(cfg, w, ReplyBlock(r) + data);
      && s.1 == Hdrs(ReplyBlock(r)) + [End] + Bodies(Take(data, if cfg.skip then 0 else 4096))
      && s.0.st.phase.Data? && s.0.st.remaining == LEN_UNKNOWN
  {
    hide Feed, FirstAll, HeaderBlock, Decimal, ScanAll, Hdrs, Bodies;
    var start := StatusLine(r.version, r.code, r.reason);
    assert NoLineEnd(start) by { assert forall i :: 0 <= i < 3 ==> IsDigit(r.code[i]); }
    assert StartsWith(start, r.version);
    HeaderBlockIs(start, r.fields);
    assert start == r.version + [SP] + r.code + r.reason;
    StatusLineCode(r.version, r.code, r.reason, Lines(FieldLines(r.fields)) + CRLF);
    CodeIsRead(r.code);
    HeaderWalk(cfg, w, start, r.fields);
    ScanFindsFraming(start, r.version, r.fields, Unframed, w.st.scan.tail);
    var v := Feed(cfg, w, ReplyBlock(r)).0;
    FeedUnsizedBody(cfg, v, data);
    FeedConcat(cfg, w, ReplyBlock(r), data);
  }

  lemma NoTrailerAhead(cfg: Config, w: Walk, block: bytes)
    ensures TrailerAhead(cfg, w, block, Nothing)
  {
  }

  lemma BodilessWalk(cfg: Config, w: Walk, start: bytes, fields: seq<Field>)
    requires !cfg.isReq && Clean(w.st) && IsLine(start) && AreFields(fields) && |HeaderBlock(start, fields)| <= CAPTURE_MAX
    requires w.head || StatusHasNoBody(FirstAll(FIRST0, HeaderBlock(start, fields)).code)
    ensures var block := HeaderBlock(start, fields);
      var s := Feed(cfg, w, block + ContentBytes(Nothing));
      Clean(s.0.st) && !s.0.head && s.1 == MessageOut(cfg, block, Nothing)
  {
    hide Feed, ScanAll, FirstAll, HeaderBlock, Hdrs;
    var block := HeaderBlock(start, fields);
    HeaderWalk(cfg, w, start, fields);
    ScanAllParts(w.st.scan, block);
    assert block + [] == block;
    assert Hdrs(block) + [End] + [] == Hdrs(block) + [End];
  }

  // ---------------------------------------------------------------------------
  // The user side over one message
  // ---------------------------------------------------------------------------

  /** The last event of the log is a line feed alone. */
  ghost predicate LoneLineFeed(log: seq<Piece>) {
    |log| >= 2 && log[|log| - 2].Sent? && log[|log| - 2].e.payload == [LF]
  }

  lemma CrlfEvents(v: View, isReq: bool)
    requires Buffer(v, isReq) == []
    ensures See(v, Event(HeadersKind(isReq), CRLF)) == (v, [])
    ensures See(v, Event(HeadersKind(isReq), [CR])) == (WithBuffer(v, isReq, [CR]), [])
    ensures See(WithBuffer(v, isReq, [CR]), Event(HeadersKind(isReq), [LF])) == (WithBuffer(v, isReq, CRLF), [])
  {
    assert P.TrimLeadingCrlf(CRLF) == [] by { assert CRLF[2..] == []; }
    assert P.TrimLeadingCrlf([CR]) == [CR];
    var none: bytes := [];
    assert none + [CR] == [CR] && [CR] + [LF] == CRLF;
    assert WithBuffer(v, isReq, []) == v;
  }

  /** An empty trailer section leaves nothing behind exactly when its line end is one event. */
  lemma EmptyTrailerSeen(v: View, isReq: bool, log: seq<Piece>)
    requires LogOk(isReq, log) && Flat(log) == Hdrs(CRLF) + [End] && Buffer(v, isReq) == []
    ensures |log| >= 2 && SeeAll(v, log) == (WithBuffer(v, isReq, if LoneLineFeed(log) then CRLF else []), [])
  {
    hide See, SeeAll, Flat, Hdrs;
    EndedLog(isReq, log, Hdrs(CRLF));
    var n := |log| - 1;
    var log1 := log[..n];
    LogOkPrefix(isReq, log, n);
    var e, k := LastHeaderPiece(isReq, log1, CRLF);
    var m := |log1| - 1;
    var log2 := log1[..m];
    LogOkPrefix(isReq, log1, m);
    assert log == log1 + [log[n]] && log1 == log2 + [log1[m]] && log1[m] == log[|log| - 2];
    SeeAllSnoc(v, log1, log[n]);
    SeeAllSnoc(v, log2, log1[m]);
    CrlfEvents(v, isReq);
    assert e == Event(HeadersKind(isReq), e.payload);
    assert WithBuffer(v, isReq, []) == v;
    var none: seq<Answer> := [];
    assert none + none == none;
    if k == 0 {
      HdrsOfNothing(CRLF);
      assert CRLF[0..] == CRLF;
      SilentLog(v, isReq, log2);
    } else {
      assert CRLF[1..] == [LF] && CRLF[..1] == [CR];
      var f, j := LastHeaderPiece(isReq, log2, [CR]);
      var i := |log2| - 1;
      LogOkPrefix(isReq, log2, i);
      HdrsOfNothing([CR]);
      assert [CR][0..] == [CR];
      SilentLog(v, isReq, log2[..i]);
      assert log2 == log2[..i] + [log2[i]];
      SeeAllSnoc(v, log2[..i], log2[i]);
      assert f == Event(HeadersKind(isReq), f.payload);
    }
  }

  lemma HdrsOfNothing(x: bytes)
    ensures Hdrs(x[..0]) == []
  {
  }

  /** The only way the cutting of a message can show: the line end of an empty trailer section was cut. */
  ghost predicate TrailerCut(c: Content, log: seq<Piece>) {
    c.Chunks? && c.trailer == [] && LoneLineFeed(log)
  }

  lemma TrailerSeen(v: View, isReq: bool, log: seq<Piece>, trailer: seq<Field>)
    requires AreFields(trailer) && (forall i :: 0 <= i < |trailer| ==> NoSpace(trailer[i].name))
    requires |Block(FieldLines(trailer))| <= CAPTURE_MAX
    requires LogOk(isReq, log) && Flat(log) == Hdrs(Block(FieldLines(trailer))) + [End]
    requires Buffer(v, isReq) == [] && (isReq || v.pending.None?)
    ensures |log| >= 2
    ensures SeeAll(v, log) == (WithBuffer(v, isReq, if trailer == [] && LoneLineFeed(log) then CRLF else []), [])
  {
    var block := Block(FieldLines(trailer));
    if trailer == [] {
      assert block == CRLF by { assert FieldLines(trailer) == []; assert [] + CRLF == CRLF; }
      hide Flat, SeeAll, Hdrs;
      EmptyTrailerSeen(v, isReq, log);
    } else {
      FieldsAreLines(trailer);
      hide Flat, SeeAll, Hdrs, FieldLines, Block, P.ParseRequestLine, P.ParseStatusLine, IsWhole;
      BlockIsWhole(FieldLines(trailer));
      WholeBlock(v, isReq, log, block);
      TrailerIsNoRequest(trailer);
      assert WithBuffer(v, isReq, []) == v;
      WholeHasTwoPieces(isReq, log, block);
    }
  }

  lemma WholeHasTwoPieces(isReq: bool, log: seq<Piece>, block: bytes)
    requires LogOk(isReq, log) && Flat(log) == Hdrs(block) + [End] && block != []
    ensures |log| >= 2
  {
    EndedLog(isReq, log, Hdrs(block));
    LogOkPrefix(isReq, log, |log| - 1);
    var e, k := LastHeaderPiece(isReq, log[..|log| - 1], block);
  }

  lemma NoHdrInBody(d: bytes)
    ensures NoHdr(Bodies(d) + [End])
  {
  }

  lemma ChunksSeen(v: View, isReq: bool, log: seq<Piece>, d: bytes, trailer: seq<Field>)
    requires AreFields(trailer) && (forall i :: 0 <= i < |trailer| ==> NoSpace(trailer[i].name))
    requires |Block(FieldLines(trailer))| <= CAPTURE_MAX
    requires LogOk(isReq, log) && Flat(log) == Bodies(d) + [End] + (Hdrs(Block(FieldLines(trailer))) + [End])
    requires Buffer(v, isReq) == [] && (isReq || v.pending.None?)
    ensures |log| >= 2
    ensures SeeAll(v, log) == (WithBuffer(v, isReq, if trailer == [] && LoneLineFeed(log) then CRLF else []), [])
  {
    hide Flat, SeeAll, Hdrs, Bodies, FieldLines, Block, NoHdr, AreFields, NoSpace, LogOk;
    var a, b := CutAtEnd(isReq, log, Bodies(d), Hdrs(Block(FieldLines(trailer))) + [End]);
    NoHdrInBody(d);
    BodyPieces(v, isReq, a);
    TrailerSeen(v, isReq, b, trailer);
    SeeAllConcat(v, a, b);
    assert (a + b)[|a + b| - 2] == b[|b| - 2];
    assert [] + SeeAll(v, b).1 == [];
  }

  lemma ContentSeen(cfg: Config, v: View, log: seq<Piece>, c: Content)
    requires ContentOk(c) && LogOk(cfg.isReq, log) && Flat(log) == ContentOut(cfg, c)
    requires Buffer(v, cfg.isReq) == [] && (cfg.isReq || v.pending.None?)
    ensures SeeAll(v, log) == (WithBuffer(v, cfg.isReq, if TrailerCut(c, log) then CRLF else []), [])
    ensures c.Chunks? ==> |log| >= 2
  {
    hide Flat, SeeAll, Hdrs, Bodies, Take, Decoded, FieldLines, Block, NoHdr;
    assert WithBuffer(v, cfg.isReq, []) == v;
    match c
    case Nothing => SilentLog(v, cfg.isReq, log);
    case Whole(data) =>
      NoHdrInBody(Take(data, if cfg.skip then 0 else CAPTURE_MAX));
      BodyPieces(v, cfg.isReq, log);
    case Chunks(chunks, last, trailer) =>
      ChunksSeen(v, cfg.isReq, log, Take(Decoded(chunks), if cfg.skip then 0 else CAPTURE_MAX), trailer);
  }

  /** A request, however cut, is what the parser then waits with. */
  lemma QuerySeen(cfg: Config, v: View, log: seq<Piece>, q: Query)
    requires cfg.isReq && QueryOk(q) && LogOk(true, log) && Flat(log) == MessageOut(cfg, QueryBlock(q), q.content)
    requires v.client == []
    ensures SeeAll(v, log) ==
      (v.(pending := Some((q.verb, q.path)), client := if TrailerCut(q.content, log) then CRLF else []), [])
  {
    hide Flat, SeeAll, Hdrs, ContentOut, HeaderBlock, P.ParseRequestLine, P.IsHttpMethod, ContentOk, Framed, LogOk, IsWhole, IsLine;
    var start := RequestLine(q.verb, q.path, q.version);
    var block := QueryBlock(q);
    QueryFields(q);
    StartIsLine(start, q.verb, q.path + [SP] + q.version);
    BlockIsWholeToo(start, q.fields);
    HeaderBlockIs(start, q.fields);
    MethodIsShortWord(q.verb);
    RequestLineIsRead(q.verb, q.path, q.version, Lines(FieldLines(q.fields)) + CRLF);
    var a, b := CutAtEnd(true, log, Hdrs(block), ContentOut(cfg, q.content));
    WholeBlock(v, true, a, block);
    var u := v.(pending := Some((q.verb, q.path)));
    ContentSeen(cfg, u, b, q.content);
    SeeAllConcat(v, a, b);
    SameCut(q.content, a, b);
    assert [] + SeeAll(u, b).1 == [];
  }

  lemma QueryFields(q: Query)
    requires QueryOk(q)
    ensures AreFields(q.fields)
  {
  }

  lemma StartIsLine(start: bytes, word: bytes, rest: bytes)
    requires start == word + [SP] + rest && NoLineEnd(rest) && (NoLineEnd(word) || P.IsHttpMethod(word))
    ensures IsLine(start)
  {
    if P.IsHttpMethod(word) { MethodIsShortWord(word); }
  }

  lemma BlockIsWholeToo(start: bytes, fields: seq<Field>)
    requires IsLine(start) && AreFields(fields) && |HeaderBlock(start, fields)| <= CAPTURE_MAX
    ensures IsWhole(HeaderBlock(start, fields))
  {
    hide IsWhole, IsLine;
    BlockLinesAreLines(start, fields);
    BlockIsWhole([start] + FieldLines(fields));
  }

  lemma SameCut(c: Content, a: seq<Piece>, b: seq<Piece>)
    requires c.Chunks? ==> |b| >= 2
    ensures TrailerCut(c, a + b) <==> TrailerCut(c, b)
  {
    if |b| >= 2 { assert (a + b)[|a + b| - 2] == b[|b| - 2]; }
  }

  /** A response, however cut, is paired with the request that waits for it. */
  lemma ReplySeen(cfg: Config, v: View, log: seq<Piece>, r: Reply, verb: bytes)
    requires !cfg.isReq && ReplyOk(r, verb) && LogOk(false, log) && Flat(log) == MessageOut(cfg, ReplyBlock(r), r.content)
    requires v.server == [] && v.pending.Some?
    ensures SeeAll(v, log) ==
      (v.(pending := None, server := if TrailerCut(r.content, log) then CRLF else []),
       [Answer(v.pending.value.0, v.pending.value.1, Decimal(r.code))])
  {
    hide Flat, SeeAll, Hdrs, ContentOut, HeaderBlock, P.ParseStatusLine, ContentOk, Framed, LogOk, IsWhole, IsLine, Decimal;
    var start := StatusLine(r.version, r.code, r.reason);
    var block := ReplyBlock(r);
    ReplyFields(r, verb);
    assert NoLineEnd(r.code + r.reason) by { assert forall i :: 0 <= i < 3 ==> IsDigit(r.code[i]); }
    StartIsLine(start, r.version, r.code + r.reason);
    BlockIsWholeToo(start, r.fields);
    HeaderBlockIs(start, r.fields);
    StatusLineIsRead(r.version, r.code, r.reason, Lines(FieldLines(r.fields)) + CRLF);
    var a, b := CutAtEnd(false, log, Hdrs(block), ContentOut(cfg, r.content));
    WholeBlock(v, false, a, block);
    var u := v.(pending := None);
    ContentSeen(cfg, u, b, r.content);
    SeeAllConcat(v, a, b);
    SameCut(r.content, a, b);
    var answer := [Answer(v.pending.value.0, v.pending.value.1, Decimal(r.code))];
    assert answer + SeeAll(u, b).1 == answer;
  }

  lemma ReplyFields(r: Reply, verb: bytes)
    requires ReplyOk(r, verb)
    ensures AreFields(r.fields)
  {
  }

  /** Where the kernel ends a response with its headers, the parser does not wait for a body; besides that
      only when the length is 0 or the status is below 100. */
  lemma NoBodyAgrees(verb: bytes, status: nat, hdr: P.Headers)
    ensures P.NoBody(verb, status, hdr) <==> verb == HEAD || StatusHasNoBody(status) || status < 100 || hdr.contentLength == 0
  {
    assert HEAD == Ascii("HEAD");
  }
}
