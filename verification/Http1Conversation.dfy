/**
Whole conversations over one connection: requests and responses in turn, each cut into the buffers of
any number of system calls, walked buffer by buffer by the kernel side, parsed event by event by the
user side.
*/
module Http1Conversation {
  import opened Bytes
  import opened Http1Kernel
  import opened Http1Walk
  import opened Http1Message
  import opened Http1Fields
  import opened Http1Body
  import opened Http1Pairing
  import opened Http1EndToEnd
  import opened Http1Order
  import opened Wrappers
  import P = Http1Parser

  // ---------------------------------------------------------------------------
  // Buffers
  // ---------------------------------------------------------------------------

  /** What Walker.WalkBuffer ensures of one buffer it walks to its end. */
  ghost predicate LogsBuffer(cfg: Config, w: Walk, buf: bytes, log: seq<Piece>) {
    buf != [] && LogOk(cfg.isReq, log) && Packed(log) && Flat(log) == Feed(cfg, w, buf).1
  }

  /** The buffers of one direction, walked one after the other from w. */
  ghost predicate Logged(cfg: Config, w: Walk, bufs: seq<bytes>, logs: seq<seq<Piece>>) {
    && |logs| == |bufs|
    && forall i {:trigger bufs[i]} {:trigger logs[i]} :: 0 <= i < |bufs| ==>
         LogsBuffer(cfg, Feed(cfg, w, Join(bufs[..i])).0, bufs[i], logs[i])
  }

  lemma LoggedInit(cfg: Config, w: Walk, bufs: seq<bytes>, logs: seq<seq<Piece>>)
    requires Logged(cfg, w, bufs, logs) && bufs != []
    ensures var n := |bufs| - 1;
      Logged(cfg, w, bufs[..n], logs[..n]) && LogsBuffer(cfg, Feed(cfg, w, Join(bufs[..n])).0, bufs[n], logs[n])
  {
    hide LogsBuffer, Feed, Join;
    var n := |bufs| - 1;
    forall i | 0 <= i < n
      ensures LogsBuffer(cfg, Feed(cfg, w, Join(bufs[..n][..i])).0, bufs[..n][i], logs[..n][i])
    {
      assert bufs[..n][..i] == bufs[..i] && bufs[..n][i] == bufs[i] && logs[..n][i] == logs[i];
    }
  }

  lemma LoggedSnoc(cfg: Config, w: Walk, bufs: seq<bytes>, logs: seq<seq<Piece>>, buf: bytes, log: seq<Piece>)
    requires Logged(cfg, w, bufs, logs) && LogsBuffer(cfg, Feed(cfg, w, Join(bufs)).0, buf, log)
    ensures Logged(cfg, w, bufs + [buf], logs + [log])
  {
    hide LogsBuffer, Feed, Join;
    var n := |bufs|;
    forall i | 0 <= i <= n
      ensures LogsBuffer(cfg, Feed(cfg, w, Join((bufs + [buf])[..i])).0, (bufs + [buf])[i], (logs + [log])[i])
    {
      if i < n {
        assert (bufs + [buf])[..i] == bufs[..i] && bufs[i] == (bufs + [buf])[i];
      } else {
        assert (bufs + [buf])[..n] == bufs;
      }
    }
  }

  /** Split invariance at the level of buffers: the logs say what the walk of all the bytes says. */
  lemma {:induction false} LogsSayAll(cfg: Config, w: Walk, bufs: seq<bytes>, logs: seq<seq<Piece>>)
    requires Logged(cfg, w, bufs, logs)
    ensures LogOk(cfg.isReq, AllLog(logs)) && Flat(AllLog(logs)) == Feed(cfg, w, Join(bufs)).1
  {
    if bufs == [] {
      FeedEmpty(cfg, w);
      FlatEmpty();
    } else {
      var n := |bufs| - 1;
      LoggedInit(cfg, w, bufs, logs);
      hide Feed, Flat, LogOk, Packed, Logged;
      JoinInit(bufs);
      LogsSayAll(cfg, w, bufs[..n], logs[..n]);
      FlatConcat(AllLog(logs[..n]), logs[n]);
      LogOkConcat(cfg.isReq, AllLog(logs[..n]), logs[n]);
      FeedConcat(cfg, w, Join(bufs[..n]), bufs[n]);
    }
  }

  lemma LogOkConcat(isReq: bool, a: seq<Piece>, b: seq<Piece>)
    requires LogOk(isReq, a) && LogOk(isReq, b)
    ensures LogOk(isReq, a + b)
  {
  }

  // ---------------------------------------------------------------------------
  // One message never needs more rounds than there are
  // ---------------------------------------------------------------------------

  lemma EndsOfHdrs(d: bytes)
    ensures Ends(Hdrs(d)) == 0 && Ends(Bodies(d)) == 0 && Ends([End]) == 1 && Ends([]) == 0
  {
    NoEnds(Hdrs(d));
    NoEnds(Bodies(d));
    assert [End][..0] == [];
  }

  lemma MessageHasFewPhases(cfg: Config, block: bytes, c: Content)
    ensures Ends(MessageOut(cfg, block, c)) <= 3
  {
    hide Ends, Hdrs, Bodies, Take, Decoded, FieldLines, Block;
    EndsOfHdrs(block);
    EndsConcat(Hdrs(block), [End]);
    EndsConcat(Hdrs(block) + [End], ContentOut(cfg, c));
    var budget := if cfg.skip then 0 else CAPTURE_MAX;
    match c
    case Nothing =>
    case Whole(data) =>
      EndsOfHdrs(Take(data, budget));
      EndsConcat(Bodies(Take(data, budget)), [End]);
    case Chunks(chunks, last, trailer) =>
      var x, y := Bodies(Take(Decoded(chunks), budget)), Hdrs(Block(FieldLines(trailer)));
      EndsOfHdrs(Take(Decoded(chunks), budget));
      EndsOfHdrs(Block(FieldLines(trailer)));
      EndsConcat(x, [End]);
      EndsConcat(y, [End]);
      EndsConcat(x + [End], y + [End]);
  }

  /** Wherever a message is cut, every buffer of it is walked to its end. */
  lemma MessageRoundsSuffice(cfg: Config, w: Walk, a: bytes, buf: bytes, rest: bytes, block: bytes, c: Content)
    requires buf != [] && Feed(cfg, w, a + buf + rest).1 == MessageOut(cfg, block, c)
    ensures RoundsSuffice(cfg, Feed(cfg, w, a).0, buf)
  {
    hide Feed, Ends, MessageOut;
    MessageHasFewPhases(cfg, block, c);
    var init := buf[..|buf| - 1];
    var more := [buf[|buf| - 1]] + rest;
    assert a + buf + rest == (a + init) + more;
    FeedConcat(cfg, w, a, init);
    FeedConcat(cfg, w, a + init, more);
    var v := Feed(cfg, w, a).0;
    EndsConcat(Feed(cfg, w, a).1, Feed(cfg, v, init).1);
    EndsConcat(Feed(cfg, w, a + init).1, Feed(cfg, Feed(cfg, w, a + init).0, more).1);
  }

  // ---------------------------------------------------------------------------
  // When the line end of an empty trailer section is cut
  // ---------------------------------------------------------------------------

  lemma TrailerBytes(cfg: Config, w: Walk)
    requires AtTrailer(w.st)
    ensures Step(cfg, w, CR).1 == [Hdr(CR)] && Feed(cfg, w, CRLF).1 == [Hdr(CR), Hdr(LF), End]
  {
    FeedTrailer(cfg, w, []);
    assert FieldLines([]) == [] && Block([]) == CRLF by { assert [] + CRLF == CRLF; }
    assert Hdrs(Take(CRLF, CAPTURE_MAX)) == [Hdr(CR), Hdr(LF)] by { assert Take(CRLF, CAPTURE_MAX) == CRLF; }
    assert !EndsHeaders(w.st.scan.tail, CR);
  }

  /** A line feed that is an event of its own follows a carriage return that is one too. */
  lemma LoneThenLone(isReq: bool, log: seq<Piece>, y: seq<Out>)
    requires LogOk(isReq, log) && Flat(log) == y + [Hdr(CR)] + [Hdr(LF)] && (y == [] || y[|y| - 1] == End)
    requires log != [] && log[|log| - 1].Sent? && log[|log| - 1].e.payload == [LF]
    ensures |log| >= 2
    ensures var q := log[|log| - 2]; IsHeaderPiece(q) && |q.e.payload| == 1 && IsHeaderPiece(log[|log| - 1])
  {
    hide Flat, LogOk;
    var m := |log| - 1;
    var p, init := log[m], log[..m];
    FlatLastPiece(isReq, log, y + [Hdr(CR)] + [Hdr(LF)]);
    LogOkPrefix(isReq, log, m);
    SplitConcat(Flat(init), Shown(p), y + [Hdr(CR)], [Hdr(LF)]);
    assert Flat(init) == y + [Hdr(CR)] by { assert [Hdr(LF)][..0] == []; }
    FlatEmpty();
    assert init != [];
    FlatLastPiece(isReq, init, y + [Hdr(CR)]);
    var q := init[|init| - 1];
    OneByteAfterEnd(Flat(init[..|init| - 1]), Shown(q), y, q);
  }

  lemma NotPacked(log: seq<Piece>, k: nat)
    requires k + 1 < |log| && IsHeaderPiece(log[k]) && IsHeaderPiece(log[k + 1]) && |log[k].e.payload| == 1
    ensures !Packed(log)
  {
  }

  lemma LineEndOut(y: seq<Out>)
    ensures y + [Hdr(CR), Hdr(LF), End] == y + [Hdr(CR)] + [Hdr(LF)] + [End]
  {
  }

  /** A log that says a line end and the end of a phase, right after the end of another. */
  lemma PackedLineEnd(isReq: bool, log: seq<Piece>, y: seq<Out>)
    requires LogOk(isReq, log) && Packed(log) && Flat(log) == y + [Hdr(CR), Hdr(LF), End]
    requires y == [] || y[|y| - 1] == End
    ensures |log| >= 2 && !LoneLineFeed(log)
  {
    hide Flat, LogOk, Packed, IsHeaderPiece;
    LineEndOut(y);
    var out := y + [Hdr(CR)] + [Hdr(LF)];
    EndedLog(isReq, log, out);
    var n := |log| - 1;
    LogOkPrefix(isReq, log, n);
    FlatEmpty();
    assert log[..n] != [];
    if LoneLineFeed(log) {
      assert log[..n][n - 1] == log[n - 1];
      LoneThenLone(isReq, log[..n], y);
      assert log[..n][n - 2] == log[n - 2];
      NotPacked(log, n - 2);
    }
  }

  lemma FlatLastPiece(isReq: bool, log: seq<Piece>, out: seq<Out>)
    requires LogOk(isReq, log) && log != [] && Flat(log) == out
    ensures var p := log[|log| - 1];
      && Flat(log[..|log| - 1]) + Shown(p) == out && Shown(p) != [] && out != []
      && Shown(p)[|Shown(p)| - 1] == out[|out| - 1]
      && (p.Sent? ==> |Shown(p)| == |p.e.payload|)
      && (Shown(p)[|Shown(p)| - 1].Hdr? ==> IsHeaderPiece(p))
  {
    FlatLast(log);
    PieceShows(isReq, log);
  }

  /** A piece that ends with the byte after the end of a phase is that byte alone. */
  lemma OneByteAfterEnd(init: seq<Out>, last: seq<Out>, y: seq<Out>, p: Piece)
    requires init + last == y + [Hdr(CR)] && last == Shown(p) && last != [] && (y == [] || y[|y| - 1] == End)
    ensures |last| == 1
  {
    EndIsLast(p);
    if y != [] {
      assert (y + [Hdr(CR)])[|y| - 1] == End;
      ConcatAt(init, last, |y| - 1);
    }
  }

  lemma LastLineFeed(isReq: bool, log: seq<Piece>)
    requires LogOk(isReq, log) && Flat(log) == [Hdr(LF), End]
    ensures |log| >= 2 && LoneLineFeed(log)
  {
    hide Flat, LogOk, Packed;
    assert Hdrs([LF]) == [Hdr(LF)];
    hide Hdrs;
    EndedLog(isReq, log, Hdrs([LF]));
    var n := |log| - 1;
    LogOkPrefix(isReq, log, n);
    var e, k := LastHeaderPiece(isReq, log[..n], [LF]);
    assert [LF][0..] == [LF];
  }

  /** The trailer section's line end is cut exactly when the last buffer is its line feed alone. */
  lemma LoneLineFeedIff(cfg: Config, w: Walk, buf: bytes, log: seq<Piece>, last: bytes, x: Walk, y: seq<Out>)
    requires LogsBuffer(cfg, w, buf, log) && AtTrailer(x.st) && (y == [] || y[|y| - 1] == End)
    requires if |buf| == 1 then buf == [LF] && w == Step(cfg, x, CR).0 else buf == last + CRLF && Feed(cfg, w, last) == (x, y)
    ensures |log| >= 2 && (LoneLineFeed(log) <==> |buf| == 1)
  {
    TrailerBytes(cfg, x);
    hide Feed, Flat, LogOk, Packed, Step, AtTrailer;
    if |buf| == 1 {
      FeedOne(cfg, x, CR);
      FeedConcat(cfg, x, [CR], [LF]);
      assert [CR] + [LF] == CRLF;
      var o := Feed(cfg, w, [LF]).1;
      assert [Hdr(CR)] + o == [Hdr(CR), Hdr(LF), End];
      assert o == ([Hdr(CR)] + o)[1..] == [Hdr(LF), End];
      LastLineFeed(cfg.isReq, log);
    } else {
      FeedConcat(cfg, w, last, CRLF);
      PackedLineEnd(cfg.isReq, log, y);
    }
  }

  lemma LastTwoBytes(a: bytes, b: bytes, pre: bytes)
    requires a + b == pre + CRLF && b != []
    ensures if |b| == 1 then b == [LF] && a == pre + [CR] else var l := b[..|b| - 2]; b == l + CRLF && a + l == pre
  {
    var s := a + b;
    if |b| == 1 {
      assert b[0] == s[|s| - 1] && a == s[..|s| - 1];
    } else {
      var l := b[..|b| - 2];
      assert b[|b| - 2] == s[|s| - 2] && b[|b| - 1] == s[|s| - 1];
      assert a + l == s[..|s| - 2];
    }
  }

  lemma SuffixEnds(a: seq<Out>, y: seq<Out>)
    requires a + y != [] && (a + y)[|a + y| - 1] == End
    ensures y == [] || y[|y| - 1] == End
  {
  }

  lemma LoneInLastLog(a: seq<Piece>, b: seq<Piece>)
    requires |b| >= 2
    ensures LoneLineFeed(a + b) <==> LoneLineFeed(b)
  {
    assert (a + b)[|a + b| - 2] == b[|b| - 2];
  }

  /** The buffers of a message cut the line end of its empty trailer section. */
  predicate CutsTrailer(c: Content, bufs: seq<bytes>) {
    c.Chunks? && c.trailer == [] && bufs != [] && |bufs[|bufs| - 1]| == 1
  }

  lemma CutShowsInLog(cfg: Config, w: Walk, bufs: seq<bytes>, logs: seq<seq<Piece>>, block: bytes, c: Content)
    requires Logged(cfg, w, bufs, logs) && bufs != [] && Join(bufs) == block + ContentBytes(c) && TrailerAhead(cfg, w, block, c)
    ensures TrailerCut(c, AllLog(logs)) <==> CutsTrailer(c, bufs)
  {
    hide Feed, Flat, Step, AtTrailer, ContentBytes, ChunkedData, LogOk, Packed, LoneLineFeed, Logged;
    if c.Chunks? && c.trailer == [] {
      var n := |bufs| - 1;
      var a := Join(bufs[..n]);
      var pre := block + ChunkedData(c.chunks, c.last);
      JoinInit(bufs);
      EmptyTrailerBytes(block, c);
      LoggedInit(cfg, w, bufs, logs);
      LoggedLengths(cfg, w, bufs, logs);
      LastTwoBytes(a, bufs[n], pre);
      CutShowsInLastLog(cfg, w, a, bufs[n], logs[n], pre);
      LoneInLastLog(AllLog(logs[..n]), logs[n]);
    }
  }

  lemma LoggedLengths(cfg: Config, w: Walk, bufs: seq<bytes>, logs: seq<seq<Piece>>)
    requires Logged(cfg, w, bufs, logs)
    ensures |logs| == |bufs|
  {
  }

  lemma CutShowsInLastLog(cfg: Config, w: Walk, a: bytes, buf: bytes, log: seq<Piece>, pre: bytes)
    requires LogsBuffer(cfg, Feed(cfg, w, a).0, buf, log) && a + buf == pre + CRLF
    requires var r := Feed(cfg, w, pre); AtTrailer(r.0.st) && r.1 != [] && r.1[|r.1| - 1] == End
    ensures |log| >= 2 && (LoneLineFeed(log) <==> |buf| == 1)
  {
    LastTwoBytes(a, buf, pre);
    hide Feed, Flat, Step, AtTrailer, LogOk, Packed, LoneLineFeed;
    var x := Feed(cfg, w, pre).0;
    var v := Feed(cfg, w, a);
    if |buf| == 1 {
      FeedSnoc(cfg, w, pre, CR);
      LoneLineFeedIff(cfg, v.0, buf, log, [], x, []);
    } else {
      var l := buf[..|buf| - 2];
      FeedConcat(cfg, w, a, l);
      var y := Feed(cfg, v.0, l);
      SuffixEnds(v.1, y.1);
      LoneLineFeedIff(cfg, v.0, buf, log, l, x, y.1);
    }
  }

  lemma EmptyTrailerBytes(block: bytes, c: Content)
    requires c.Chunks? && c.trailer == []
    ensures block + ContentBytes(c) == (block + ChunkedData(c.chunks, c.last)) + CRLF
  {
    assert FieldLines(c.trailer) == [] && Block([]) == CRLF by { assert [] + CRLF == CRLF; }
    assert ChunkedBody(c.chunks, c.last, c.trailer) == ChunkedData(c.chunks, c.last) + CRLF;
  }

  // ---------------------------------------------------------------------------
  // Conversations
  // ---------------------------------------------------------------------------

  /** One exchange: the request and the buffers it was sent in, the response and those it came in, and in
      which order they were walked: true is a buffer of the request. */
  datatype Turn = Turn(q: Query, r: Reply, sent: seq<bytes>, received: seq<bytes>, order: seq<bool>)

  /** The logs of the walks of these buffers, and their order. */
  datatype Trace = Trace(sent: seq<seq<Piece>>, received: seq<seq<Piece>>, order: seq<bool>)

  /** What the kernel side remembers of a connection between exchanges. */
  datatype Kernel = Kernel(req: State, resp: State, head: bool)

  const START := Kernel(INITIAL, INITIAL, false)

  /** The request direction as an exchange starts. */
  function Sending(k: Kernel): Walk {
    Walk(k.req, k.head)
  }

  ghost function Asked(skip: bool, k: Kernel, t: Turn): Walk {
    Feed(Config(true, skip), Sending(k), QueryBytes(t.q)).0
  }

  /** The response direction as the response starts: whether it answers a HEAD is what the walk of the
      request noted. */
  ghost function Receiving(skip: bool, k: Kernel, t: Turn): Walk {
    Walk(k.resp, Asked(skip, k, t).head)
  }

  ghost function Answered(skip: bool, k: Kernel, t: Turn): Walk {
    Feed(Config(false, skip), Receiving(skip, k, t), ReplyBytes(t.r)).0
  }

  ghost function After(skip: bool, k: Kernel, t: Turn): Kernel {
    Kernel(Asked(skip, k, t).st, Answered(skip, k, t).st, Answered(skip, k, t).head)
  }

  ghost function AfterAll(skip: bool, turns: seq<Turn>): Kernel {
    if turns == [] then START else After(skip, AfterAll(skip, turns[..|turns| - 1]), turns[|turns| - 1])
  }

  /** The first i buffers of the request hold its header block. */
  predicate HasBlock(t: Turn, i: nat) {
    i <= |t.sent| && |QueryBlock(t.q)| <= |Join(t.sent[..i])|
  }

  /** Every buffer has its turn, and nothing is answered before its header block is there. */
  predicate InOrder(t: Turn) {
    && Writes(t.order) == |t.sent| && |t.order| == |t.sent| + |t.received|
    && forall m :: 0 <= m < |t.order| && !t.order[m] ==> HasBlock(t, Writes(t.order[..m]))
  }

  /** The messages are well-formed, and the buffers hold them. */
  ghost predicate TurnOk(t: Turn) {
    && QueryOk(t.q) && ReplyOk(t.r, t.q.verb) && Join(t.sent) == QueryBytes(t.q) && Join(t.received) == ReplyBytes(t.r)
    && InOrder(t)
  }

  ghost predicate Traced(skip: bool, k: Kernel, t: Turn, tr: Trace) {
    && tr.order == t.order
    && Logged(Config(true, skip), Sending(k), t.sent, tr.sent)
    && Logged(Config(false, skip), Receiving(skip, k, t), t.received, tr.received)
  }

  /** Exchanges over a new connection, and what their walks logged. */
  ghost predicate Conversation(skip: bool, turns: seq<Turn>, trs: seq<Trace>)
    decreases |turns|
  {
    && |trs| == |turns|
    && (turns != [] ==>
          var n := |turns| - 1;
          && Conversation(skip, turns[..n], trs[..n])
          && TurnOk(turns[n]) && Traced(skip, AfterAll(skip, turns[..n]), turns[n], trs[n]))
  }

  function TurnLog(tr: Trace): seq<Piece> {
    Mixed(tr.order, tr.sent, tr.received)
  }

  function ConversationLog(trs: seq<Trace>): seq<Piece> {
    if trs == [] then [] else ConversationLog(trs[..|trs| - 1]) + TurnLog(trs[|trs| - 1])
  }

  /** No buffer of the exchange cuts the line end of an empty trailer section. */
  predicate Uncut(t: Turn) {
    !CutsTrailer(t.q.content, t.sent) && !CutsTrailer(t.r.content, t.received)
  }

  predicate AllUncut(turns: seq<Turn>) {
    forall i :: 0 <= i < |turns| ==> Uncut(turns[i])
  }

  /** No line end of an empty trailer section is cut, except in the last exchange. */
  predicate NoTrailerCut(turns: seq<Turn>) {
    forall i :: 0 <= i < |turns| - 1 ==> Uncut(turns[i])
  }

  function AnswerTo(t: Turn): Answer
    requires IsDigits(t.r.code)
  {
    Answer(t.q.verb, t.q.path, Decimal(t.r.code))
  }

  ghost predicate AnswersAre(turns: seq<Turn>, answers: seq<Answer>) {
    |answers| == |turns| && forall i :: 0 <= i < |turns| ==> IsDigits(turns[i].r.code) && answers[i] == AnswerTo(turns[i])
  }

  const IDLE := View([], [], None)

  /** The kernel side between exchanges: both directions wait for a header block, no HEAD is open. */
  ghost predicate Ready(k: Kernel) {
    Clean(k.req) && Clean(k.resp) && !k.head
  }

  /** The kernel side over one exchange: it knows whether the response answers a HEAD, and is ready again. */
  lemma TurnWalk(skip: bool, k: Kernel, t: Turn)
    requires TurnOk(t) && Ready(k)
    ensures Asked(skip, k, t).head == (t.q.verb == HEAD) && Ready(After(skip, k, t))
  {
    hide Feed, QueryOk, ReplyOk, Clean, HEAD;
    QueryWalk(Config(true, skip), Sending(k), t.q);
    ReplyWalk(Config(false, skip), Receiving(skip, k, t), t.r, t.q.verb);
  }

  lemma StartIsReady()
    ensures Ready(START)
  {
  }

  lemma {:induction false} ReadyAfterAll(skip: bool, turns: seq<Turn>, trs: seq<Trace>)
    requires Conversation(skip, turns, trs)
    ensures Ready(AfterAll(skip, turns))
    decreases |turns|
  {
    if turns == [] {
      StartIsReady();
    } else {
      hide Ready, TurnOk, Traced, After;
      var n := |turns| - 1;
      ReadyAfterAll(skip, turns[..n], trs[..n]);
      TurnWalk(skip, AfterAll(skip, turns[..n]), turns[n]);
    }
  }

  lemma SomeBytes(bufs: seq<bytes>)
    requires Join(bufs) != []
    ensures bufs != []
  {
  }

  lemma MessagesAreNotEmpty(t: Turn)
    ensures QueryBytes(t.q) != [] && ReplyBytes(t.r) != []
  {
  }

  /** What is left in a header buffer after a message. */
  function LeftOver(c: Content, bufs: seq<bytes>): bytes {
    if CutsTrailer(c, bufs) then CRLF else []
  }

  // ---------------------------------------------------------------------------
  // The order of the buffers
  // ---------------------------------------------------------------------------

  lemma {:induction false} AllLogConcat(a: seq<seq<Piece>>, b: seq<seq<Piece>>)
    ensures AllLog(a + b) == AllLog(a) + AllLog(b)
  {
    if b == [] {
      assert a + b == a;
    } else {
      AllLogConcat(a, b[..|b| - 1]);
      assert (a + b)[..|a + b| - 1] == a + b[..|b| - 1];
      assert AllLog(a) + AllLog(b[..|b| - 1]) + b[|b| - 1] == AllLog(a) + (AllLog(b[..|b| - 1]) + b[|b| - 1]);
    }
  }

  lemma AllLogAt(xs: seq<seq<Piece>>, i: nat)
    requires i < |xs|
    ensures AllLog(xs) == AllLog(xs[..i]) + (xs[i] + AllLog(xs[i + 1..]))
  {
    hide AllLog;
    SplitAt(xs, i);
    AllLogConcat(xs[..i + 1], xs[i + 1..]);
    AllLogConcat(xs[..i], [xs[i]]);
    AllLogOne(xs[i]);
    Concats(AllLog(xs[..i]), xs[i], AllLog(xs[i + 1..]));
  }

  lemma AllLogOne(x: seq<Piece>)
    ensures AllLog([x]) == x
  {
    assert [x][..0] == [];
  }

  /** If all of a request is silent, so is every buffer of it in its place. */
  lemma AllSilent(v: View, order: seq<bool>, xs: seq<seq<Piece>>)
    requires LogOk(true, AllLog(xs)) && Silent(v.client, AllLog(xs)) && Writes(order) == |xs|
    ensures SilentWhenMixed(v, order, xs)
  {
    hide SeeAll, Silent, LogOk, AllLog;
    forall m | 0 <= m < |order| && order[m] && Writes(order[..m]) < m
      ensures var i := Writes(order[..m]); i < |xs| && Silent(SeeAll(v, AllLog(xs[..i])).0.client, xs[i])
    {
      WritesGrow(order, m);
      var i := Writes(order[..m]);
      AllLogAt(xs, i);
      SilentConcat(v.client, AllLog(xs[..i]), xs[i] + AllLog(xs[i + 1..]));
      SilentRun(v, AllLog(xs[..i]));
      SilentConcat(SeeAll(v, AllLog(xs[..i])).0.client, xs[i], AllLog(xs[i + 1..]));
    }
  }

  lemma PrefixOfRequest(t: Turn, i: nat)
    requires TurnOk(t) && HasBlock(t, i)
    ensures exists c :: Join(t.sent[..i]) == QueryBlock(t.q) + c
  {
    hide QueryOk, ReplyOk, InOrder, QueryBlock, ContentBytes;
    var x, y := Join(t.sent[..i]), Join(t.sent[i..]);
    assert t.sent == t.sent[..i] + t.sent[i..];
    JoinConcat(t.sent[..i], t.sent[i..]);
    var n := |QueryBlock(t.q)|;
    assert QueryBlock(t.q) == QueryBytes(t.q)[..n] == (x + y)[..n] == x[..n];
    assert x == QueryBlock(t.q) + x[n..];
  }

  /** What the buffers that hold the header block log starts with the block. */
  lemma BlockFirst(skip: bool, k: Kernel, t: Turn, tr: Trace, i: nat) returns (a: seq<Piece>, b: seq<Piece>)
    requires TurnOk(t) && Traced(skip, k, t, tr) && Ready(k) && HasBlock(t, i)
    ensures |tr.sent| == |t.sent| && AllLog(tr.sent[..i]) == a + b && LogOk(true, a) && LogOk(true, b)
    ensures Flat(a) == Hdrs(QueryBlock(t.q)) + [End]
  {
    hide Feed, Flat, LogOk, TurnOk, Ready, Logged, Hdrs, AllLog, QueryBlock, HasBlock;
    var cfg, w := Config(true, skip), Sending(k);
    var c := BytesOfPrefix(t, i);
    LoggedPrefix(cfg, w, t.sent, tr.sent, i);
    BlockWalk(cfg, k, t);
    FeedConcat(cfg, w, QueryBlock(t.q), c);
    LogsSayAll(cfg, w, t.sent[..i], tr.sent[..i]);
    a, b := CutAtEnd(true, AllLog(tr.sent[..i]), Hdrs(QueryBlock(t.q)),
                     Feed(cfg, Feed(cfg, w, QueryBlock(t.q)).0, c).1);
  }

  lemma BytesOfPrefix(t: Turn, i: nat) returns (c: bytes)
    requires TurnOk(t) && HasBlock(t, i)
    ensures i <= |t.sent| && Join(t.sent[..i]) == QueryBlock(t.q) + c
  {
    hide TurnOk, QueryBlock, Join;
    PrefixOfRequest(t, i);
    c :| Join(t.sent[..i]) == QueryBlock(t.q) + c;
  }

  /** The header block of a request, walked from a kernel side that is ready. */
  lemma BlockWalk(cfg: Config, k: Kernel, t: Turn)
    requires TurnOk(t) && Ready(k)
    ensures Feed(cfg, Sending(k), QueryBlock(t.q)).1 == Hdrs(QueryBlock(t.q)) + [End]
  {
    hide Feed, ReplyOk, InOrder, HeaderBlock, ScanAll, AfterHeaders, Hdrs, Framed, ContentOk, P.IsHttpMethod;
    var q := t.q;
    var start := RequestLine(q.verb, q.path, q.version);
    QueryFields(q);
    StartIsLine(start, q.verb, q.path + [SP] + q.version);
    HeaderWalk(cfg, Sending(k), start, q.fields);
  }

  lemma {:induction false} LoggedPrefix(cfg: Config, w: Walk, bufs: seq<bytes>, logs: seq<seq<Piece>>, i: nat)
    requires Logged(cfg, w, bufs, logs) && i <= |bufs|
    ensures |logs| == |bufs| && Logged(cfg, w, bufs[..i], logs[..i])
    decreases |bufs|
  {
    hide LogsBuffer, Feed, Join;
    forall j | 0 <= j < i
      ensures LogsBuffer(cfg, Feed(cfg, w, Join(bufs[..i][..j])).0, bufs[..i][j], logs[..i][j])
    {
      assert bufs[..i][..j] == bufs[..j] && bufs[..i][j] == bufs[j] && logs[..i][j] == logs[j];
    }
  }

  lemma RequestLogged(skip: bool, k: Kernel, t: Turn, tr: Trace)
    requires TurnOk(t) && Traced(skip, k, t, tr) && Ready(k)
    ensures |tr.sent| == |t.sent| && LogOk(true, AllLog(tr.sent))
    ensures Flat(AllLog(tr.sent)) == MessageOut(Config(true, skip), QueryBlock(t.q), t.q.content)
    ensures TrailerCut(t.q.content, AllLog(tr.sent)) <==> CutsTrailer(t.q.content, t.sent)
  {
    hide Feed, Flat, LogOk, QueryOk, ReplyOk, Logged, Clean, TrailerAhead, TrailerCut, CutsTrailer, MessageOut, ContentBytes,
      QueryBlock, HEAD, AllLog, InOrder;
    var cfg := Config(true, skip);
    MessagesAreNotEmpty(t);
    SomeBytes(t.sent);
    QueryWalk(cfg, Sending(k), t.q);
    LoggedLengths(cfg, Sending(k), t.sent, tr.sent);
    LogsSayAll(cfg, Sending(k), t.sent, tr.sent);
    CutShowsInLog(cfg, Sending(k), t.sent, tr.sent, QueryBlock(t.q), t.q.content);
  }

  /** Of a request, what comes after the buffers with its header block is silent. */
  lemma ContentIsSilent(skip: bool, k: Kernel, t: Turn, tr: Trace, v: View, i: nat)
    requires TurnOk(t) && Traced(skip, k, t, tr) && Ready(k) && v.client == [] && HasBlock(t, i) && i < |t.sent|
    ensures |tr.sent| == |t.sent| && Silent(SeeAll(v, AllLog(tr.sent[..i])).0.client, tr.sent[i])
  {
    hide Flat, SeeAll, LogOk, TurnOk, Traced, Ready, AllLog, QueryBlock, MessageOut, Silent, IsWhole, ContentOk, TrailerCut,
      CutsTrailer;
    var a, b := BlockFirst(skip, k, t, tr, i);
    RequestLogged(skip, k, t, tr);
    assert QueryOk(t.q) by { TurnHasQuery(t); }
    WholeRequest(t.q);
    AllLogAt(tr.sent, i);
    SilentAfterBlock(Config(true, skip), v, a, b, tr.sent[i], AllLog(tr.sent[i + 1..]), QueryBlock(t.q), t.q.content);
  }

  lemma TurnHasQuery(t: Turn)
    requires TurnOk(t)
    ensures QueryOk(t.q)
  {
  }

  lemma SilentAfterBlock(cfg: Config, v: View, a: seq<Piece>, b: seq<Piece>, x: seq<Piece>, rest: seq<Piece>, block: bytes, c: Content)
    requires cfg.isReq && IsWhole(block) && ContentOk(c) && v.client == []
    requires var all := (a + b) + (x + rest); LogOk(true, all) && Flat(all) == MessageOut(cfg, block, c)
    requires LogOk(true, a) && Flat(a) == Hdrs(block) + [End]
    ensures Silent(SeeAll(v, a + b).0.client, x)
  {
    hide Flat, SeeAll, LogOk, Hdrs, ContentOut, IsWhole, Silent, ContentOk, P.ParseRequestLine;
    var content := b + (x + rest);
    assert (a + b) + (x + rest) == a + content;
    ContentLog(cfg, a, content, Hdrs(block), ContentOut(cfg, c));
    WholeBlock(v, true, a, block);
    var u := SeeAll(v, a).0;
    SilentContent(cfg, content, c);
    SilentConcat([], b, x + rest);
    SilentRun(u, b);
    SeeAllConcat(v, a, b);
    SilentConcat(SeeAll(u, b).0.client, x, rest);
  }

  lemma WholeRequest(q: Query)
    requires QueryOk(q)
    ensures IsWhole(QueryBlock(q)) && ContentOk(q.content)
  {
    var start := RequestLine(q.verb, q.path, q.version);
    hide IsWhole, ContentOk, HeaderBlock, P.IsHttpMethod, Framed;
    QueryFields(q);
    StartIsLine(start, q.verb, q.path + [SP] + q.version);
    BlockIsWholeToo(start, q.fields);
  }

  lemma ContentLog(cfg: Config, a: seq<Piece>, content: seq<Piece>, x: seq<Out>, y: seq<Out>)
    requires LogOk(true, a + content) && Flat(a) == x + [End] && Flat(a + content) == x + [End] + y
    ensures Flat(content) == y && LogOk(true, content)
  {
    assert (a + content)[|a|..] == content;
    LogOkPrefix(true, a + content, |a|);
    hide Flat, LogOk;
    FlatConcat(a, content);
    var n := |x + [End]|;
    assert Flat(content) == (Flat(a) + Flat(content))[n..] && y == (x + [End] + y)[n..];
  }

  lemma SilentContent(cfg: Config, log: seq<Piece>, c: Content)
    requires cfg.isReq && ContentOk(c) && LogOk(true, log) && Flat(log) == ContentOut(cfg, c)
    ensures Silent([], log)
  {
    hide SeeAll, Flat, ContentOut, LogOk, ContentOk, TrailerCut;
    ContentSeen(cfg, View([], [], None), log, c);
  }

  /** From a clean buffer, in whatever order the buffers of an exchange come, the parser sees its request
      and then its response. */
  lemma TurnInOrder(skip: bool, k: Kernel, t: Turn, tr: Trace, v: View)
    requires TurnOk(t) && Traced(skip, k, t, tr) && Ready(k) && v.client == []
    ensures SeeAll(v, TurnLog(tr)) == SeeAll(v, AllLog(tr.sent) + AllLog(tr.received))
  {
    RequestLogged(skip, k, t, tr);
    ResponseLogged(skip, k, t, tr);
    TraceFits(skip, k, t, tr);
    forall m | 0 <= m < |t.order| && t.order[m] && Writes(t.order[..m]) < m
      ensures var i := Writes(t.order[..m]);
        i < |tr.sent| && Silent(SeeAll(v, AllLog(tr.sent[..i])).0.client, tr.sent[i])
    {
      hide SeeAll, Silent, LogOk, AllLog, QueryOk, ReplyOk, Logged, Ready, Flat, MessageOut, TrailerCut, CutsTrailer;
      WritesGrow(t.order, m);
      ReadsBefore(t, m);
      ContentIsSilent(skip, k, t, tr, v, Writes(t.order[..m]));
    }
    hide SeeAll, Silent, LogOk, AllLog;
    OrderDoesNotMatter(v, tr.order, tr.sent, tr.received);
  }

  lemma TraceFits(skip: bool, k: Kernel, t: Turn, tr: Trace)
    requires TurnOk(t) && Traced(skip, k, t, tr)
    ensures Fits(tr.order, tr.sent, tr.received) && tr.order == t.order
  {
    hide Feed, Join, LogsBuffer, QueryOk, ReplyOk;
  }

  /** Where a buffer of the request comes after one of the response, the header block is there. */
  lemma ReadsBefore(t: Turn, m: nat)
    requires InOrder(t) && m < |t.order| && Writes(t.order[..m]) < m
    ensures HasBlock(t, Writes(t.order[..m]))
  {
    hide HasBlock;
    var j := LastRead(t.order[..m]);
    WritesPrefix(t.order, m);
    assert t.order[..m][j] == t.order[j] && t.order[..m][..j] == t.order[..j];
    BlockStays(t, Writes(t.order[..j]), Writes(t.order[..m]));
  }

  lemma {:induction false} LastRead(order: seq<bool>) returns (j: nat)
    requires Writes(order) < |order|
    ensures j < |order| && !order[j] && Writes(order[..j]) <= Writes(order)
  {
    var n := |order| - 1;
    if order[n] {
      j := LastRead(order[..n]);
      assert order[..n][..j] == order[..j];
    } else {
      j := n;
    }
  }

  lemma BlockStays(t: Turn, i: nat, j: nat)
    requires HasBlock(t, i) && i <= j <= |t.sent|
    ensures HasBlock(t, j)
  {
    hide QueryBlock, Join;
    JoinConcat(t.sent[..i], t.sent[i..j]);
    assert t.sent[..i] + t.sent[i..j] == t.sent[..j];
  }

  /** One exchange through the whole pipeline. */
  lemma TurnSeen(skip: bool, k: Kernel, t: Turn, tr: Trace)
    requires TurnOk(t) && Traced(skip, k, t, tr) && Ready(k)
    ensures IsDigits(t.r.code)
    ensures SeeAll(IDLE, TurnLog(tr)) ==
      (View(LeftOver(t.q.content, t.sent), LeftOver(t.r.content, t.received), None), [AnswerTo(t)])
  {
    assert IsDigits(t.r.code);
    hide SeeAll, QueryOk, ReplyOk, Traced, Ready, LeftOver, Decimal, TurnOk, TurnLog;
    TurnInOrder(skip, k, t, tr, IDLE);
    RequestSeen(skip, k, t, tr, IDLE);
    var v := SeeAll(IDLE, AllLog(tr.sent)).0;
    ResponseSeen(skip, k, t, tr, v);
    SeeAllConcat(IDLE, AllLog(tr.sent), AllLog(tr.received));
    assert [] + SeeAll(v, AllLog(tr.received)).1 == [AnswerTo(t)];
  }

  lemma RequestSeen(skip: bool, k: Kernel, t: Turn, tr: Trace, v: View)
    requires TurnOk(t) && Traced(skip, k, t, tr) && Ready(k) && v.client == []
    ensures SeeAll(v, AllLog(tr.sent)) ==
      (v.(client := LeftOver(t.q.content, t.sent), pending := Some((t.q.verb, t.q.path))), [])
  {
    hide Flat, SeeAll, LogOk, QueryOk, ReplyOk, Traced, Ready, TrailerCut, CutsTrailer, MessageOut, QueryBlock;
    RequestLogged(skip, k, t, tr);
    QuerySeen(Config(true, skip), v, AllLog(tr.sent), t.q);
  }

  /** What the logs of a response say: the flag that decides about its body comes from the request. */
  lemma ResponseLogged(skip: bool, k: Kernel, t: Turn, tr: Trace)
    requires TurnOk(t) && Traced(skip, k, t, tr) && Ready(k)
    ensures LogOk(false, AllLog(tr.received))
    ensures Flat(AllLog(tr.received)) == MessageOut(Config(false, skip), ReplyBlock(t.r), t.r.content)
    ensures TrailerCut(t.r.content, AllLog(tr.received)) <==> CutsTrailer(t.r.content, t.received)
  {
    hide Feed, Flat, LogOk, QueryOk, ReplyOk, Logged, Clean, TrailerAhead, TrailerCut, CutsTrailer, MessageOut, ContentBytes,
      ReplyBlock, HEAD;
    var cfg, w := Config(false, skip), Receiving(skip, k, t);
    MessagesAreNotEmpty(t);
    SomeBytes(t.received);
    QueryWalk(Config(true, skip), Sending(k), t.q);
    ReplyWalk(cfg, w, t.r, t.q.verb);
    LogsSayAll(cfg, w, t.received, tr.received);
    CutShowsInLog(cfg, w, t.received, tr.received, ReplyBlock(t.r), t.r.content);
  }

  lemma ResponseSeen(skip: bool, k: Kernel, t: Turn, tr: Trace, v: View)
    requires TurnOk(t) && Traced(skip, k, t, tr) && Ready(k) && IsDigits(t.r.code)
    requires v.server == [] && v.pending == Some((t.q.verb, t.q.path))
    ensures SeeAll(v, AllLog(tr.received)) ==
      (v.(pending := None, server := LeftOver(t.r.content, t.received)), [AnswerTo(t)])
  {
    hide Flat, SeeAll, LogOk, QueryOk, ReplyOk, Traced, Ready, TrailerCut, CutsTrailer, MessageOut, Decimal, ReplyBlock;
    ResponseLogged(skip, k, t, tr);
    ReplySeen(Config(false, skip), v, AllLog(tr.received), t.r, t.q.verb);
  }

  /** What is left in the header buffers after a conversation. */
  function LeftBehind(turns: seq<Turn>): View {
    if turns == [] then IDLE
    else
      var t := turns[|turns| - 1];
      View(LeftOver(t.q.content, t.sent), LeftOver(t.r.content, t.received), None)
  }

  lemma UncutLeavesNothing(turns: seq<Turn>)
    requires turns != [] ==> Uncut(turns[|turns| - 1])
    ensures LeftBehind(turns) == IDLE
  {
  }

  lemma {:induction false} ConversationSeen(skip: bool, turns: seq<Turn>, trs: seq<Trace>)
    requires Conversation(skip, turns, trs) && NoTrailerCut(turns)
    ensures var r := SeeAll(IDLE, ConversationLog(trs));
      r.0 == LeftBehind(turns) && AnswersAre(turns, r.1)
    decreases |turns|
  {
    hide SeeAll, TurnOk, Traced, AfterAll, Ready, Decimal, Uncut, LeftOver;
    if turns == [] {
      SeeAllEmpty(IDLE);
    } else {
      var n := |turns| - 1;
      NoTrailerCutInit(turns);
      ConversationSeen(skip, turns[..n], trs[..n]);
      UncutLeavesNothing(turns[..n]);
      ReadyAfterAll(skip, turns[..n], trs[..n]);
      TurnSeen(skip, AfterAll(skip, turns[..n]), turns[n], trs[n]);
      SeeAllConcat(IDLE, ConversationLog(trs[..n]), TurnLog(trs[n]));
      AnswersSnoc(turns, SeeAll(IDLE, ConversationLog(trs[..n])).1);
    }
  }

  lemma NoTrailerCutInit(turns: seq<Turn>)
    requires NoTrailerCut(turns) && turns != []
    ensures var n := |turns| - 1; NoTrailerCut(turns[..n]) && (n > 0 ==> Uncut(turns[..n][n - 1]))
  {
    hide Uncut;
    var n := |turns| - 1;
    assert forall i :: 0 <= i < n ==> turns[..n][i] == turns[i];
  }

  lemma AnswersSnoc(turns: seq<Turn>, more: seq<Answer>)
    requires turns != [] && IsDigits(turns[|turns| - 1].r.code) && AnswersAre(turns[..|turns| - 1], more)
    ensures AnswersAre(turns, more + [AnswerTo(turns[|turns| - 1])])
  {
    hide Decimal;
    var n := |turns| - 1;
    assert forall i :: 0 <= i < n ==> turns[i] == turns[..n][i];
  }

  /** End to end: for every conversation, however its bytes are cut into buffers and whenever its
      events are parsed, the parser returns exactly the method, path and status of each exchange, in
      order, provided no cut falls inside the line end of an empty trailer section. */
  lemma EveryExchangeIsReported(skip: bool, turns: seq<Turn>, trs: seq<Trace>, o: P.Options, ins: seq<P.Input>)
    requires Conversation(skip, turns, trs) && NoTrailerCut(turns)
    requires !o.enabled && Parsed(ins) == Events(ConversationLog(trs))
    ensures AnswersAre(turns, Answers(P.HandleAll(o, P.EMPTY, ins).1))
  {
    hide Conversation, NoTrailerCut, SeeAll, Answers, P.HandleAll, AnswersAre, Parsed, Events;
    ConversationSeen(skip, turns, trs);
    PlainParserSees(o, ConversationLog(trs), ins);
  }

  function CoreAnswers(cs: seq<P.Core>): (a: seq<Answer>)
    ensures |a| == |cs|
  {
    seq(|cs|, i requires 0 <= i < |cs| => Answer(cs[i].verb, cs[i].path, cs[i].status))
  }

  /** The same with bodies kept: what is returned, followed by what is still held. */
  lemma EveryExchangeIsReportedOrHeld(skip: bool, turns: seq<Turn>, trs: seq<Trace>, o: P.Options, ins: seq<P.Input>)
    requires Conversation(skip, turns, trs) && NoTrailerCut(turns)
    requires o.enabled && Parsed(ins) == Events(ConversationLog(trs))
    ensures var r := P.HandleAll(o, P.EMPTY, ins);
      AnswersAre(turns, CoreAnswers(P.Cores(r.1) + P.HeldCore(r.0)))
  {
    var y := P.HandleAll(P.Plain(o), P.EMPTY, ins).1;
    assert CoreAnswers(P.Cores(y)) == Answers(y);
    hide Conversation, NoTrailerCut, P.HandleAll, Parsed, Events, P.Cores, P.HeldCore, AnswersAre;
    EveryExchangeIsReported(skip, turns, trs, P.Plain(o), ins);
    P.BodiesRefinePlain(o, ins);
  }
}
