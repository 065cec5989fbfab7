/**
One connection through the agent's code: the kernel side's walker over the buffers of its system
calls, and the parser over the events of the walks, at any times and with flushes at any times.
*/
module Http1Agent {
  import opened Bytes
  import opened Http1Kernel
  import opened Http1Walk
  import opened Http1Body
  import opened Http1EndToEnd
  import opened Http1Pairing
  import opened Http1Conversation
  import opened Http1Order
  import opened Http1CutTrailer
  import C = Http1Connection
  import P = Http1Parser

  lemma EventsEmpty()
    ensures Events([]) == []
  {
  }

  lemma EventsSnoc(log: seq<Piece>, p: Piece)
    ensures Events(log + [p]) == Events(log) + (match p case Sent(e) => [e] case PhaseEnd => [])
  {
    assert (log + [p])[..|log|] == log;
  }

  lemma {:induction false} EventsConcat(a: seq<Piece>, b: seq<Piece>)
    ensures Events(a + b) == Events(a) + Events(b)
  {
    if b == [] {
      assert a + b == a;
    } else {
      var n := |b| - 1;
      EventsConcat(a, b[..n]);
      EventsSnoc(a + b[..n], b[n]);
      assert (a + b[..n]) + [b[n]] == a + b;
    }
  }

  lemma ParsedSnoc(ins: seq<P.Input>, i: P.Input)
    ensures Parsed(ins + [i]) == Parsed(ins) + (match i case Parse(e, _, _) => [e] case FlushAt(_) => [])
  {
    assert (ins + [i])[..|ins|] == ins;
  }

  lemma HandledSnoc(o: P.Options, ins: seq<P.Input>, i: P.Input)
    ensures var r := P.HandleAll(o, P.EMPTY, ins);
      var s := P.Handle(o, r.0, i);
      P.HandleAll(o, P.EMPTY, ins + [i]) == (s.0, r.1 + s.1)
  {
    hide P.Handle;
    assert (ins + [i])[..|ins|] == ins;
  }

  /** Buffers one walk can take. */
  predicate Fit(bufs: seq<bytes>) {
    forall i :: 0 <= i < |bufs| ==> 0 < |bufs[i]| <= 0x10_0000
  }

  // ---------------------------------------------------------------------------
  // The entry for HEAD requests
  // ---------------------------------------------------------------------------

  /** Two walks of a request that differ in the entry only: they stay so, or are the same from some point on. */
  ghost predicate SameButHead(a: (Walk, seq<Out>), b: (Walk, seq<Out>)) {
    a.0.st == b.0.st && a.1 == b.1 && (a.0.head == b.0.head || (a.0.head && !b.0.head))
  }

  lemma StepHead(cfg: Config, st: State, b: byte)
    requires cfg.isReq
    ensures SameButHead(Step(cfg, Walk(st, true), b), Step(cfg, Walk(st, false), b))
  {
    hide ScanByte, PayloadByte, FramingByte;
  }

  /** The walk of a request does not look at the entry. */
  lemma {:induction false} HeadIsIgnored(cfg: Config, st: State, input: bytes)
    requires cfg.isReq
    ensures SameButHead(Feed(cfg, Walk(st, true), input), Feed(cfg, Walk(st, false), input))
  {
    hide Feed, Step;
    if input == [] {
      FeedEmpty(cfg, Walk(st, true));
      FeedEmpty(cfg, Walk(st, false));
    } else {
      var n := |input| - 1;
      assert input == input[..n] + [input[n]];
      HeadIsIgnored(cfg, st, input[..n]);
      FeedSnoc(cfg, Walk(st, true), input[..n], input[n]);
      FeedSnoc(cfg, Walk(st, false), input[..n], input[n]);
      StepHead(cfg, Feed(cfg, Walk(st, true), input[..n]).0.st, input[n]);
    }
  }

  lemma AnyHead(cfg: Config, v: Walk, w: Walk, input: bytes)
    requires cfg.isReq && v.st == w.st
    ensures Feed(cfg, v, input).0.st == Feed(cfg, w, input).0.st && Feed(cfg, v, input).1 == Feed(cfg, w, input).1
    ensures PassesHead(cfg, v.st, input) ==> Feed(cfg, v, input).0.head == v.head
  {
    hide Feed;
    HeadIsIgnored(cfg, v.st, input);
    assert v == Walk(v.st, v.head) && w == Walk(v.st, w.head);
  }

  /** If the entry passes through all of an input, it passes through its parts. */
  lemma PassesParts(cfg: Config, st: State, x: bytes, y: bytes)
    requires cfg.isReq && PassesHead(cfg, st, x + y)
    ensures PassesHead(cfg, st, x) && PassesHead(cfg, Feed(cfg, Walk(st, true), x).0.st, y)
  {
    hide Feed;
    HeadIsIgnored(cfg, st, x);
    FeedConcat(cfg, Walk(st, true), x, y);
    FeedConcat(cfg, Walk(st, false), x, y);
    var a, b := Feed(cfg, Walk(st, true), x).0, Feed(cfg, Walk(st, false), x).0;
    assert a == Walk(a.st, a.head) && b == Walk(a.st, b.head);
  }

  // ---------------------------------------------------------------------------
  // An exchange, buffer by buffer
  // ---------------------------------------------------------------------------

  /** The walks of an exchange say what its messages are. */
  lemma TurnSays(skip: bool, k: Kernel, t: Turn)
    requires TurnOk(t) && Ready(k)
    ensures Feed(Config(true, skip), Sending(k), Join(t.sent)).1 == MessageOut(Config(true, skip), QueryBlock(t.q), t.q.content)
    ensures Feed(Config(false, skip), Receiving(skip, k, t), Join(t.received)).1 ==
      MessageOut(Config(false, skip), ReplyBlock(t.r), t.r.content)
    ensures HeadPasses(Config(true, skip), Sending(k), QueryBlock(t.q), t.q.content)
  {
    hide Feed, QueryOk, ReplyOk, Clean, HEAD, MessageOut, TrailerAhead, HeadPasses, InOrder;
    QueryWalk(Config(true, skip), Sending(k), t.q);
    ReplyWalk(Config(false, skip), Receiving(skip, k, t), t.r, t.q.verb);
  }

  ghost function AskedSoFar(skip: bool, k: Kernel, t: Turn, i: nat): Walk
    requires i <= |t.sent|
  {
    Feed(Config(true, skip), Sending(k), Join(t.sent[..i])).0
  }

  ghost function AnsweredSoFar(skip: bool, k: Kernel, t: Turn, j: nat): Walk
    requires j <= |t.received|
  {
    Feed(Config(false, skip), Receiving(skip, k, t), Join(t.received[..j])).0
  }

  /** What the kernel side remembers after i buffers of the request and j of the response. */
  ghost predicate Reached(skip: bool, k: Kernel, t: Turn, i: nat, j: nat, mem: Kernel)
    requires i <= |t.sent| && j <= |t.received|
  {
    && mem.req == AskedSoFar(skip, k, t, i).st
    && if j == 0 then mem.resp == k.resp && mem.head == AskedSoFar(skip, k, t, i).head
       else Walk(mem.resp, mem.head) == AnsweredSoFar(skip, k, t, j)
  }

  lemma BufferAt(cfg: Config, w: Walk, bufs: seq<bytes>, i: nat)
    requires i < |bufs|
    ensures Join(bufs) == Join(bufs[..i]) + bufs[i] + Join(bufs[i + 1..]) && Join(bufs[..i + 1]) == Join(bufs[..i]) + bufs[i]
    ensures Feed(cfg, w, Join(bufs[..i + 1])).0 == Feed(cfg, Feed(cfg, w, Join(bufs[..i])).0, bufs[i]).0
  {
    hide Feed, Join;
    SplitAt(bufs, i);
    JoinSnoc(bufs[..i], bufs[i]);
    JoinConcat(bufs[..i + 1], bufs[i + 1..]);
    FeedConcat(cfg, w, Join(bufs[..i]), bufs[i]);
  }

  /** Each buffer of a message is walked to its end. */
  lemma BufferOfMessage(cfg: Config, w: Walk, bufs: seq<bytes>, i: nat, block: bytes, c: Content)
    requires i < |bufs| && bufs[i] != [] && Feed(cfg, w, Join(bufs)).1 == MessageOut(cfg, block, c)
    ensures RoundsSuffice(cfg, Feed(cfg, w, Join(bufs[..i])).0, bufs[i])
  {
    hide Feed, MessageOut, RoundsSuffice, Join;
    BufferAt(cfg, w, bufs, i);
    MessageRoundsSuffice(cfg, w, Join(bufs[..i]), bufs[i], Join(bufs[i + 1..]), block, c);
  }

  /** Behind the header block of a request the entry passes through every buffer. */
  lemma ContentPasses(skip: bool, k: Kernel, t: Turn, i: nat)
    requires TurnOk(t) && Ready(k) && HasBlock(t, i)
    ensures AskedSoFar(skip, k, t, i).head == Asked(skip, k, t).head
    ensures i < |t.sent| ==> PassesHead(Config(true, skip), AskedSoFar(skip, k, t, i).st, t.sent[i])
  {
    hide Feed, QueryOk, ReplyOk, Ready, InOrder, QueryBlock, ContentBytes, MessageOut, PassesHead;
    var cfg, block := Config(true, skip), QueryBlock(t.q);
    TurnSays(skip, k, t);
    var c := BytesOfPrefix(t, i);
    var rest := Join(t.sent[i..]);
    assert t.sent == t.sent[..i] + t.sent[i..];
    JoinConcat(t.sent[..i], t.sent[i..]);
    var b := Feed(cfg, Sending(k), block).0;
    ContentIs(block, c, rest, ContentBytes(t.q.content));
    FeedConcat(cfg, Sending(k), block, c);
    FeedConcat(cfg, Sending(k), block, ContentBytes(t.q.content));
    PassesParts(cfg, b.st, c, rest);
    AnyHead(cfg, b, Walk(b.st, true), c);
    AnyHead(cfg, b, b, ContentBytes(t.q.content));
    if i < |t.sent| {
      assert t.sent[i..] == [t.sent[i]] + t.sent[i + 1..];
      JoinFirst(t.sent[i], t.sent[i + 1..]);
      PassesParts(cfg, AskedSoFar(skip, k, t, i).st, t.sent[i], Join(t.sent[i + 1..]));
    }
  }

  lemma JoinFirst(x: bytes, more: seq<bytes>)
    ensures Join([x] + more) == x + Join(more)
  {
    assert ([x] + more)[1..] == more;
  }

  lemma ContentIs(block: bytes, c: bytes, rest: bytes, content: bytes)
    requires (block + c) + rest == block + content
    ensures content == c + rest
  {
    assert content == (block + content)[|block|..] && ((block + c) + rest)[|block|..] == c + rest;
  }

  /** The next buffer of the request is walked to its end, whatever the response has done to the entry. */
  lemma WriteIsNext(skip: bool, k: Kernel, t: Turn, i: nat, j: nat, mem: Kernel)
    requires TurnOk(t) && Ready(k) && i < |t.sent| && j <= |t.received| && t.sent[i] != [] && Reached(skip, k, t, i, j, mem)
    ensures RoundsSuffice(Config(true, skip), Walk(mem.req, mem.head), t.sent[i])
  {
    hide Feed, TurnOk, Ready, Join, MessageOut, QueryBlock, ReplyBlock, HeadPasses;
    var cfg, buf, w := Config(true, skip), t.sent[i], AskedSoFar(skip, k, t, i);
    TurnSays(skip, k, t);
    BufferOfMessage(cfg, Sending(k), t.sent, i, QueryBlock(t.q), t.q.content);
    AnyHead(cfg, Walk(mem.req, mem.head), w, buf[..|buf| - 1]);
  }

  lemma Wrote(skip: bool, k: Kernel, t: Turn, i: nat, j: nat, mem: Kernel, mem': Kernel, log: seq<Piece>)
    requires TurnOk(t) && Ready(k) && i < |t.sent| && j <= |t.received| && Reached(skip, k, t, i, j, mem)
    requires j > 0 ==> HasBlock(t, i)
    requires var w := Walk(mem.req, mem.head);
      && LogsBuffer(Config(true, skip), w, t.sent[i], log) && mem'.resp == mem.resp
      && Walk(mem'.req, mem'.head) == Feed(Config(true, skip), w, t.sent[i]).0
    ensures Reached(skip, k, t, i + 1, j, mem') && LogsBuffer(Config(true, skip), AskedSoFar(skip, k, t, i), t.sent[i], log)
  {
    hide Feed, TurnOk, Ready, Join, HasBlock, PassesHead;
    var cfg, buf, w := Config(true, skip), t.sent[i], AskedSoFar(skip, k, t, i);
    BufferAt(cfg, Sending(k), t.sent, i);
    AnyHead(cfg, Walk(mem.req, mem.head), w, buf);
    if j > 0 { ContentPasses(skip, k, t, i); }
  }

  lemma ReadIsNext(skip: bool, k: Kernel, t: Turn, i: nat, j: nat, mem: Kernel)
    requires TurnOk(t) && Ready(k) && i <= |t.sent| && j < |t.received| && Reached(skip, k, t, i, j, mem) && HasBlock(t, i)
    ensures Walk(mem.resp, mem.head) == AnsweredSoFar(skip, k, t, j)
    ensures t.received[j] != [] ==> RoundsSuffice(Config(false, skip), Walk(mem.resp, mem.head), t.received[j])
  {
    hide Feed, TurnOk, Ready, HasBlock, PassesHead, MessageOut, RoundsSuffice, QueryBlock, ReplyBlock, HeadPasses;
    if j == 0 {
      ContentPasses(skip, k, t, i);
      assert t.received[..0] == [] && Join([]) == [];
      FeedEmpty(Config(false, skip), Receiving(skip, k, t));
    }
    TurnSays(skip, k, t);
    if t.received[j] != [] {
      BufferOfMessage(Config(false, skip), Receiving(skip, k, t), t.received, j, ReplyBlock(t.r), t.r.content);
    }
  }

  lemma Read(skip: bool, k: Kernel, t: Turn, i: nat, j: nat, mem: Kernel, mem': Kernel)
    requires i <= |t.sent| && j < |t.received| && Reached(skip, k, t, i, j, mem) && mem'.req == mem.req
    requires Walk(mem.resp, mem.head) == AnsweredSoFar(skip, k, t, j)
    requires Walk(mem'.resp, mem'.head) == Feed(Config(false, skip), Walk(mem.resp, mem.head), t.received[j]).0
    ensures Reached(skip, k, t, i, j + 1, mem')
  {
    hide Feed, Join;
    BufferAt(Config(false, skip), Receiving(skip, k, t), t.received, j);
  }

  lemma NothingReached(skip: bool, k: Kernel, t: Turn)
    ensures Reached(skip, k, t, 0, 0, k)
    ensures LogsReached(skip, k, t, 0, 0, [], [])
    ensures Events(Mixed(t.order[..0], [], [])) == []
  {
    assert t.sent[..0] == [] && Join([]) == [];
    FeedEmpty(Config(true, skip), Sending(k));
  }

  lemma AllReached(skip: bool, k: Kernel, t: Turn, mem: Kernel, xs: seq<seq<Piece>>, ys: seq<seq<Piece>>)
    requires TurnOk(t) && Reached(skip, k, t, |t.sent|, |t.received|, mem)
    requires LogsReached(skip, k, t, |t.sent|, |t.received|, xs, ys)
    ensures mem == After(skip, k, t) && Traced(skip, k, t, Trace(xs, ys, t.order))
  {
    hide Feed, QueryOk, ReplyOk, InOrder, Logged;
    assert t.sent[..|t.sent|] == t.sent && t.received[..|t.received|] == t.received;
    MessagesAreNotEmpty(t);
    SomeBytes(t.received);
  }

  lemma MixedSnoc(order: seq<bool>, m: nat, xs: seq<seq<Piece>>, ys: seq<seq<Piece>>, log: seq<Piece>)
    requires m < |order|
    ensures order[m] ==> Mixed(order[..m + 1], xs + [log], ys) == Mixed(order[..m], xs, ys) + log
    ensures !order[m] ==> Mixed(order[..m + 1], xs, ys + [log]) == Mixed(order[..m], xs, ys) + log
    ensures Writes(order[..m + 1]) == Writes(order[..m]) + if order[m] then 1 else 0
  {
    assert order[..m + 1][..m] == order[..m];
    assert (xs + [log])[..|xs|] == xs && (ys + [log])[..|ys|] == ys;
  }

  lemma ReadsGrow(order: seq<bool>, m: nat)
    requires m < |order| && !order[m]
    ensures m - Writes(order[..m]) < |order| - Writes(order)
    decreases |order|
  {
    var n := |order| - 1;
    if m < n {
      ReadsGrow(order[..n], m);
      assert order[..n][..m] == order[..m];
    }
  }

  lemma OrderOf(t: Turn)
    requires TurnOk(t)
    ensures Writes(t.order) == |t.sent| && |t.order| == |t.sent| + |t.received| && Writes(t.order[..0]) == 0
  {
  }

  /** What is known when a buffer has its turn. */
  lemma NextInOrder(t: Turn, m: nat)
    requires TurnOk(t) && m < |t.order|
    ensures var i := Writes(t.order[..m]);
      && (t.order[m] ==> i < |t.sent| && (i < m ==> HasBlock(t, i)))
      && (!t.order[m] ==> m - i < |t.received| && HasBlock(t, i))
  {
    hide QueryOk, ReplyOk, HasBlock;
    if t.order[m] {
      WritesGrow(t.order, m);
      if Writes(t.order[..m]) < m { ReadsBefore(t, m); }
    } else {
      ReadsGrow(t.order, m);
    }
  }

  /** The logs of i buffers of the request and j of the response. */
  ghost predicate LogsReached(skip: bool, k: Kernel, t: Turn, i: nat, j: nat, xs: seq<seq<Piece>>, ys: seq<seq<Piece>>)
    requires i <= |t.sent| && j <= |t.received|
  {
    && Logged(Config(true, skip), Sending(k), t.sent[..i], xs)
    && Logged(Config(false, skip), Receiving(skip, k, t), t.received[..j], ys)
  }

  lemma LogWritten(skip: bool, k: Kernel, t: Turn, m: nat, i: nat, j: nat, xs: seq<seq<Piece>>, ys: seq<seq<Piece>>, log: seq<Piece>)
    requires i < |t.sent| && j <= |t.received| && LogsReached(skip, k, t, i, j, xs, ys) && m < |t.order| && t.order[m]
    requires LogsBuffer(Config(true, skip), AskedSoFar(skip, k, t, i), t.sent[i], log)
    ensures LogsReached(skip, k, t, i + 1, j, xs + [log], ys) && Writes(t.order[..m + 1]) == Writes(t.order[..m]) + 1
    ensures Events(Mixed(t.order[..m + 1], xs + [log], ys)) == Events(Mixed(t.order[..m], xs, ys)) + Events(log)
  {
    hide Feed, LogsBuffer, Logged, Join, Events, Mixed, Writes;
    LoggedSnoc(Config(true, skip), Sending(k), t.sent[..i], xs, t.sent[i], log);
    SplitAt(t.sent, i);
    MixedSnoc(t.order, m, xs, ys, log);
    EventsConcat(Mixed(t.order[..m], xs, ys), log);
  }

  lemma LogRead(skip: bool, k: Kernel, t: Turn, m: nat, i: nat, j: nat, xs: seq<seq<Piece>>, ys: seq<seq<Piece>>, log: seq<Piece>)
    requires i <= |t.sent| && j < |t.received| && LogsReached(skip, k, t, i, j, xs, ys) && m < |t.order| && !t.order[m]
    requires LogsBuffer(Config(false, skip), AnsweredSoFar(skip, k, t, j), t.received[j], log)
    ensures LogsReached(skip, k, t, i, j + 1, xs, ys + [log]) && Writes(t.order[..m + 1]) == Writes(t.order[..m])
    ensures Events(Mixed(t.order[..m + 1], xs, ys + [log])) == Events(Mixed(t.order[..m], xs, ys)) + Events(log)
  {
    hide Feed, LogsBuffer, Logged, Join, Events, Mixed, Writes;
    LoggedSnoc(Config(false, skip), Receiving(skip, k, t), t.received[..j], ys, t.received[j], log);
    SplitAt(t.received, j);
    MixedSnoc(t.order, m, xs, ys, log);
    EventsConcat(Mixed(t.order[..m], xs, ys), log);
  }

  lemma ConversationEmpty(skip: bool, turns: seq<Turn>)
    ensures Conversation(skip, turns[..0], []) && AfterAll(skip, turns[..0]) == START
    ensures Events(ConversationLog([])) == Parsed([])
  {
  }

  lemma ConversationSnoc(skip: bool, turns: seq<Turn>, trs: seq<Trace>, t: Turn, tr: Trace)
    requires Conversation(skip, turns, trs) && TurnOk(t) && Traced(skip, AfterAll(skip, turns), t, tr)
    ensures Conversation(skip, turns + [t], trs + [tr])
    ensures AfterAll(skip, turns + [t]) == After(skip, AfterAll(skip, turns), t)
    ensures Events(ConversationLog(trs + [tr])) == Events(ConversationLog(trs)) + Events(TurnLog(tr))
  {
    hide TurnOk, Traced, After, TurnLog, Events;
    assert (turns + [t])[..|turns|] == turns;
    assert |trs| == |turns| && (trs + [tr])[..|trs|] == trs;
    EventsConcat(ConversationLog(trs), TurnLog(tr));
  }

  lemma WhatIsReported(skip: bool, turns: seq<Turn>, trs: seq<Trace>, o: P.Options, ins: seq<P.Input>)
    requires Conversation(skip, turns, trs) && Parsed(ins) == Events(ConversationLog(trs))
    ensures var r := P.HandleAll(o, P.EMPTY, ins);
      && (NoTrailerCut(turns) ==> AnswersAre(turns, Said(o, r)))
      && (AllOnlyThemselves(skip, turns) && !NoTrailerCut(turns) ==> !AnswersAre(turns, Said(o, r)))
      && forall i :: 0 <= i < |turns| - 1 && CutsTrailer(turns[i].q.content, turns[i].sent) ==> |r.1| + |P.HeldCore(r.0)| < |turns|
  {
    hide P.HandleAll, Parsed, Events, ConversationLog, Conversation, CutsTrailer, NoTrailerCut, AnswersAre, Answers, CoreAnswers,
      P.Cores, P.HeldCore, OnlyItself, AllQuiet;
    if NoTrailerCut(turns) {
      if o.enabled {
        EveryExchangeIsReportedOrHeld(skip, turns, trs, o, ins);
      } else {
        EveryExchangeIsReported(skip, turns, trs, o, ins);
      }
    }
    if AllOnlyThemselves(skip, turns) {
      AllAreQuiet(skip, turns, trs);
      ReportedIffNoTrailerCut(skip, turns, trs, o, ins);
    }
    forall i | 0 <= i < |turns| - 1 && CutsTrailer(turns[i].q.content, turns[i].sent)
      ensures var r := P.HandleAll(o, P.EMPTY, ins); |r.1| + |P.HeldCore(r.0)| < |turns|
    {
      CutRequestIsNotReported(skip, turns, trs, o, ins, i);
    }
  }

  ghost predicate AllOnlyThemselves(skip: bool, turns: seq<Turn>) {
    forall i :: 0 <= i < |turns| ==> OnlyItself(skip, turns[i].r.content)
  }

  class Agent {
    const kernel: Walker
    const parser: C.Parser
    var reported: seq<P.Request>
    ghost var inputs: seq<P.Input>

    constructor (skip: bool, enabled: bool, maxBytes: int, wait: int, headersOf: bytes -> P.Headers,
                 keep: (bytes, bytes, bytes) -> bool)
      ensures Valid() && fresh(kernel) && fresh(parser)
      ensures kernel.skip == skip && parser.opts.enabled == enabled && Memory() == START && inputs == []
    {
      kernel := new Walker(skip);
      parser := new C.Parser(enabled, maxBytes, wait, headersOf, keep);
      reported, inputs := [], [];
    }

    /** What was reported is what the parser's functions return for the inputs so far. */
    ghost predicate Valid()
      reads this, kernel, parser
    {
      kernel.Valid() && (parser.View(), reported) == P.HandleAll(parser.opts, P.EMPTY, inputs)
    }

    ghost function Memory(): Kernel
      reads kernel
    {
      Kernel(kernel.req, kernel.resp, kernel.head)
    }

    /** A flush at any time, or none. */
    method MaybeFlush()
      requires Valid()
      modifies this, parser
      ensures Valid() && Parsed(inputs) == old(Parsed(inputs))
    {
      hide P.HandleAll, P.Flush, Parsed;
      if * {
        var now: int := *;
        var out := parser.Flush(now);
        HandledSnoc(parser.opts, inputs, P.FlushAt(now));
        ParsedSnoc(inputs, P.FlushAt(now));
        reported, inputs := reported + out, inputs + [P.FlushAt(now)];
      }
    }

    /** A piece of a walk's log, parsed at any time if it is an event. */
    method DeliverPiece(p: Piece)
      requires Valid()
      modifies this, parser
      ensures Valid() && Parsed(inputs) == old(Parsed(inputs)) + (match p case Sent(e) => [e] case PhaseEnd => [])
    {
      hide P.HandleAll, P.ParseAt, Parsed;
      MaybeFlush();
      if p.Sent? {
        var time: nat, now: int := *, *;
        var out := parser.ParseAt(p.e, time, now);
        var input := P.Parse(p.e, time, now);
        HandledSnoc(parser.opts, inputs, input);
        ParsedSnoc(inputs, input);
        reported, inputs := reported + out, inputs + [input];
      }
    }

    /** The events of a walk. */
    method Deliver(log: seq<Piece>)
      requires Valid()
      modifies this, parser
      ensures Valid() && Parsed(inputs) == old(Parsed(inputs)) + Events(log)
    {
      hide P.HandleAll, Parsed, Events;
      EventsEmpty();
      assert log[..0] == [];
      for i := 0 to |log|
        invariant Valid() && Parsed(inputs) == old(Parsed(inputs)) + Events(log[..i])
      {
        EventsSnoc(log[..i], log[i]);
        assert log[..i] + [log[i]] == log[..i + 1];
        DeliverPiece(log[i]);
      }
      assert log[..|log|] == log;
    }

    /** One buffer of a system call. */
    method OnBuffer(isReq: bool, buf: bytes) returns (ghost log: seq<Piece>)
      requires Valid() && 0 < |buf| <= 0x10_0000 && RoundsSuffice(kernel.Cfg(isReq), kernel.Direction(isReq), buf)
      modifies this, kernel, parser
      ensures Valid() && LogsBuffer(kernel.Cfg(isReq), old(kernel.Direction(isReq)), buf, log)
      ensures kernel.Direction(isReq) == Feed(kernel.Cfg(isReq), old(kernel.Direction(isReq)), buf).0
      ensures (if isReq then kernel.resp else kernel.req) == old(if isReq then kernel.resp else kernel.req)
      ensures Parsed(inputs) == old(Parsed(inputs)) + Events(log)
    {
      hide Feed, Flat, LogOk, Packed, P.HandleAll, Parsed, Events, RoundsSuffice;
      var l, n := kernel.WalkBuffer(isReq, buf);
      assert buf[..n] == buf;
      Deliver(l);
      log := l;
    }

    /** The next buffer of the request. */
    method OnWrite(t: Turn, i: nat, ghost j: nat, ghost k: Kernel) returns (ghost log: seq<Piece>)
      requires Valid() && TurnOk(t) && Ready(k) && i < |t.sent| && j <= |t.received| && 0 < |t.sent[i]| <= LOOP_MAX
      requires Reached(kernel.skip, k, t, i, j, Memory()) && (j > 0 ==> HasBlock(t, i))
      modifies this, kernel, parser
      ensures Valid() && Reached(kernel.skip, k, t, i + 1, j, Memory())
      ensures LogsBuffer(Config(true, kernel.skip), AskedSoFar(kernel.skip, k, t, i), t.sent[i], log)
      ensures Parsed(inputs) == old(Parsed(inputs)) + Events(log)
    {
      hide TurnOk, Ready, Reached, Feed, P.HandleAll, Parsed, Events, RoundsSuffice, LogsBuffer, HasBlock, AskedSoFar;
      ghost var mem := Memory();
      WriteIsNext(kernel.skip, k, t, i, j, mem);
      log := OnBuffer(true, t.sent[i]);
      Wrote(kernel.skip, k, t, i, j, mem, Memory(), log);
    }

    /** The next buffer of the response. */
    method OnRead(t: Turn, ghost i: nat, j: nat, ghost k: Kernel) returns (ghost log: seq<Piece>)
      requires Valid() && TurnOk(t) && Ready(k) && i <= |t.sent| && j < |t.received| && 0 < |t.received[j]| <= LOOP_MAX
      requires Reached(kernel.skip, k, t, i, j, Memory()) && HasBlock(t, i)
      modifies this, kernel, parser
      ensures Valid() && Reached(kernel.skip, k, t, i, j + 1, Memory())
      ensures LogsBuffer(Config(false, kernel.skip), AnsweredSoFar(kernel.skip, k, t, j), t.received[j], log)
      ensures Parsed(inputs) == old(Parsed(inputs)) + Events(log)
    {
      hide TurnOk, Ready, Reached, Feed, P.HandleAll, Parsed, Events, RoundsSuffice, LogsBuffer, HasBlock, AnsweredSoFar;
      ghost var mem := Memory();
      ReadIsNext(kernel.skip, k, t, i, j, mem);
      log := OnBuffer(false, t.received[j]);
      Read(kernel.skip, k, t, i, j, mem, Memory());
    }

    /** One exchange, its buffers in their order. */
    method OnTurn(t: Turn) returns (ghost tr: Trace)
      requires Valid() && TurnOk(t) && Fit(t.sent) && Fit(t.received) && Ready(Memory())
      modifies this, kernel, parser
      ensures Valid() && Traced(kernel.skip, old(Memory()), t, tr) && Memory() == After(kernel.skip, old(Memory()), t)
      ensures Parsed(inputs) == old(Parsed(inputs)) + Events(TurnLog(tr))
    {
      hide TurnOk, Ready, Reached, LogsReached, Feed, P.HandleAll, Parsed, Events, LogsBuffer, HasBlock, AskedSoFar, AnsweredSoFar,
        After, Traced, Mixed, Writes;
      ghost var skip, k, parsed := kernel.skip, Memory(), Parsed(inputs);
      ghost var xs: seq<seq<Piece>>, ys: seq<seq<Piece>> := [], [];
      var i, j := 0, 0;
      NothingReached(skip, k, t);
      OrderOf(t);
      for m := 0 to |t.order|
        invariant i == Writes(t.order[..m]) && i + j == m && i <= |t.sent| && j <= |t.received|
        invariant Valid() && Reached(skip, k, t, i, j, Memory()) && LogsReached(skip, k, t, i, j, xs, ys)
        invariant Parsed(inputs) == parsed + Events(Mixed(t.order[..m], xs, ys))
      {
        NextInOrder(t, m);
        ghost var log;
        if t.order[m] {
          log := OnWrite(t, i, j, k);
          LogWritten(skip, k, t, m, i, j, xs, ys, log);
          xs, i := xs + [log], i + 1;
        } else {
          log := OnRead(t, i, j, k);
          LogRead(skip, k, t, m, i, j, xs, ys, log);
          ys, j := ys + [log], j + 1;
        }
      }
      tr := Trace(xs, ys, t.order);
      assert t.order[..|t.order|] == t.order;
      AllReached(skip, k, t, Memory(), xs, ys);
    }

    /** A conversation over a new connection. Every exchange is reported, in order, and nothing else is,
        if no line end of an empty trailer section is cut before the last exchange. If one is, not every
        exchange is reported: where it is a request's, fewer are than there were, and where it is a
        response's, that is said of conversations in which no response holds another. */
    method Observe(turns: seq<Turn>)
      requires Valid() && Memory() == START && inputs == []
      requires forall i :: 0 <= i < |turns| ==> TurnOk(turns[i]) && Fit(turns[i].sent) && Fit(turns[i].received)
      modifies this, kernel, parser
      ensures Valid()
      ensures NoTrailerCut(turns) ==> AnswersAre(turns, Said(parser.opts, (parser.View(), reported)))
      ensures AllOnlyThemselves(kernel.skip, turns) && !NoTrailerCut(turns) ==>
        !AnswersAre(turns, Said(parser.opts, (parser.View(), reported)))
      ensures forall i :: 0 <= i < |turns| - 1 && CutsTrailer(turns[i].q.content, turns[i].sent) ==>
        |reported| + |P.HeldCore(parser.View())| < |turns|
    {
      hide TurnOk, Fit, P.HandleAll, Parsed, Events, ConversationLog, Conversation, AfterAll, After, Traced, Ready, TurnLog, CutsTrailer,
        NoTrailerCut, AnswersAre, Said, P.HeldCore, AllOnlyThemselves;
      ghost var trs: seq<Trace> := [];
      ConversationEmpty(kernel.skip, turns);
      for i := 0 to |turns|
        invariant Valid() && Conversation(kernel.skip, turns[..i], trs) && Memory() == AfterAll(kernel.skip, turns[..i])
        invariant Parsed(inputs) == Events(ConversationLog(trs))
      {
        ReadyAfterAll(kernel.skip, turns[..i], trs);
        ghost var tr := OnTurn(turns[i]);
        ConversationSnoc(kernel.skip, turns[..i], trs, turns[i], tr);
        assert turns[..i] + [turns[i]] == turns[..i + 1];
        trs := trs + [tr];
      }
      assert turns[..|turns|] == turns;
      WhatIsReported(kernel.skip, turns, trs, parser.opts, inputs);
    }
  }
}
