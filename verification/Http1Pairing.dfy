/**
The user side's parser over the events of a kernel-side walk, when it keeps no bodies: however a
header block is cut into events it is taken as one, and data events change nothing between messages.
*/
module Http1Pairing {
  import opened Bytes
  import opened Http1Kernel
  import opened Http1Walk
  import opened Http1Message
  import opened Http1Fields
  import opened Http1Body
  import opened Wrappers
  import P = Http1Parser

  // ---------------------------------------------------------------------------
  // The parser without its clocks
  // ---------------------------------------------------------------------------

  /** What a parser that keeps no bodies remembers, apart from times. */
  datatype View = View(client: bytes, server: bytes, pending: Option<(bytes, bytes)>)

  datatype Answer = Answer(verb: bytes, path: bytes, status: int)

  function ViewOf(p: P.State): View {
    View(p.clientBuf, p.serverBuf, if p.pending.Some? then Some((p.pending.value.verb, p.pending.value.path)) else None)
  }

  function AnswerOf(r: P.Request): Answer {
    Answer(r.verb, r.path, r.status)
  }

  function Answers(rs: seq<P.Request>): (a: seq<Answer>)
    ensures |a| == |rs|
  {
    seq(|rs|, i requires 0 <= i < |rs| => AnswerOf(rs[i]))
  }

  function Request(v: View, block: bytes): View {
    match P.ParseRequestLine(block)
    case None => v
    case Some(r) => v.(pending := Some(r))
  }

  function Response(v: View, block: bytes): (View, seq<Answer>) {
    var status := P.ParseStatusLine(block);
    if status.None? || v.pending.None? then (v, [])
    else (v.(pending := None), [Answer(v.pending.value.0, v.pending.value.1, status.value)])
  }

  function ClientBytes(v: View, payload: bytes): View {
    var buf := v.client + P.Incoming(v.client, payload);
    if buf != [] && P.Complete(buf) then Request(v.(client := []), buf) else v.(client := buf)
  }

  function ServerBytes(v: View, payload: bytes): (View, seq<Answer>) {
    var buf := v.server + P.Incoming(v.server, payload);
    if buf != [] && P.Complete(buf) then Response(v.(server := []), buf) else (v.(server := buf), [])
  }

  function ServerPayload(v: View, payload: bytes): (View, seq<Answer>)
    decreases |payload|
  {
    if v.pending.Some? && v.server == [] && P.RESPONSE_PREFIX <= payload then
      var end := P.BlockEnd(payload);
      if end == -1 || end == |payload| then ServerBytes(v, payload)
      else
        var (u, out) := ServerBytes(v, payload[..end]);
        var (t, more) := ServerPayload(u, payload[end..]);
        (t, out + more)
    else (v, [])
  }

  function See(v: View, e: Event): (View, seq<Answer>) {
    match e.kind
    case ClientHeaders => (ClientBytes(v, e.payload), [])
    case ClientData => (v, [])
    case ServerHeaders => ServerBytes(v, e.payload)
    case ServerData => ServerPayload(v, e.payload)
  }

  ghost predicate SameView(p: P.State, r: (P.State, seq<P.Request>), s: (View, seq<Answer>)) {
    r.0.response == p.response && ViewOf(r.0) == s.0 && Answers(r.1) == s.1
  }

  lemma AnswersConcat(a: seq<P.Request>, b: seq<P.Request>)
    ensures Answers(a + b) == Answers(a) + Answers(b)
  {
  }

  lemma SameServerBytes(o: P.Options, p: P.State, payload: bytes, time: nat, now: int)
    requires !o.enabled
    ensures SameView(p, P.OnServerHeaders(o, p, payload, time, now), ServerBytes(ViewOf(p), payload))
  {
    hide P.ParseStatusLine, P.Incoming, P.Complete;
  }

  lemma {:induction false} SameServerPayload(o: P.Options, p: P.State, payload: bytes, time: nat, now: int)
    requires !o.enabled && p.response.None?
    ensures SameView(p, P.OnServerData(o, p, payload, time, now), ServerPayload(ViewOf(p), payload))
    decreases |payload|
  {
    hide P.OnServerHeaders, ServerBytes, P.BlockEnd;
    if P.Recovers(p, payload) {
      var end := P.BlockEnd(payload);
      if end == -1 || end == |payload| {
        SameServerBytes(o, p, payload, time, now);
      } else {
        SameServerBytes(o, p, payload[..end], time, now);
        var q := P.OnServerHeaders(o, p, payload[..end], time, now);
        SameServerPayload(o, q.0, payload[end..], time, now);
        AnswersConcat(q.1, P.OnServerData(o, q.0, payload[end..], time, now).1);
      }
    }
  }

  /** The plain parser is See, whatever the times are. */
  lemma SameSee(o: P.Options, p: P.State, e: Event, time: nat, now: int)
    requires !o.enabled && p.response.None?
    ensures SameView(p, P.ParseAt(o, p, e, time, now), See(ViewOf(p), e))
  {
    match e.kind
    case ClientHeaders => hide P.ParseRequestLine, P.Incoming, P.Complete;
    case ClientData =>
    case ServerHeaders => SameServerBytes(o, p, e.payload, time, now);
    case ServerData => SameServerPayload(o, p, e.payload, time, now);
  }

  /** The parser over the log of a walk. */
  function SeeAll(v: View, log: seq<Piece>): (View, seq<Answer>) {
    if log == [] then (v, [])
    else
      var n := |log| - 1;
      var (u, out) := SeeAll(v, log[..n]);
      match log[n]
      case PhaseEnd => (u, out)
      case Sent(e) =>
        var (t, more) := See(u, e);
        (t, out + more)
  }

  lemma SeeAllEmpty(v: View)
    ensures SeeAll(v, []) == (v, [])
  {
  }

  lemma SeeAllSnoc(v: View, log: seq<Piece>, p: Piece)
    ensures var (u, out) := SeeAll(v, log);
      SeeAll(v, log + [p]) ==
        match p
        case PhaseEnd => (u, out)
        case Sent(e) => (See(u, e).0, out + See(u, e).1)
  {
    hide See;
    assert (log + [p])[..|log|] == log;
  }

  lemma {:induction false} SeeAllConcat(v: View, a: seq<Piece>, b: seq<Piece>)
    ensures var (u, out) := SeeAll(v, a);
      var (t, more) := SeeAll(u, b);
      SeeAll(v, a + b) == (t, out + more)
  {
    hide See;
    if b == [] {
      assert a + b == a;
      SeeAllEmpty(SeeAll(v, a).0);
      assert SeeAll(v, a).1 + [] == SeeAll(v, a).1;
    } else {
      var n := |b| - 1;
      var b', p := b[..n], b[n];
      assert b == b' + [p] && a + b == (a + b') + [p];
      hide SeeAll;
      SeeAllConcat(v, a, b');
      SeeAllSnoc(v, a + b', p);
      SeeAllSnoc(SeeAll(v, a).0, b', p);
      if p.Sent? {
        var x, y, z := SeeAll(v, a).1, SeeAll(SeeAll(v, a).0, b').1, See(SeeAll(SeeAll(v, a).0, b').0, p.e).1;
        assert (x + y) + z == x + (y + z);
      }
    }
  }

  /** The events among the inputs of a parser, which can also be flushed at any time. */
  function Parsed(ins: seq<P.Input>): seq<Event> {
    if ins == [] then []
    else
      var n := |ins| - 1;
      Parsed(ins[..n]) + (match ins[n] case Parse(e, _, _) => [e] case FlushAt(_) => [])
  }

  /** The plain parser over the events of a log. */
  lemma {:induction false} PlainParserSees(o: P.Options, log: seq<Piece>, ins: seq<P.Input>)
    requires !o.enabled && Parsed(ins) == Events(log)
    ensures var r := P.HandleAll(o, P.EMPTY, ins);
      var s := SeeAll(View([], [], None), log);
      r.0.response.None? && ViewOf(r.0) == s.0 && Answers(r.1) == s.1
    decreases |log| + |ins|
  {
    var k, n := |ins| - 1, |log| - 1;
    if ins != [] && ins[k].FlushAt? {
      assert Parsed(ins) == Parsed(ins[..k]);
      PlainParserSees(o, log, ins[..k]);
      var r := P.HandleAll(o, P.EMPTY, ins[..k]);
      assert r.1 + [] == r.1;
    } else if log != [] && log[n].PhaseEnd? {
      assert Events(log) == Events(log[..n]);
      PlainParserSees(o, log[..n], ins);
    } else if log != [] && ins != [] {
      var e := log[n].e;
      assert Events(log) == Events(log[..n]) + [e] && Parsed(ins) == Parsed(ins[..k]) + [ins[k].e];
      assert ins[k].e == Parsed(ins)[|Parsed(ins)| - 1] == e;
      assert Parsed(ins[..k]) == Parsed(ins)[..|Parsed(ins)| - 1] == Events(log[..n]);
      PlainParserSees(o, log[..n], ins[..k]);
      var r := P.HandleAll(o, P.EMPTY, ins[..k]);
      hide P.ParseAt, See;
      SameSee(o, r.0, e, ins[k].time, ins[k].now);
      AnswersConcat(r.1, P.ParseAt(o, r.0, e, ins[k].time, ins[k].now).1);
    }
  }

  // ---------------------------------------------------------------------------
  // The log of a walk, taken apart
  // ---------------------------------------------------------------------------

  lemma LogOkPrefix(isReq: bool, log: seq<Piece>, k: nat)
    requires LogOk(isReq, log) && k <= |log|
    ensures LogOk(isReq, log[..k]) && LogOk(isReq, log[k..])
  {
  }

  lemma LogOkAt(isReq: bool, log: seq<Piece>, k: nat)
    requires LogOk(isReq, log) && k < |log|
    ensures log[k].Sent? ==> OfDirection(isReq, log[k].e)
  {
  }

  lemma LogOkSnoc(isReq: bool, log: seq<Piece>, p: Piece)
    requires LogOk(isReq, log) && (p.Sent? ==> OfDirection(isReq, p.e))
    ensures LogOk(isReq, log + [p])
  {
  }

  lemma FlatLast(log: seq<Piece>)
    requires log != []
    ensures Flat(log) == Flat(log[..|log| - 1]) + Shown(log[|log| - 1])
  {
  }

  /** No piece is silent. */
  lemma PieceShows(isReq: bool, log: seq<Piece>)
    requires LogOk(isReq, log) && log != []
    ensures Shown(log[|log| - 1]) != [] && Flat(log) != []
  {
    FlatLast(log);
    assert log[|log| - 1].Sent? ==> OfDirection(isReq, log[|log| - 1].e);
  }

  lemma SplitConcat<T>(a: seq<T>, b: seq<T>, c: seq<T>, d: seq<T>)
    requires a + b == c + d && |b| <= |d|
    ensures a == c + d[..|d| - |b|] && b == d[|d| - |b|..]
  {
    var n := |d| - |b|;
    assert |a| == |c| + n;
    assert a == (a + b)[..|a|] && c + d[..n] == (c + d)[..|a|];
    assert b == (a + b)[|a|..] && d[n..] == (c + d)[|a|..];
  }

  lemma ConcatAt<T>(a: seq<T>, b: seq<T>, k: nat)
    requires k < |a + b|
    ensures (a + b)[k] == if k < |a| then a[k] else b[k - |a|]
  {
  }

  lemma EndIsLast(p: Piece)
    ensures forall k :: 0 <= k < |Shown(p)| && Shown(p)[k] == End ==> k == |Shown(p)| - 1 && p == PhaseEnd
  {
  }

  lemma LastIsShort(init: seq<Out>, last: seq<Out>, x: seq<Out>, y: seq<Out>, p: Piece)
    requires init + last == x + [End] + y && y != [] && last == Shown(p)
    ensures |last| <= |y|
  {
    assert (x + [End] + y)[|x|] == End;
    ConcatAt(init, last, |x|);
    EndIsLast(p);
  }

  /** A log can be cut where a phase ends. */
  lemma {:induction false} CutAtEnd(isReq: bool, log: seq<Piece>, x: seq<Out>, y: seq<Out>) returns (a: seq<Piece>, b: seq<Piece>)
    requires LogOk(isReq, log) && Flat(log) == x + [End] + y
    ensures log == a + b && LogOk(isReq, a) && LogOk(isReq, b)
    ensures Flat(a) == x + [End] && Flat(b) == y
    decreases |log|
  {
    hide Flat, LogOk, Shown;
    if y == [] {
      a, b := log, [];
      FlatEmpty();
      LogOkPrefix(isReq, log, 0);
      assert log[..0] == [] && x + [End] + [] == x + [End] && log + [] == log;
    } else {
      var n := |log| - 1;
      var init, p := LastOf(isReq, log, x + [End] + y);
      LastIsShort(Flat(init), Shown(p), x, y, p);
      var k := |y| - |Shown(p)|;
      SplitConcat(Flat(init), Shown(p), x + [End], y);
      var a', b' := CutAtEnd(isReq, init, x, y[..k]);
      a, b := a', b' + [p];
      FlatSnoc(b', p);
      LogOkSnoc(isReq, b', p);
      assert y[..k] + Shown(p) == y;
      assert a' + (b' + [p]) == (a' + b') + [p] == log;
    }
  }

  lemma LastOf(isReq: bool, log: seq<Piece>, out: seq<Out>) returns (init: seq<Piece>, p: Piece)
    requires LogOk(isReq, log) && Flat(log) == out && out != []
    ensures log == init + [p] && LogOk(isReq, init) && (p.Sent? ==> OfDirection(isReq, p.e))
    ensures Flat(init) + Shown(p) == out && Shown(p) != []
  {
    FlatEmpty();
    hide Flat, LogOk;
    var n := |log| - 1;
    init, p := log[..n], log[n];
    PieceShows(isReq, log);
    FlatLast(log);
    LogOkPrefix(isReq, log, n);
    LogOkAt(isReq, log, n);
  }

  // ---------------------------------------------------------------------------
  // Header blocks as the parser gets them
  // ---------------------------------------------------------------------------

  function Buffer(v: View, isReq: bool): bytes {
    if isReq then v.client else v.server
  }

  function WithBuffer(v: View, isReq: bool, b: bytes): View {
    if isReq then v.(client := b) else v.(server := b)
  }

  /** The effect of a whole header block on the parser. */
  function Whole(v: View, isReq: bool, block: bytes): (View, seq<Answer>) {
    if isReq then (Request(v, block), []) else Response(v, block)
  }

  /** The start of a block: no empty line, and nothing the parser would take for all of it. */
  ghost predicate Partial(x: bytes) {
    x != [] ==> x[0] != CR && forall k :: 0 < k <= |x| ==> !P.Complete(x[..k])
  }

  lemma HeaderEventStep(v: View, isReq: bool, x: bytes, payload: bytes)
    requires Buffer(v, isReq) == x && payload != [] && (x == [] ==> payload[0] != CR)
    ensures var e := Event(HeadersKind(isReq), payload);
      See(v, e) == if P.Complete(x + payload) then Whole(WithBuffer(v, isReq, []), isReq, x + payload)
                   else (WithBuffer(v, isReq, x + payload), [])
  {
    hide P.Complete, P.ParseRequestLine, P.ParseStatusLine;
    assert P.Incoming(x, payload) == payload;
  }

  lemma HdrsInjective(a: bytes, b: bytes)
    requires Hdrs(a) == Hdrs(b)
    ensures a == b
  {
    assert |a| == |b|;
    assert forall i :: 0 <= i < |a| ==> Hdrs(a)[i] == Hdr(a[i]) && Hdrs(b)[i] == Hdr(b[i]);
  }

  lemma HdrsSplit(x: bytes, init: seq<Out>, last: seq<Out>)
    requires Hdrs(x) == init + last
    ensures init == Hdrs(x[..|init|]) && last == Hdrs(x[|init|..])
  {
    var k := |init|;
    assert forall i :: 0 <= i < k ==> init[i] == Hdrs(x)[i] == Hdr(x[i]);
    assert forall i :: 0 <= i < |last| ==> last[i] == Hdrs(x)[k + i] == Hdr(x[k + i]);
  }

  /** The last piece of a log that shows header bytes only. */
  lemma LastHeaderPiece(isReq: bool, log: seq<Piece>, x: bytes) returns (e: Event, k: nat)
    requires LogOk(isReq, log) && Flat(log) == Hdrs(x) && x != []
    ensures log != [] && log[|log| - 1] == Sent(e) && e.kind == HeadersKind(isReq)
    ensures k < |x| && e.payload == x[k..] && Flat(log[..|log| - 1]) == Hdrs(x[..k])
  {
    var n := |log| - 1;
    FlatLast(log);
    PieceShows(isReq, log);
    var init, last := Flat(log[..n]), Shown(log[n]);
    HdrsSplit(x, init, last);
    k := |init|;
    assert last[0] == Hdr(x[k]);
    match log[n]
    case PhaseEnd => assert false;
    case Sent(f) =>
      e := f;
      assert OfDirection(isReq, f);
      HdrsInjective(f.payload, x[k..]);
  }

  lemma SilentLog(v: View, isReq: bool, log: seq<Piece>)
    requires LogOk(isReq, log) && Flat(log) == []
    ensures log == [] && SeeAll(v, log) == (v, [])
  {
    if log != [] { PieceShows(isReq, log); }
    SeeAllEmpty(v);
  }

  lemma PartialPrefix(x: bytes, k: nat)
    requires Partial(x) && k <= |x|
    ensures Partial(x[..k]) && (x != [] ==> x[0] != CR && !P.Complete(x))
  {
    hide P.Complete;
    assert forall j :: 0 < j <= k ==> x[..k][..j] == x[..j];
    assert x[..|x|] == x;
  }

  lemma {:induction false} PartialBlock(v: View, isReq: bool, log: seq<Piece>, x: bytes)
    requires LogOk(isReq, log) && Flat(log) == Hdrs(x) && Partial(x) && Buffer(v, isReq) == []
    ensures SeeAll(v, log) == (WithBuffer(v, isReq, x), [])
    decreases |log|
  {
    hide P.Complete, See, SeeAll, Flat, Partial;
    if x == [] {
      SilentLog(v, isReq, log);
    } else {
      hide Hdrs;
      var e, k := LastHeaderPiece(isReq, log, x);
      var n := |log| - 1;
      var init := x[..k];
      PartialPrefix(x, k);
      assert x == init + e.payload && log == log[..n] + [log[n]];
      LogOkPrefix(isReq, log, n);
      PartialBlock(v, isReq, log[..n], init);
      SeeAllSnoc(v, log[..n], log[n]);
      HeaderEventStep(WithBuffer(v, isReq, init), isReq, init, e.payload);
      assert e == Event(HeadersKind(isReq), e.payload);
      assert WithBuffer(WithBuffer(v, isReq, init), isReq, x) == WithBuffer(v, isReq, x);
      assert [] + See(WithBuffer(v, isReq, init), e).1 == [];
    }
  }

  /** The end of a header block: everything but its last byte is partial, all of it is complete. */
  ghost predicate IsWhole(block: bytes) {
    block != [] && Partial(block[..|block| - 1]) && P.Complete(block) && block[0] != CR
  }

  lemma EndedLog(isReq: bool, log: seq<Piece>, out: seq<Out>)
    requires LogOk(isReq, log) && Flat(log) == out + [End]
    ensures log != [] && log[|log| - 1] == PhaseEnd && Flat(log[..|log| - 1]) == out
  {
    var n := |log| - 1;
    FlatLast(log);
    PieceShows(isReq, log);
    var init, last := Flat(log[..n]), Shown(log[n]);
    assert last[|last| - 1] == (init + last)[|out|] == End;
    EndIsLast(log[n]);
    SplitConcat(init, last, out, [End]);
    assert out + [End][..0] == out;
  }

  /** However a header block is cut into events, the parser takes it as one. */
  lemma WholeBlock(v: View, isReq: bool, log: seq<Piece>, block: bytes)
    requires LogOk(isReq, log) && Flat(log) == Hdrs(block) + [End] && IsWhole(block) && Buffer(v, isReq) == []
    ensures SeeAll(v, log) == Whole(v, isReq, block)
  {
    hide P.Complete, See, SeeAll, Partial, Flat, Whole, Hdrs;
    EndedLog(isReq, log, Hdrs(block));
    var n := |log| - 1;
    var log' := log[..n];
    LogOkPrefix(isReq, log, n);
    var e, k := LastHeaderPiece(isReq, log', block);
    var m := |log'| - 1;
    var init := block[..k];
    PartialPrefix(block[..|block| - 1], k);
    assert init == block[..|block| - 1][..k] && block == init + e.payload;
    assert log == log' + [log[n]] && log' == log'[..m] + [log'[m]];
    LogOkPrefix(isReq, log', m);
    PartialBlock(v, isReq, log'[..m], init);
    SeeAllSnoc(v, log'[..m], log'[m]);
    SeeAllSnoc(v, log', log[n]);
    HeaderEventStep(WithBuffer(v, isReq, init), isReq, init, e.payload);
    assert e == Event(HeadersKind(isReq), e.payload);
    assert WithBuffer(WithBuffer(v, isReq, init), isReq, []) == v;
    assert [] + Whole(v, isReq, block).1 == Whole(v, isReq, block).1;
  }

  ghost predicate NoHdr(out: seq<Out>) {
    forall i :: 0 <= i < |out| ==> !out[i].Hdr?
  }

  lemma NoHdrSplit(a: seq<Out>, b: seq<Out>)
    requires NoHdr(a + b)
    ensures NoHdr(a) && NoHdr(b)
  {
    assert forall i :: 0 <= i < |a| ==> a[i] == (a + b)[i];
    assert forall i :: 0 <= i < |b| ==> b[i] == (a + b)[|a| + i];
  }

  lemma DataPiece(v: View, isReq: bool, e: Event)
    requires OfDirection(isReq, e) && NoHdr(Tagged(e)) && (isReq || v.pending.None?)
    ensures See(v, e) == (v, [])
  {
    assert !Tagged(e)[0].Hdr?;
  }

  /** Data events do nothing while no request waits for a response. */
  lemma {:induction false} BodyPieces(v: View, isReq: bool, log: seq<Piece>)
    requires LogOk(isReq, log) && NoHdr(Flat(log)) && (isReq || v.pending.None?)
    ensures SeeAll(v, log) == (v, [])
  {
    if log == [] {
      SeeAllEmpty(v);
    } else {
      var n := |log| - 1;
      FlatLast(log);
      hide Flat, See, SeeAll, NoHdr, Tagged;
      NoHdrSplit(Flat(log[..n]), Shown(log[n]));
      LogOkPrefix(isReq, log, n);
      BodyPieces(v, isReq, log[..n]);
      SeeAllSnoc(v, log[..n], log[n]);
      assert log == log[..n] + [log[n]];
      if log[n].Sent? {
        assert OfDirection(isReq, log[n].e);
        DataPiece(v, isReq, log[n].e);
        assert [] + See(v, log[n].e).1 == [];
      }
    }
  }

  // ---------------------------------------------------------------------------
  // Header blocks are whole, and their start lines are read
  // ---------------------------------------------------------------------------

  lemma {:induction false} TailIsLast(x: bytes)
    ensures TailAll([], x) == if |x| <= 3 then x else x[|x| - 3..]
  {
    if x != [] {
      var n := |x| - 1;
      TailIsLast(x[..n]);
      TailSnoc([], x[..n], x[n]);
      assert x == x[..n] + [x[n]];
      hide TailAll;
      if n >= 3 {
        var t := if n == 3 then x[..n] else x[..n][n - 3..];
        assert |t| == 3 && t[1..] + [x[n]] == x[n - 2..];
      }
    }
  }

  /** What the kernel side does not take for the end of a block, the user side does not either. */
  lemma NoEndIsPartial(x: bytes)
    requires NoEnd([], x) && |x| < P.HEADERS_MAX && (x != [] ==> x[0] != CR)
    ensures Partial(x)
  {
    forall k | 0 < k <= |x|
      ensures !P.Complete(x[..k])
    {
      assert !EndsHeaders(TailAll([], x[..k - 1]), x[k - 1]);
      hide TailAll, EndsHeaders, P.Complete;
      assert x[..k] == x[..k - 1] + [x[k - 1]];
      NotEndedYet(x[..k - 1], x[k - 1]);
    }
  }

  lemma NotEndedYet(x: bytes, b: byte)
    requires !EndsHeaders(TailAll([], x), b) && |x| + 1 < P.HEADERS_MAX
    ensures !P.Complete(x + [b])
  {
    hide TailAll;
    TailIsLast(x);
    var n := |x|;
    if n >= 3 {
      var t := TailAll([], x);
      assert t == x[n - 3..];
      assert (x + [b])[n - 3..] == t + [b];
      FourBytes(t, b);
    }
  }

  lemma FourBytes(t: bytes, b: byte)
    requires |t| == 3
    ensures t + [b] == HEADER_END <==> EndsHeaders(t, b)
  {
    assert (t + [b])[..3] == t && (t + [b])[3] == b;
  }

  lemma LinesStartAndEnd(lines: seq<bytes>)
    requires AreLines(lines) && lines != []
    ensures var x := Lines(lines); |x| >= 2 && x[0] != CR && x[|x| - 2] == CR && x[|x| - 1] == LF
  {
    LinesConcat([lines[0]], lines[1..]);
    LinesOne(lines[0]);
    assert [lines[0]] + lines[1..] == lines && IsLine(lines[0]);
    var n := |lines| - 1;
    assert Lines(lines) == Lines(lines[..n]) + lines[n] + CRLF;
  }

  lemma BlockIsWhole(lines: seq<bytes>)
    requires AreLines(lines) && lines != [] && |Block(lines)| <= P.HEADERS_MAX
    ensures IsWhole(Block(lines))
  {
    hide Lines, NoEnd, TailAll, Partial, AreLines;
    LinesStartAndEnd(lines);
    BlockEnds([], lines);
    var block, init := Block(lines), Lines(lines) + [CR];
    assert block[..|block| - 1] == init;
    NoEndIsPartial(init);
    assert block[|block| - 4..] == HEADER_END;
  }

  lemma IndexByteIs(b: bytes, sep: byte, i: nat)
    requires i < |b| && b[i] == sep && forall k :: 0 <= k < i ==> b[k] != sep
    ensures P.IndexByte(b, sep) == i
  {
    var j := P.IndexByte(b, sep);
    assert b[j] == sep;
  }

  lemma StartLineIs(start: bytes, more: bytes)
    requires NoLineEnd(start)
    ensures P.StartLine(start + CRLF + more) == start
  {
    var b := start + CRLF + more;
    IndexByteIs(b, LF, |start| + 1);
    assert b[..|start| + 1] == start + [CR];
  }

  lemma CutAtSpace(a: bytes, b: bytes)
    requires NoSpace(a)
    ensures P.Before(a + [SP] + b, SP) == a && P.After(a + [SP] + b, SP) == b
  {
    IndexByteIs(a + [SP] + b, SP, |a|);
  }

  lemma NoSpaceToCut(a: bytes)
    requires NoSpace(a)
    ensures P.Before(a, SP) == a
  {
    var j := P.IndexByte(a, SP);
    assert a[..|a|] == a;
  }

  function RequestLine(verb: bytes, path: bytes, version: bytes): bytes {
    verb + [SP] + (path + [SP] + version)
  }

  lemma RequestLineIsRead(verb: bytes, path: bytes, version: bytes, more: bytes)
    requires P.IsHttpMethod(verb) && NoSpace(verb) && NoSpace(path)
    requires NoLineEnd(verb) && NoLineEnd(path) && NoLineEnd(version)
    ensures P.ParseRequestLine(RequestLine(verb, path, version) + CRLF + more) == Some((verb, path))
  {
    hide P.IsHttpMethod, P.StartLine;
    StartLineIs(RequestLine(verb, path, version), more);
    CutAtSpace(verb, path + [SP] + version);
    CutAtSpace(path, version);
  }

  /** A status line: the rest is empty or starts with a space. */
  function StatusLine(version: bytes, code: bytes, rest: bytes): bytes {
    version + [SP] + (code + rest)
  }

  lemma {:induction false} DigitsAreRead(d: bytes)
    requires IsDigits(d)
    ensures P.ParseDigits(d) == Some(Decimal(d))
  {
    if d != [] { DigitsAreRead(d[..|d| - 1]); }
  }

  lemma CodeIsRead(code: bytes)
    requires |code| == 3 && IsDigits(code)
    ensures P.Atoi(code) == Some(Decimal(code)) && Decimal(code) < 1000
  {
    DigitsAreRead(code);
    DecimalOfThree(code);
    assert IsDigit(code[0]);
  }

  lemma StatusLineIsRead(version: bytes, code: bytes, rest: bytes, more: bytes)
    requires P.HTTP_SLASH <= version && NoSpace(version) && NoLineEnd(version)
    requires |code| == 3 && IsDigits(code) && NoLineEnd(rest) && (rest == [] || rest[0] == SP)
    ensures P.ParseStatusLine(StatusLine(version, code, rest) + CRLF + more) == Some(Decimal(code))
  {
    hide P.Atoi, P.StartLine, Decimal;
    assert NoSpace(code) && NoLineEnd(code) by { assert forall i :: 0 <= i < 3 ==> IsDigit(code[i]); }
    assert NoLineEnd(code + rest);
    StartLineIs(StatusLine(version, code, rest), more);
    CutAtSpace(version, code + rest);
    CodeIsRead(code);
    if rest == [] {
      assert code + rest == code;
      NoSpaceToCut(code);
    } else {
      assert code + rest == code + [SP] + rest[1..];
      CutAtSpace(code, rest[1..]);
    }
  }

  /** The first line of a trailer section. */
  lemma TrailerStart(trailer: seq<Field>) returns (more: bytes)
    requires AreFields(trailer) && trailer != []
    ensures IsField(trailer[0]) && NoLineEnd(FieldLine(trailer[0]))
    ensures Block(FieldLines(trailer)) == FieldLine(trailer[0]) + CRLF + more
  {
    var f := trailer[0];
    var line := FieldLine(f);
    assert IsField(f);
    LinesConcat([line], FieldLines(trailer[1..]));
    assert [line] + FieldLines(trailer[1..]) == FieldLines(trailer);
    LinesOne(line);
    more := Lines(FieldLines(trailer[1..])) + CRLF;
  }

  lemma FieldsAreLines(fields: seq<Field>)
    requires AreFields(fields)
    ensures AreLines(FieldLines(fields))
  {
    forall i | 0 <= i < |fields|
      ensures IsLine(FieldLines(fields)[i])
    {
      assert IsField(fields[i]);
    }
  }

  lemma BlockEndsBlock(lines: seq<bytes>)
    requires AreLines(lines) && lines != []
    ensures P.EndsBlock(Block(lines))
  {
    LinesStartAndEnd(lines);
    var x := Lines(lines);
    assert (x + CRLF)[|x + CRLF| - 4..] == [x[|x| - 2], x[|x| - 1]] + CRLF;
  }

  /** A trailer section is no request. */
  lemma TrailerIsNoRequest(trailer: seq<Field>)
    requires AreFields(trailer) && trailer != [] && NoSpace(trailer[0].name)
    ensures P.ParseRequestLine(Block(FieldLines(trailer))) == None
  {
    hide P.IsHttpMethod, FieldLines, Block, AreFields;
    var more := TrailerStart(trailer);
    var f := trailer[0];
    var line := FieldLine(f);
    StartLineIs(line, more);
    var m := P.Before(line, SP);
    if |m| < |line| {
      assert |f.name| < |m| by {
        assert forall k :: 0 <= k <= |f.name| ==> line[k] != SP;
      }
      assert m[|f.name|] == COLON;
      NoMethodHasColon(m, |f.name|);
    }
  }

  lemma NoMethodHasColon(m: bytes, k: nat)
    requires k < |m| && m[k] == COLON
    ensures !P.IsHttpMethod(m)
  {
  }
}
