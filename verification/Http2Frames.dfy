/**
Frames out of the events of an HTTP/2 connection (the framing half of Http2Parser.ParseAt in
ebpftracer/l7/http2.go). An event can end anywhere: inside a frame header, inside a frame that is
put together again, inside a DATA frame whose bytes are passed on as they come.

`Step` is what framing means, a byte at a time: section 4.1 of RFC 7540. `ParseFrames` is the code.
*/
module Http2Frames {
  import opened Bytes
  import opened Transducer
  import opened Wrappers

  const FRAME_HEADER: nat := 9
  const REASSEMBLY_MAX: nat := 1024
  const DATA: byte := 0
  const HEADERS: byte := 1

  datatype Header = Header(length: nat, kind: byte, flags: byte, streamId: nat)

  function Decode(b: bytes): Header
    requires |b| >= FRAME_HEADER
  {
    Header((b[0] as int) * 65536 + (b[1] as int) * 256 + b[2] as int, b[3], b[4],
           ((b[5] as int) * 16777216 + (b[6] as int) * 65536 + (b[7] as int) * 256 + b[8] as int) % 0x8000_0000)
  }

  /** What is done for a frame: a block of headers is decoded, or a DATA frame starts, brings bytes
      and ends. */
  datatype Act = Block(h: Header, body: bytes) | Open(h: Header) | Data(h: Header, body: bytes) | Close(h: Header)

  /** With bodies on, DATA frames are passed on rather than put together. */
  predicate Streamed(bodies: bool, h: Header) {
    bodies && h.kind == DATA
  }

  function Whole(h: Header, body: bytes): seq<Act> {
    if h.kind == HEADERS then [Block(h, body)] else []
  }

  // ---------------------------------------------------------------------------
  // Framing, a byte at a time
  // ---------------------------------------------------------------------------

  datatype State = Head(acc: bytes) | Body(h: Header, acc: bytes) | InData(h: Header, remaining: nat)

  const IDLE := Head([])

  predicate Ok(bodies: bool, s: State) {
    match s
    case Head(acc) => |acc| < FRAME_HEADER
    case Body(h, acc) => |acc| < h.length && !Streamed(bodies, h)
    case InData(h, remaining) => 0 < remaining <= h.length && Streamed(bodies, h)
  }

  /** The state after a frame header. */
  function Begin(bodies: bool, h: Header): (State, seq<Act>) {
    if Streamed(bodies, h) then
      if h.length == 0 then (IDLE, [Open(h), Close(h)]) else (InData(h, h.length), [Open(h)])
    else
      if h.length == 0 then (IDLE, Whole(h, [])) else (Body(h, []), [])
  }

  function Step(bodies: bool, s: State, b: byte): (State, seq<Act>) {
    match s
    case Head(acc) =>
      if |acc| + 1 < FRAME_HEADER then (Head(acc + [b]), []) else Begin(bodies, Decode(acc + [b]))
    case Body(h, acc) =>
      if |acc| + 1 < h.length then (Body(h, acc + [b]), []) else (IDLE, Whole(h, acc + [b]))
    case InData(h, remaining) =>
      if remaining > 1 then (InData(h, remaining - 1), [Data(h, [b])]) else (IDLE, [Data(h, [b]), Close(h)])
  }

  function Stepper(bodies: bool): (State, byte) -> (State, seq<Act>) {
    (s: State, b: byte) => Step(bodies, s, b)
  }

  function Feed(bodies: bool, s: State, input: bytes): (State, seq<Act>) {
    Run(Stepper(bodies), s, input)
  }

  /** The bytes of a DATA frame one by one: chunks of it are not to be told apart. */
  function Each(h: Header, body: bytes): (a: seq<Act>)
    ensures |a| == |body|
  {
    seq(|body|, i requires 0 <= i < |body| => Data(h, [body[i]]))
  }

  function Shown(a: Act): seq<Act> {
    if a.Data? then Each(a.h, a.body) else [a]
  }

  function Flat(acts: seq<Act>): seq<Act> {
    if acts == [] then [] else Flat(acts[..|acts| - 1]) + Shown(acts[|acts| - 1])
  }

  lemma FlatEmpty()
    ensures Flat([]) == []
  {
  }

  lemma FlatSnoc(acts: seq<Act>, a: Act)
    ensures Flat(acts + [a]) == Flat(acts) + Shown(a)
  {
    hide Shown;
    assert (acts + [a])[..|acts|] == acts;
  }

  lemma {:induction false} FlatConcat(a: seq<Act>, b: seq<Act>)
    ensures Flat(a + b) == Flat(a) + Flat(b)
  {
    FlatEmpty();
    hide Flat, Shown;
    if b == [] {
      assert a + b == a;
    } else {
      var n, init := |b| - 1, b[..|b| - 1];
      FlatConcat(a, init);
      FlatSnoc(a + init, b[n]);
      FlatSnoc(init, b[n]);
      assert a + b == (a + init) + [b[n]] && b == init + [b[n]];
      assert (Flat(a) + Flat(init)) + Shown(b[n]) == Flat(a) + (Flat(init) + Shown(b[n]));
    }
  }

  // ---------------------------------------------------------------------------
  // Reading a piece at once
  // ---------------------------------------------------------------------------

  lemma {:induction false} FeedHead(bodies: bool, acc: bytes, b: bytes)
    requires |acc| + |b| < FRAME_HEADER
    ensures Feed(bodies, Head(acc), b) == (Head(acc + b), [])
  {
    if b == [] {
      assert acc + b == acc;
    } else {
      var n := |b| - 1;
      FeedHead(bodies, acc, b[..n]);
      assert acc + b == acc + b[..n] + [b[n]];
      var none: seq<Act> := [];
      assert none + none == none;
    }
  }

  lemma FeedHeader(bodies: bool, acc: bytes, b: bytes)
    requires |acc| + |b| == FRAME_HEADER && b != []
    ensures Feed(bodies, Head(acc), b) == Begin(bodies, Decode(acc + b))
  {
    hide Begin, Decode;
    var n := |b| - 1;
    FeedHead(bodies, acc, b[..n]);
    assert acc + b == acc + b[..n] + [b[n]];
    RunSnoc(Stepper(bodies), Head(acc), b[..n], b[n]);
    assert b == b[..n] + [b[n]];
    var t := Begin(bodies, Decode(acc + b));
    assert [] + t.1 == t.1;
  }

  lemma {:induction false} FeedBody(bodies: bool, h: Header, acc: bytes, b: bytes)
    requires |acc| + |b| < h.length
    ensures Feed(bodies, Body(h, acc), b) == (Body(h, acc + b), [])
  {
    if b == [] {
      assert acc + b == acc;
    } else {
      var n := |b| - 1;
      FeedBody(bodies, h, acc, b[..n]);
      assert acc + b == acc + b[..n] + [b[n]];
      var none: seq<Act> := [];
      assert none + none == none;
    }
  }

  lemma FeedWhole(bodies: bool, h: Header, acc: bytes, b: bytes)
    requires |acc| + |b| == h.length && b != []
    ensures Feed(bodies, Body(h, acc), b) == (IDLE, Whole(h, acc + b))
  {
    var n := |b| - 1;
    FeedBody(bodies, h, acc, b[..n]);
    assert acc + b == acc + b[..n] + [b[n]];
    RunSnoc(Stepper(bodies), Body(h, acc), b[..n], b[n]);
    assert b == b[..n] + [b[n]];
    assert [] + Whole(h, acc + b) == Whole(h, acc + b);
  }

  lemma {:induction false} FeedData(bodies: bool, h: Header, remaining: nat, b: bytes)
    requires |b| < remaining
    ensures Feed(bodies, InData(h, remaining), b) == (InData(h, remaining - |b|), Each(h, b))
  {
    if b == [] {
    } else {
      var n := |b| - 1;
      FeedData(bodies, h, remaining, b[..n]);
      assert Each(h, b) == Each(h, b[..n]) + [Data(h, [b[n]])];
    }
  }

  lemma FeedLastData(bodies: bool, h: Header, b: bytes)
    requires b != []
    ensures Feed(bodies, InData(h, |b|), b) == (IDLE, Each(h, b) + [Close(h)])
  {
    var n := |b| - 1;
    FeedData(bodies, h, |b|, b[..n]);
    RunSnoc(Stepper(bodies), InData(h, |b|), b[..n], b[n]);
    assert b == b[..n] + [b[n]];
    assert Each(h, b[..n]) + [Data(h, [b[n]]), Close(h)] == Each(h, b) + [Close(h)];
  }

  lemma FeedConcat(bodies: bool, s: State, a: bytes, b: bytes)
    ensures var (t, x) := Feed(bodies, s, a);
      var (u, y) := Feed(bodies, t, b);
      Feed(bodies, s, a + b) == (u, x + y)
  {
    RunConcat(Stepper(bodies), s, a, b);
  }

  // ---------------------------------------------------------------------------
  // The code
  // ---------------------------------------------------------------------------

  datatype Partial = Partial(h: Header, body: bytes)
  datatype DataState = DataState(h: Header, remaining: nat)

  /** What is kept between the events of one direction: the start of a frame header, a frame being put
      together, a DATA frame being passed on. */
  datatype Parts = Parts(header: bytes, partial: Option<Partial>, data: Option<DataState>)

  const NOTHING := Parts([], None, None)

  /** At most one of the three is there. */
  predicate Valid(bodies: bool, p: Parts) {
    && (p.data.Some? ==> p.partial.None? && p.header == [])
    && (p.partial.Some? ==> p.header == [] && p.partial.value.h.length <= REASSEMBLY_MAX)
    && Ok(bodies, Meaning(p))
  }

  function Meaning(p: Parts): State {
    if p.data.Some? then InData(p.data.value.h, p.data.value.remaining)
    else if p.partial.Some? then Body(p.partial.value.h, p.partial.value.body)
    else Head(p.header)
  }

  /** A frame that is not passed on, is longer than a message, and is cut: it is given up. */
  predicate GivenUp(s: State) {
    s.Body? && s.h.length > REASSEMBLY_MAX
  }

  function Left(s: State): State {
    if GivenUp(s) then IDLE else s
  }

  ghost predicate Continues(all: (State, seq<Act>), acts: seq<Act>, rest: (State, seq<Act>)) {
    all == (rest.0, Flat(acts) + rest.1)
  }

  lemma Continue(all: (State, seq<Act>), acts: seq<Act>, bodies: bool, s: State, a: bytes, rest: bytes, more: seq<Act>)
    requires Continues(all, acts, Feed(bodies, s, a + rest)) && Feed(bodies, s, a).1 == Flat(more)
    ensures Continues(all, acts + more, Feed(bodies, Feed(bodies, s, a).0, rest))
  {
    hide Feed, Flat;
    FeedConcat(bodies, s, a, rest);
    FlatConcat(acts, more);
    var y := Feed(bodies, Feed(bodies, s, a).0, rest).1;
    assert Flat(acts) + (Flat(more) + y) == (Flat(acts) + Flat(more)) + y;
  }

  /** A frame header at the front, then some bytes. */
  lemma FeedFrame(bodies: bool, b: bytes, more: bytes)
    requires |b| == FRAME_HEADER
    ensures var (s, x) := Begin(bodies, Decode(b));
      var (t, y) := Feed(bodies, s, more);
      Feed(bodies, IDLE, b + more) == (t, x + y)
  {
    hide Feed, Begin, Decode;
    FeedHeader(bodies, [], b);
    assert [] + b == b;
    FeedConcat(bodies, IDLE, b, more);
  }

  lemma FeedStreamed(bodies: bool, b: bytes, chunk: bytes)
    requires |b| == FRAME_HEADER
    requires var h := Decode(b); Streamed(bodies, h) && |chunk| <= h.length
    ensures var h := Decode(b);
      Feed(bodies, IDLE, b + chunk) ==
        (if |chunk| == h.length then IDLE else InData(h, h.length - |chunk|), [Open(h)] + (Each(h, chunk) + Tail(h, |chunk| == h.length)))
  {
    var h := Decode(b);
    hide Feed, Decode;
    FeedFrame(bodies, b, chunk);
    if h.length == 0 {
      FeedNothing(bodies, IDLE);
      assert Each(h, chunk) == [];
      assert [Open(h), Close(h)] + [] == [Open(h)] + (Each(h, chunk) + [Close(h)]);
    } else if |chunk| == h.length {
      FeedLastData(bodies, h, chunk);
    } else {
      FeedData(bodies, h, h.length, chunk);
      assert Each(h, chunk) + [] == Each(h, chunk);
    }
  }

  lemma FeedPlain(bodies: bool, b: bytes, body: bytes)
    requires |b| == FRAME_HEADER
    requires var h := Decode(b); !Streamed(bodies, h) && |body| <= h.length
    ensures var h := Decode(b);
      Feed(bodies, IDLE, b + body) == if |body| == h.length then (IDLE, Whole(h, body)) else (Body(h, body), [])
  {
    var h := Decode(b);
    hide Feed, Decode;
    FeedFrame(bodies, b, body);
    var none: seq<Act> := [];
    assert none + none == none && none + Whole(h, body) == Whole(h, body);
    if h.length == 0 {
      FeedNothing(bodies, IDLE);
      assert Whole(h, body) + none == Whole(h, body);
    } else if |body| == h.length {
      FeedWhole(bodies, h, [], body);
      assert [] + body == body;
    } else {
      FeedBody(bodies, h, [], body);
      assert [] + body == body;
    }
  }

  lemma FeedNothing(bodies: bool, s: State)
    ensures Feed(bodies, s, []) == (s, [])
  {
  }

  /** The bytes of a DATA frame that came with one event. */
  function Chunk(h: Header, b: bytes): seq<Act> {
    if b == [] then [] else [Data(h, b)]
  }

  lemma FlatOne(a: Act)
    ensures Flat([a]) == Shown(a)
  {
    hide Shown;
    assert [a][..0] == [];
    assert [] + Shown(a) == Shown(a);
  }

  lemma FlatChunk(h: Header, b: bytes)
    ensures Flat(Chunk(h, b)) == Each(h, b)
  {
    hide Flat;
    if b == [] { FlatEmpty(); } else { FlatOne(Data(h, b)); }
  }

  function Tail(h: Header, last: bool): seq<Act> {
    if last then [Close(h)] else []
  }

  lemma FlatPart(h: Header, chunk: bytes, last: bool)
    ensures Flat(Chunk(h, chunk) + Tail(h, last)) == Each(h, chunk) + Tail(h, last)
    ensures Flat([Open(h)] + (Chunk(h, chunk) + Tail(h, last))) == [Open(h)] + (Each(h, chunk) + Tail(h, last))
  {
    FlatEmpty();
    hide Flat, Each, Chunk;
    FlatChunk(h, chunk);
    FlatOne(Open(h));
    FlatOne(Close(h));
    FlatConcat(Chunk(h, chunk), Tail(h, last));
    FlatConcat([Open(h)], Chunk(h, chunk) + Tail(h, last));
  }

  lemma FlatWhole(h: Header, body: bytes)
    ensures Flat(Whole(h, body)) == Whole(h, body)
  {
    FlatEmpty();
    hide Flat;
    FlatOne(Block(h, body));
  }

  /** No act brings no bytes. */
  ghost predicate Brings(acts: seq<Act>) {
    forall i :: 0 <= i < |acts| && acts[i].Data? ==> acts[i].body != []
  }

  /** The frames of one event. */
  method ParseFrames(bodies: bool, parts: Parts, payload: bytes) returns (next: Parts, acts: seq<Act>, early: bool)
    requires Valid(bodies, parts)
    ensures Valid(bodies, next) && Brings(acts)
    ensures var (s, out) := Feed(bodies, Meaning(parts), payload); Flat(acts) == out && Meaning(next) == Left(s)
    ensures early == (parts.partial.Some? && |parts.partial.value.body| + |payload| < parts.partial.value.h.length)
    ensures early ==> acts == []
  {
    hide Feed, Flat, Each, Decode;
    ghost var all := Feed(bodies, Meaning(parts), payload);
    next, acts, early := parts, [], false;
    var rest := payload;
    FlatEmpty();
    assert [] + all.1 == all.1;
    if next.data.Some? {
      var d := next.data.value;
      var n := Min(d.remaining, |rest|);
      assert rest == rest[..n] + rest[n..];
      FlatPart(d.h, rest[..n], n == d.remaining);
      var more := Chunk(d.h, rest[..n]) + Tail(d.h, n == d.remaining);
      if n < d.remaining {
        FeedData(bodies, d.h, d.remaining, rest[..n]);
        assert Each(d.h, rest[..n]) + [] == Each(d.h, rest[..n]);
        Continue(all, acts, bodies, Meaning(next), rest[..n], rest[n..], more);
        next := next.(data := Some(DataState(d.h, d.remaining - n)));
      } else {
        FeedLastData(bodies, d.h, rest[..n]);
        Continue(all, acts, bodies, Meaning(next), rest[..n], rest[n..], more);
        next := next.(data := None);
      }
      acts := acts + more;
      rest := rest[n..];
    }
    if next.partial.None? && |next.header| > 0 {
      FeedHead(bodies, [], next.header);
      FeedConcat(bodies, IDLE, next.header, rest);
      assert [] + next.header == next.header;
      assert [] + Feed(bodies, Head(next.header), rest).1 == Feed(bodies, Head(next.header), rest).1;
      rest := next.header + rest;
      next := next.(header := []);
    }
    if next.partial.Some? {
      var h, body := next.partial.value.h, next.partial.value.body;
      var need := h.length - |body|;
      if need > |rest| {
        FeedBody(bodies, h, body, rest);
        early := true;
        next := next.(partial := Some(Partial(h, body + rest)));
        return;
      }
      assert rest == rest[..need] + rest[need..];
      FlatWhole(h, body + rest[..need]);
      FeedWhole(bodies, h, body, rest[..need]);
      Continue(all, acts, bodies, Meaning(next), rest[..need], rest[need..], Whole(h, body + rest[..need]));
      acts := acts + Whole(h, body + rest[..need]);
      rest := rest[need..];
      next := next.(partial := None);
    }
    var more: seq<Act>;
    next, more := FrameLoop(bodies, next, rest);
    assert Flat(acts + more) == all.1 by { FlatConcat(acts, more); }
    acts := acts + more;
  }

  /** The frames that follow, at a frame boundary or with nothing left. */
  method FrameLoop(bodies: bool, parts: Parts, payload: bytes) returns (next: Parts, acts: seq<Act>)
    requires Valid(bodies, parts) && parts.partial.None? && parts.header == [] && (parts.data.Some? ==> payload == [])
    ensures Valid(bodies, next) && Brings(acts)
    ensures var (s, out) := Feed(bodies, Meaning(parts), payload); Flat(acts) == out && Meaning(next) == Left(s)
  {
    hide Feed, Flat, Each, Decode;
    ghost var all := Feed(bodies, Meaning(parts), payload);
    next, acts := parts, [];
    var rest := payload;
    FlatEmpty();
    assert [] + all.1 == all.1;
    while |rest| >= FRAME_HEADER
      invariant Valid(bodies, next) && next.partial.None? && next.header == [] && (next.data.Some? ==> rest == [])
      invariant Brings(acts) && Continues(all, acts, Feed(bodies, Meaning(next), rest))
      decreases |rest|
    {
      var h := Decode(rest[..FRAME_HEADER]);
      var avail := |rest| - FRAME_HEADER;
      var n := Min(h.length, avail);
      var chunk := rest[FRAME_HEADER..FRAME_HEADER + n];
      assert rest == (rest[..FRAME_HEADER] + chunk) + rest[FRAME_HEADER + n..];
      if Streamed(bodies, h) {
        FeedStreamed(bodies, rest[..FRAME_HEADER], chunk);
        FlatPart(h, chunk, n == h.length);
        var more := [Open(h)] + (Chunk(h, chunk) + Tail(h, n == h.length));
        Continue(all, acts, bodies, IDLE, rest[..FRAME_HEADER] + chunk, rest[FRAME_HEADER + n..], more);
        acts := acts + more;
        if n < h.length {
          next := next.(data := Some(DataState(h, h.length - n)));
        }
        rest := rest[FRAME_HEADER + n..];
        continue;
      }
      FeedPlain(bodies, rest[..FRAME_HEADER], chunk);
      if avail < h.length {
        assert rest == rest[..FRAME_HEADER] + chunk;
        if h.length <= REASSEMBLY_MAX {
          next := next.(partial := Some(Partial(h, chunk)));
        }
        assert Flat(acts) + [] == Flat(acts);
        return;
      }
      FlatWhole(h, chunk);
      Continue(all, acts, bodies, IDLE, rest[..FRAME_HEADER] + chunk, rest[FRAME_HEADER + n..], Whole(h, chunk));
      acts := acts + Whole(h, chunk);
      rest := rest[FRAME_HEADER + n..];
    }
    assert Flat(acts) + [] == Flat(acts);
    if |rest| > 0 {
      FeedHead(bodies, [], rest);
      assert [] + rest == rest;
      next := next.(header := rest);
    } else {
      FeedNothing(bodies, Meaning(next));
    }
  }

  // ---------------------------------------------------------------------------
  // Event boundaries do not matter
  // ---------------------------------------------------------------------------

  /** The connection preface of a client, section 3.5 of RFC 7540. */
  const PREFACE: bytes := Ascii("PRI * HTTP/2.0") + CRLF + CRLF + Ascii("SM") + CRLF + CRLF

  /** An event of the client that starts with the preface is taken without it. */
  function Strip(client: bool, payload: bytes): bytes {
    if client && PREFACE <= payload then payload[|PREFACE|..] else payload
  }

  /** What one event does to a direction that stands at s. */
  function Framed(bodies: bool, client: bool, s: State, payload: bytes): (State, seq<Act>) {
    var (t, out) := Feed(bodies, s, Strip(client, payload));
    (Left(t), out)
  }

  function FramedAll(bodies: bool, client: bool, s: State, events: seq<bytes>): (State, seq<Act>)
    decreases |events|
  {
    if events == [] then (s, [])
    else
      var (t, x) := Framed(bodies, client, s, events[0]);
      var (u, y) := FramedAll(bodies, client, t, events[1..]);
      (u, x + y)
  }

  // ---------------------------------------------------------------------------
  // Frames by their values, section 4.1 of RFC 7540
  // ---------------------------------------------------------------------------

  /** A frame: what its header says, its reserved bit, and its payload. */
  datatype Frame = Frame(h: Header, reserved: bool, body: bytes)

  /** A frame of any length: 24 bits of length, 31 bits of stream. */
  predicate FrameOk(f: Frame) {
    f.h.length == |f.body| < 0x100_0000 && f.h.streamId < 0x8000_0000
  }

  /** The nine bytes of a frame header: length, type, flags, the reserved bit and the stream, each number
      with its highest byte first. */
  function Encode(h: Header, reserved: bool): (b: bytes)
    ensures |b| == 9
  {
    [h.length / 0x1_0000 % 256, h.length / 0x100 % 256, h.length % 256, h.kind, h.flags,
     h.streamId / 0x100_0000 % 128 + (if reserved then 128 else 0), h.streamId / 0x1_0000 % 256, h.streamId / 0x100 % 256,
     h.streamId % 256]
  }

  /** The header is read back from its bytes, whatever the reserved bit is. */
  lemma DecodeReads(h: Header, reserved: bool)
    requires h.length < 0x100_0000 && h.streamId < 0x8000_0000
    ensures Decode(Encode(h, reserved)) == h
  {
    ThreeBytes(h.length);
    FourBytes(h.streamId, reserved);
  }

  /** Dividing by 256 once more. */
  lemma Shift(n: nat)
    ensures n / 0x1_0000 == n / 0x100 / 0x100 && n / 0x100_0000 == n / 0x1_0000 / 0x100
  {
  }

  lemma ThreeBytes(n: nat)
    requires n < 0x100_0000
    ensures n / 0x1_0000 % 256 * 65536 + n / 0x100 % 256 * 256 + n % 256 == n
  {
    Shift(n);
  }

  lemma FourBytes(n: nat, reserved: bool)
    requires n < 0x8000_0000
    ensures var top := n / 0x100_0000 % 128 + if reserved then 128 else 0;
      (top * 16777216 + n / 0x1_0000 % 256 * 65536 + n / 0x100 % 256 * 256 + n % 256) % 0x8000_0000 == n
  {
    Shift(n);
    Digits(n, n / 0x100, n / 0x1_0000, n / 0x100_0000);
    Modulo(n, reserved);
  }

  lemma Digits(n: nat, a: nat, b: nat, c: nat)
    requires a == n / 256 && b == a / 256 && c == b / 256 && c < 128
    ensures c % 128 * 16777216 + b % 256 * 65536 + a % 256 * 256 + n % 256 == n
  {
  }

  lemma Modulo(n: nat, reserved: bool)
    requires n < 0x8000_0000
    ensures (n + if reserved then 0x8000_0000 else 0) % 0x8000_0000 == n
  {
  }

  function Start(f: Frame): bytes {
    Encode(f.h, f.reserved)
  }

  lemma StartIs(f: Frame)
    requires FrameOk(f)
    ensures |Start(f)| == FRAME_HEADER && Decode(Start(f)) == f.h
  {
    hide Decode, Encode;
    DecodeReads(f.h, f.reserved);
  }

  /** It is neither DATA that is passed on nor short enough to be put together: it must not be cut. */
  predicate IsLong(bodies: bool, f: Frame) {
    !(bodies && f.h.kind == 0) && |f.body| > 1024
  }

  /** What is to be done for a frame: with bodies, DATA (type 0) is passed on byte by byte; HEADERS (type 1)
      are decoded; nothing else is done. */
  function FrameActs(bodies: bool, f: Frame): seq<Act> {
    if bodies && f.h.kind == 0 then [Open(f.h)] + (Each(f.h, f.body) + [Close(f.h)])
    else if f.h.kind == 1 then [Block(f.h, f.body)]
    else []
  }

  function FrameBytes(fs: seq<Frame>): bytes {
    if fs == [] then [] else Start(fs[0]) + fs[0].body + FrameBytes(fs[1..])
  }

  ghost predicate FramesOk(fs: seq<Frame>) {
    forall i :: 0 <= i < |fs| ==> FrameOk(fs[i])
  }

  function AllActs(bodies: bool, fs: seq<Frame>): seq<Act>
    requires FramesOk(fs)
  {
    if fs == [] then [] else FrameActs(bodies, fs[0]) + AllActs(bodies, fs[1..])
  }

  lemma FeedFrameWhole(bodies: bool, f: Frame)
    requires FrameOk(f)
    ensures Feed(bodies, IDLE, Start(f) + f.body) == (IDLE, FrameActs(bodies, f))
  {
    hide Feed, Decode, Each, Start;
    StartIs(f);
    if Streamed(bodies, f.h) {
      FeedStreamed(bodies, Start(f), f.body);
    } else {
      FeedPlain(bodies, Start(f), f.body);
    }
  }

  lemma {:induction false} FeedFrames(bodies: bool, fs: seq<Frame>)
    requires FramesOk(fs)
    ensures Feed(bodies, IDLE, FrameBytes(fs)) == (IDLE, AllActs(bodies, fs))
  {
    hide Feed, FrameActs, FrameOk;
    if fs == [] {
      FeedNothing(bodies, IDLE);
    } else {
      FeedFrames(bodies, fs[1..]);
      FeedFrameWhole(bodies, fs[0]);
      FeedConcat(bodies, IDLE, Start(fs[0]) + fs[0].body, FrameBytes(fs[1..]));
    }
  }

  // ---------------------------------------------------------------------------
  // Exactly which cuts matter
  // ---------------------------------------------------------------------------

  /** Position n is inside a long frame: behind its header and before its end. */
  predicate InLong(bodies: bool, fs: seq<Frame>, n: nat)
    requires FramesOk(fs)
  {
    if fs == [] then false
    else
      var size := FRAME_HEADER + |fs[0].body|;
      if n < size then IsLong(bodies, fs[0]) && FRAME_HEADER <= n else InLong(bodies, fs[1..], n - size)
  }

  lemma StartOfFrame(bodies: bool, f: Frame, n: nat)
    requires FrameOk(f) && n < |Start(f) + f.body|
    ensures GivenUp(Feed(bodies, IDLE, (Start(f) + f.body)[..n]).0) <==> IsLong(bodies, f) && FRAME_HEADER <= n
    ensures IsLong(bodies, f) && FRAME_HEADER <= n ==> Feed(bodies, IDLE, (Start(f) + f.body)[..n]).1 == []
  {
    hide Feed, Decode, Each, Start;
    StartIs(f);
    var b := (Start(f) + f.body)[..n];
    if n < FRAME_HEADER {
      FeedHead(bodies, [], b);
    } else {
      var part := f.body[..n - FRAME_HEADER];
      assert b == Start(f) + part;
      if Streamed(bodies, f.h) {
        FeedStreamed(bodies, Start(f), part);
      } else {
        FeedPlain(bodies, Start(f), part);
      }
    }
  }

  lemma PrefixBehind(first: bytes, rest: bytes, n: nat)
    requires |first| <= n <= |first + rest|
    ensures (first + rest)[..n] == first + rest[..n - |first|]
  {
  }

  /** An event that ends at position n of a list of frames gives one up if and only if it ends inside a
      long frame. */
  lemma {:induction false} GivenUpIffInLong(bodies: bool, fs: seq<Frame>, n: nat)
    requires FramesOk(fs) && n <= |FrameBytes(fs)|
    ensures GivenUp(Feed(bodies, IDLE, FrameBytes(fs)[..n]).0) <==> InLong(bodies, fs, n)
    decreases |fs|
  {
    hide Feed, FrameOk, GivenUp, IsLong;
    if fs == [] {
      FeedNothing(bodies, IDLE);
      IdleIsNotGivenUp();
    } else {
      var first, rest := Start(fs[0]) + fs[0].body, FrameBytes(fs[1..]);
      assert |first| == FRAME_HEADER + |fs[0].body| by { assert FrameOk(fs[0]); SizeOfFrame(fs[0]); }
      if n < |first| {
        assert (first + rest)[..n] == first[..n];
        StartOfFrame(bodies, fs[0], n);
      } else {
        PrefixBehind(first, rest, n);
        FeedFrameWhole(bodies, fs[0]);
        FeedConcat(bodies, IDLE, first, rest[..n - |first|]);
        GivenUpIffInLong(bodies, fs[1..], n - |first|);
      }
    }
  }

  lemma IdleIsNotGivenUp()
    ensures !GivenUp(IDLE)
  {
  }

  lemma SizeOfFrame(f: Frame)
    requires FrameOk(f)
    ensures |Start(f) + f.body| == FRAME_HEADER + |f.body|
  {
  }

  lemma {:induction false} FramedAllSnoc(bodies: bool, client: bool, s: State, events: seq<bytes>, e: bytes)
    ensures var (t, x) := FramedAll(bodies, client, s, events);
      var (u, y) := Framed(bodies, client, t, e);
      FramedAll(bodies, client, s, events + [e]) == (u, x + y)
    decreases |events|
  {
    hide Framed;
    if events == [] {
      assert ([] + [e])[1..] == [] && ([] + [e])[0] == e;
      var y := Framed(bodies, client, s, e).1;
      assert y + [] == y && [] + y == y;
    } else {
      var (t, x) := Framed(bodies, client, s, events[0]);
      FramedAllSnoc(bodies, client, t, events[1..], e);
      assert (events + [e])[1..] == events[1..] + [e] && (events + [e])[0] == events[0];
      var (u, y) := FramedAll(bodies, client, t, events[1..]);
      var z := Framed(bodies, client, u, e).1;
      assert x + (y + z) == (x + y) + z;
    }
  }

  /** The same bytes as section 3.5 of RFC 7540 writes them. */
  const MAGIC: bytes := Ascii("PRI * HTTP/2.0\r\n\r\nSM\r\n\r\n")

  /** Events of one direction that are the bytes of these frames, with no preface at the start of one. */
  ghost predicate AreEventsOf(client: bool, fs: seq<Frame>, events: seq<bytes>) {
    && FramesOk(fs) && Join(events) == FrameBytes(fs)
    && forall i :: 0 <= i < |events| ==> !(client && MAGIC <= events[i])
  }

  /** Where the k-th event starts. */
  function Cut(events: seq<bytes>, k: nat): nat
    requires k <= |events|
  {
    |Join(events[..k])|
  }

  lemma CutIsPrefix(client: bool, fs: seq<Frame>, events: seq<bytes>, k: nat)
    requires AreEventsOf(client, fs, events) && k <= |events|
    ensures Cut(events, k) <= |FrameBytes(fs)| && Join(events[..k]) == FrameBytes(fs)[..Cut(events, k)]
  {
    hide FrameBytes, Join;
    JoinConcat(events[..k], events[k..]);
    assert events == events[..k] + events[k..];
  }

  /** No event ends inside a long frame, up to the k-th. */
  ghost predicate NoneInLong(bodies: bool, fs: seq<Frame>, events: seq<bytes>, k: nat)
    requires FramesOk(fs) && k <= |events|
  {
    forall j :: 0 <= j <= k ==> !InLong(bodies, fs, Cut(events, j))
  }

  /** As long as no event ends inside a long frame, events are the bytes they bring. */
  lemma {:induction false} EventsAreBytes(bodies: bool, client: bool, fs: seq<Frame>, events: seq<bytes>, k: nat)
    requires AreEventsOf(client, fs, events) && k <= |events| && NoneInLong(bodies, fs, events, k)
    ensures FramedAll(bodies, client, IDLE, events[..k]) == Feed(bodies, IDLE, Join(events[..k]))
    decreases k
  {
    hide Feed, GivenUp, FrameBytes, InLong, FramesOk, FramedAll, Join;
    if k == 0 {
      assert events[..0] == [];
      NoEvents(bodies, client);
    } else {
      var e := events[k - 1];
      EventsAreBytes(bodies, client, fs, events, k - 1);
      assert events[..k] == events[..k - 1] + [e];
      FramedAllSnoc(bodies, client, IDLE, events[..k - 1], e);
      JoinSnoc(events[..k - 1], e);
      FeedConcat(bodies, IDLE, Join(events[..k - 1]), e);
      CutIsPrefix(client, fs, events, k);
      GivenUpIffInLong(bodies, fs, Cut(events, k));
      assert !InLong(bodies, fs, Cut(events, k));
    }
  }

  lemma NoEvents(bodies: bool, client: bool)
    ensures FramedAll(bodies, client, IDLE, []) == Feed(bodies, IDLE, Join([]))
  {
    FeedNothing(bodies, IDLE);
  }

  /** An event never leaves a frame that is given up. */
  lemma {:induction false} NothingGivenUpStays(bodies: bool, client: bool, events: seq<bytes>)
    ensures !GivenUp(FramedAll(bodies, client, IDLE, events).0)
  {
    if events == [] {
      IdleIsNotGivenUp();
    } else {
      hide Feed;
      var n := |events| - 1;
      FramedAllSnoc(bodies, client, IDLE, events[..n], events[n]);
      assert events == events[..n] + [events[n]];
      IdleIsNotGivenUp();
    }
  }

  /** The exact condition, for frames of any length: framing follows the bytes, in its state and in what
      it does, after every event, if and only if no event ends inside a frame that is longer than 1024
      bytes and not passed on. It is enough to look at the states. */
  lemma CutsShowIffInLong(bodies: bool, client: bool, fs: seq<Frame>, events: seq<bytes>)
    requires AreEventsOf(client, fs, events)
    ensures NoneInLong(bodies, fs, events, |events|) <==>
      forall k {:trigger events[..k]} :: 0 <= k <= |events| ==>
        FramedAll(bodies, client, IDLE, events[..k]) == Feed(bodies, IDLE, Join(events[..k]))
    ensures NoneInLong(bodies, fs, events, |events|) <==>
      forall k {:trigger events[..k]} :: 0 <= k <= |events| ==>
        FramedAll(bodies, client, IDLE, events[..k]).0 == Feed(bodies, IDLE, Join(events[..k])).0
    ensures NoneInLong(bodies, fs, events, |events|) ==>
      FramedAll(bodies, client, IDLE, events) == (IDLE, AllActs(bodies, fs))
  {
    hide Feed, GivenUp, FrameBytes, InLong, FramesOk, FramedAll, Join, AllActs;
    if NoneInLong(bodies, fs, events, |events|) {
      forall k | 0 <= k <= |events|
        ensures FramedAll(bodies, client, IDLE, events[..k]) == Feed(bodies, IDLE, Join(events[..k]))
      {
        EventsAreBytes(bodies, client, fs, events, k);
      }
      assert events[..|events|] == events;
      FeedFrames(bodies, fs);
    } else {
      var k :| 0 <= k <= |events| && InLong(bodies, fs, Cut(events, k));
      StateIsLost(bodies, client, fs, events, k);
      assert events[..k] == events[..k];
    }
  }

  lemma StateIsLost(bodies: bool, client: bool, fs: seq<Frame>, events: seq<bytes>, k: nat)
    requires AreEventsOf(client, fs, events) && k <= |events| && InLong(bodies, fs, Cut(events, k))
    ensures FramedAll(bodies, client, IDLE, events[..k]).0 != Feed(bodies, IDLE, Join(events[..k])).0
  {
    hide Feed, GivenUp, FrameBytes, InLong, FramesOk, FramedAll, Join;
    CutIsPrefix(client, fs, events, k);
    GivenUpIffInLong(bodies, fs, Cut(events, k));
    NothingGivenUpStays(bodies, client, events[..k]);
  }

  lemma PrefaceIsMagic()
    ensures PREFACE == MAGIC
  {
  }

  /** The preface goes with the event it starts. */
  lemma PrefaceIsTakenOut(bodies: bool, e: bytes, rest: seq<bytes>)
    requires !(MAGIC <= e)
    ensures FramedAll(bodies, true, IDLE, [MAGIC + e] + rest) == FramedAll(bodies, true, IDLE, [e] + rest)
  {
    hide Feed, Left;
    PrefaceIsMagic();
    assert (MAGIC + e)[|MAGIC|..] == e;
    assert ([MAGIC + e] + rest)[1..] == rest == ([e] + rest)[1..];
    assert ([MAGIC + e] + rest)[0] == MAGIC + e && ([e] + rest)[0] == e;
  }

  lemma {:induction false} ShortFramesHaveNoInside(bodies: bool, fs: seq<Frame>, n: nat)
    requires FramesOk(fs) && forall i :: 0 <= i < |fs| ==> !IsLong(bodies, fs[i])
    ensures !InLong(bodies, fs, n)
    decreases |fs|
  {
    hide FrameOk;
    if fs != [] && n >= FRAME_HEADER + |fs[0].body| {
      ShortFramesHaveNoInside(bodies, fs[1..], n - FRAME_HEADER - |fs[0].body|);
    }
  }

  /** However the bytes of frames are cut into events, after a preface or without one: if no event ends
      inside a long frame, the same is done for every frame, in order, and the connection is left between
      two frames. */
  lemma EveryCutFramesAlike(bodies: bool, client: bool, fs: seq<Frame>, preface: bool, events: seq<bytes>)
    requires AreEventsOf(client, fs, events) && events != [] && NoneInLong(bodies, fs, events, |events|)
    requires preface ==> client
    ensures var sent := if preface then [MAGIC + events[0]] + events[1..] else events;
      FramedAll(bodies, client, IDLE, sent) == (IDLE, AllActs(bodies, fs))
  {
    hide FramedAll, AllActs, FrameBytes, InLong, Feed, Join;
    CutsShowIffInLong(bodies, client, fs, events);
    if preface {
      assert events == [events[0]] + events[1..];
      PrefaceIsTakenOut(bodies, events[0], events[1..]);
    }
  }

  /** Frames of which none is long can be cut anywhere. */
  lemma ShortFramesCanBeCut(bodies: bool, client: bool, fs: seq<Frame>, preface: bool, events: seq<bytes>)
    requires AreEventsOf(client, fs, events) && events != [] && forall i :: 0 <= i < |fs| ==> !IsLong(bodies, fs[i])
    requires preface ==> client
    ensures var sent := if preface then [MAGIC + events[0]] + events[1..] else events;
      FramedAll(bodies, client, IDLE, sent) == (IDLE, AllActs(bodies, fs))
  {
    hide FramedAll, AllActs, FrameBytes, InLong, IsLong, Feed, Join;
    forall k | 0 <= k <= |events|
      ensures !InLong(bodies, fs, Cut(events, k))
    {
      ShortFramesHaveNoInside(bodies, fs, Cut(events, k));
    }
    EveryCutFramesAlike(bodies, client, fs, preface, events);
  }

  lemma {:induction false} ActsUpTo(bodies: bool, fs: seq<Frame>, n: nat) returns (i: nat)
    requires FramesOk(fs) && n <= |FrameBytes(fs)| && InLong(bodies, fs, n)
    ensures i < |fs| && IsLong(bodies, fs[i]) && |FrameBytes(fs[..i])| + FRAME_HEADER <= n < |FrameBytes(fs[..i + 1])|
    ensures Feed(bodies, IDLE, FrameBytes(fs)[..n]).1 == AllActs(bodies, fs[..i])
    decreases |fs|
  {
    hide Feed, FrameOk, IsLong, FrameActs;
    var first, rest := Start(fs[0]) + fs[0].body, FrameBytes(fs[1..]);
    assert |first| == FRAME_HEADER + |fs[0].body| by { assert FrameOk(fs[0]); SizeOfFrame(fs[0]); }
    if n < |first| {
      i := 0;
      assert (first + rest)[..n] == first[..n];
      StartOfFrame(bodies, fs[0], n);
      OneFrameBytes(fs);
    } else {
      PrefixBehind(first, rest, n);
      FeedFrameWhole(bodies, fs[0]);
      FeedConcat(bodies, IDLE, first, rest[..n - |first|]);
      var j := ActsUpTo(bodies, fs[1..], n - |first|);
      i := j + 1;
      assert fs[..i][1..] == fs[1..][..j] && fs[..i + 1][1..] == fs[1..][..j + 1];
    }
  }

  lemma OneFrameBytes(fs: seq<Frame>)
    requires fs != []
    ensures FrameBytes(fs[..0]) == [] && FrameBytes(fs[..1]) == Start(fs[0]) + fs[0].body
  {
    assert fs[..1][1..] == [];
  }

  /** What such a cut costs: when the k-th event is the first that ends inside a long frame, everything
      before that frame was done, the frame itself is not, and what is left of it is read as frames. */
  lemma CutLongFrameIsLost(bodies: bool, client: bool, fs: seq<Frame>, events: seq<bytes>, k: nat) returns (i: nat)
    requires AreEventsOf(client, fs, events) && k < |events| && NoneInLong(bodies, fs, events, k)
    requires InLong(bodies, fs, Cut(events, k + 1))
    ensures i < |fs| && IsLong(bodies, fs[i])
    ensures |FrameBytes(fs[..i])| + FRAME_HEADER <= Cut(events, k + 1) < |FrameBytes(fs[..i + 1])|
    ensures FramedAll(bodies, client, IDLE, events[..k + 1]) == (IDLE, AllActs(bodies, fs[..i]))
  {
    hide Feed, FrameBytes, InLong, FramesOk, FramedAll, Join, AllActs, IsLong;
    var e, before := events[k], events[..k];
    EventsAreBytes(bodies, client, fs, events, k);
    assert events[..k + 1] == before + [e];
    FramedAllSnoc(bodies, client, IDLE, before, e);
    JoinSnoc(before, e);
    FeedConcat(bodies, IDLE, Join(before), e);
    CutIsPrefix(client, fs, events, k + 1);
    GivenUpIffInLong(bodies, fs, Cut(events, k + 1));
    i := ActsUpTo(bodies, fs, Cut(events, k + 1));
  }

  /** So is the condition on the preface: sent as the data of a request, at the start of an event, it
      is taken out of the data. */
  lemma PrefaceInDataIsLost(h: Header, remaining: nat, rest: bytes)
    requires |rest| + |MAGIC| < remaining
    ensures Framed(true, true, InData(h, remaining), MAGIC + rest) == (InData(h, remaining - |rest|), Each(h, rest))
    ensures Feed(true, InData(h, remaining), MAGIC + rest) ==
      (InData(h, remaining - |MAGIC| - |rest|), Each(h, MAGIC + rest))
  {
    hide Feed, Each;
    assert (MAGIC + rest)[|MAGIC|..] == rest;
    FeedData(true, h, remaining, rest);
    FeedData(true, h, remaining, MAGIC + rest);
  }
}
