/**
The ring buffers in memory (mmapRing and queuedRing of ebpftracer/ringmerge.go): the records lie in
a circular byte array behind an eight-byte header, rounded up to eight bytes, and the positions only
grow. The kernel's side (reserve, commit, discard) is modelled as far as the reader depends on it.

What the bytes say is kept in two ghost sequences, and every method is stated over Ahead(): the
records not yet taken, in reservation order, without the discarded ones.
*/
module RingBuffer {
  import opened Bytes

  const BUSY_BIT: nat := 0x8000_0000
  const DISCARD_BIT: nat := 0x4000_0000
  const HDR_SIZE: nat := 8

  /** A record: reserved, given up, or there to be read. */
  datatype Slot = Busy | Discarded | Committed(rec: bytes)

  datatype Head = HeadEmpty | HeadBusy | HeadReady(rec: bytes, ts: nat)

  /** The room a record takes: the header, the record, rounded up to eight bytes. */
  function Room(len: nat): (r: nat)
    ensures r % 8 == 0 && len + HDR_SIZE <= r < len + HDR_SIZE + 8
  {
    (len + HDR_SIZE + 7) / 8 * 8
  }

  /** Where record i starts. */
  function Pos(lens: seq<nat>, i: nat): (p: nat)
    requires i <= |lens|
    ensures p % 8 == 0
  {
    if i == 0 then 0 else Pos(lens, i - 1) + Room(lens[i - 1])
  }

  lemma {:induction false} PosGrows(lens: seq<nat>, i: nat, j: nat)
    requires i < j <= |lens|
    ensures Pos(lens, i) + Room(lens[i]) <= Pos(lens, j)
    decreases j
  {
    hide Room;
    if i < j - 1 {
      PosGrows(lens, i, j - 1);
    }
  }

  lemma {:induction false} PosPrefix(lens: seq<nat>, more: seq<nat>, i: nat)
    requires i <= |lens|
    ensures Pos(lens + more, i) == Pos(lens, i)
  {
    if i > 0 {
      PosPrefix(lens, more, i - 1);
    }
  }

  /** The mask of the code: the size of a ring is a power of two. */
  function Off(p: nat, size: nat): (o: nat)
    requires size > 0
    ensures o < size
  {
    p % size
  }

  lemma OffDistinct(p: nat, q: nat, size: nat)
    requires p < q < p + size
    ensures Off(p, size) != Off(q, size)
  {
    if p % size == q % size {
      var d := q / size - p / size;
      assert q - p == size * d by {
        assert p == size * (p / size) + p % size && q == size * (q / size) + q % size;
        Distribute(size, q / size, p / size);
      }
      Multiples(size, d);
    }
  }

  lemma Distribute(a: int, b: int, c: int)
    ensures a * (b - c) == a * b - a * c
  {
  }

  lemma Multiples(size: nat, d: int)
    ensures if d <= 0 then size * d <= 0 else size * d >= size
  {
  }

  // ---------------------------------------------------------------------------
  // Little-endian numbers
  // ---------------------------------------------------------------------------

  function U32(n: nat): (b: bytes)
    requires n < 0x1_0000_0000
    ensures |b| == 4
  {
    [n % 256, n / 256 % 256, n / 65536 % 256, n / 16777216]
  }

  function OfU32(b: bytes): nat
    requires |b| == 4
  {
    b[0] as int + 256 * (b[1] as int) + 65536 * (b[2] as int) + 16777216 * (b[3] as int)
  }

  lemma U32RoundTrip(n: nat)
    requires n < 0x1_0000_0000
    ensures OfU32(U32(n)) == n
  {
    assert n / 65536 == n / 256 / 256 && n / 16777216 == n / 65536 / 256;
  }

  /** The time in a record: eight bytes at an offset, 0 when the record is too short. */
  function Time(rec: bytes, offset: nat): nat {
    if |rec| >= offset + 8 then OfU32(rec[offset..offset + 4]) + 0x1_0000_0000 * OfU32(rec[offset + 4..offset + 8]) else 0
  }

  /** A record bears a time: the eight bytes at the offset are its digits to the base 256, the lowest first. */
  predicate Bears(rec: bytes, offset: nat, n: nat) {
    && |rec| >= offset + 8 && n < 0x1_0000_0000_0000_0000
    && rec[offset] == n % 256 && rec[offset + 1] == n / 0x100 % 256
    && rec[offset + 2] == n / 0x1_0000 % 256 && rec[offset + 3] == n / 0x100_0000 % 256
    && rec[offset + 4] == n / 0x1_0000_0000 % 256 && rec[offset + 5] == n / 0x100_0000_0000 % 256
    && rec[offset + 6] == n / 0x1_0000_0000_0000 % 256 && rec[offset + 7] == n / 0x100_0000_0000_0000 % 256
  }

  /** The time read from a record is the time it bears, and a record too short to bear one is read as 0. */
  lemma TimeIsRead(rec: bytes, offset: nat, n: nat)
    ensures Bears(rec, offset, n) ==> Time(rec, offset) == n
    ensures |rec| < offset + 8 ==> Time(rec, offset) == 0
  {
    if Bears(rec, offset, n) {
      var low, high := rec[offset..offset + 4], rec[offset + 4..offset + 8];
      Shift(n);
      Shift(n / 0x1_0000_0000);
      Higher(n);
      assert OfU32(low) + 0x1_0000_0000 * OfU32(high) == n by {
        Digits(n, n / 0x100, n / 0x1_0000, n / 0x100_0000, n / 0x1_0000_0000);
        var m := n / 0x1_0000_0000;
        Digits(m, m / 0x100, m / 0x1_0000, m / 0x100_0000, 0);
      }
    }
  }

  /** Dividing by 256 once more. */
  lemma Shift(n: nat)
    ensures n / 0x1_0000 == n / 0x100 / 0x100 && n / 0x100_0000 == n / 0x1_0000 / 0x100 && n / 0x1_0000_0000 == n / 0x100_0000 / 0x100
  {
  }

  lemma Higher(n: nat)
    ensures var m := n / 0x1_0000_0000;
      && n / 0x100_0000_0000 == m / 0x100 && n / 0x1_0000_0000_0000 == m / 0x1_0000
      && n / 0x100_0000_0000_0000 == m / 0x100_0000 && n / 0x1_0000_0000_0000_0000 == m / 0x1_0000_0000
  {
  }

  lemma Digits(n: nat, a: nat, b: nat, c: nat, rest: nat)
    requires a == n / 0x100 && b == a / 0x100 && c == b / 0x100 && rest == c / 0x100
    ensures n % 256 + 256 * (a % 256) + 65536 * (b % 256) + 16777216 * (c % 256) + 0x1_0000_0000 * rest == n
  {
  }

  function Header(len: nat, s: Slot): (h: nat)
    requires len < DISCARD_BIT
    ensures h < 0x1_0000_0000
  {
    match s
    case Busy => len + BUSY_BIT
    case Discarded => len + DISCARD_BIT
    case Committed(_) => len
  }

  // ---------------------------------------------------------------------------
  // What the bytes say
  // ---------------------------------------------------------------------------

  /** The n bytes from position p on, around the end of the array. */
  function Read(m: bytes, p: nat, n: nat): (b: bytes)
    requires |m| > 0
    ensures |b| == n
  {
    seq(n, k requires 0 <= k < n => m[Off(p + k, |m|)])
  }

  /** At position p the bytes are a record of that length in that state. */
  ghost predicate Says(m: bytes, p: nat, len: nat, s: Slot) {
    && |m| > 0 && len < DISCARD_BIT
    && Read(m, p, 4) == U32(Header(len, s))
    && (s.Committed? ==> Read(m, p + HDR_SIZE, len) == s.rec)
  }

  /** Among the positions of one turn of the ring, from lo on, only those from p to q may differ. */
  ghost predicate OnlyWithin(m: bytes, m': bytes, lo: nat, p: nat, q: nat) {
    && |m| == |m'| && |m| > 0
    && forall k {:trigger Off(k, |m|)} :: lo <= k < lo + |m| && !(p <= k < q) ==> m'[Off(k, |m|)] == m[Off(k, |m|)]
  }

  lemma ReadElsewhere(m: bytes, m': bytes, lo: nat, p: nat, q: nat, at: nat, n: nat)
    requires OnlyWithin(m, m', lo, p, q) && lo <= at && at + n <= lo + |m| && (at + n <= p || q <= at)
    ensures Read(m', at, n) == Read(m, at, n)
  {
    hide Off;
    forall k | 0 <= k < n
      ensures Read(m', at, n)[k] == Read(m, at, n)[k]
    {
      assert m'[Off(at + k, |m|)] == m[Off(at + k, |m|)];
    }
  }

  /** A record that lies elsewhere says the same. */
  lemma SaysElsewhere(m: bytes, m': bytes, lo: nat, p: nat, q: nat, at: nat, len: nat, s: Slot)
    requires OnlyWithin(m, m', lo, p, q) && Says(m, at, len, s)
    requires lo <= at && at + Room(len) <= lo + |m| && (at + Room(len) <= p || q <= at)
    ensures Says(m', at, len, s)
  {
    hide Read, U32, Off, Header;
    ReadElsewhere(m, m', lo, p, q, at, 4);
    ReadElsewhere(m, m', lo, p, q, at + HDR_SIZE, len);
  }

  lemma OnlyWithinTwice(m: bytes, m': bytes, m'': bytes, lo: nat, p: nat, q: nat)
    requires OnlyWithin(m, m', lo, p, q) && OnlyWithin(m', m'', lo, p, q)
    ensures OnlyWithin(m, m'', lo, p, q)
  {
    hide Off;
  }

  lemma OnlyWithinMore(m: bytes, m': bytes, lo: nat, p: nat, q: nat, p': nat, q': nat)
    requires OnlyWithin(m, m', lo, p, q) && p' <= p && q <= q'
    ensures OnlyWithin(m, m', lo, p', q')
  {
    hide Off;
  }

  /** The kernel writes bytes from position p on. */
  method Write(data: array<byte>, p: nat, b: bytes, ghost lo: nat)
    requires data.Length > 0 && lo <= p && p + |b| <= lo + data.Length
    modifies data
    ensures Read(data[..], p, |b|) == b
    ensures OnlyWithin(old(data[..]), data[..], lo, p, p + |b|)
  {
    hide Off;
    for i := 0 to |b|
      invariant forall k {:trigger b[k]} :: 0 <= k < i ==> data[Off(p + k, data.Length)] == b[k]
      invariant OnlyWithin(old(data[..]), data[..], lo, p, p + i)
    {
      forall k | lo <= k < lo + data.Length && k != p + i
        ensures Off(k, data.Length) != Off(p + i, data.Length)
      {
        if k < p + i { OffDistinct(k, p + i, data.Length); } else { OffDistinct(p + i, k, data.Length); }
      }
      data[Off(p + i, data.Length)] := b[i];
    }
  }

  // ---------------------------------------------------------------------------
  // A ring
  // ---------------------------------------------------------------------------

  /** Record i lies in the ring. */
  ghost predicate Stored(m: bytes, lens: seq<nat>, slots: seq<Slot>, i: nat) {
    |lens| == |slots| && i < |lens| && Says(m, Pos(lens, i), lens[i], slots[i])
  }

  /** A write into the room of record i leaves every other record. */
  lemma OthersStay(m: bytes, m': bytes, lens: seq<nat>, slots: seq<Slot>, lo: nat, i: nat, j: nat)
    requires i < |lens| && Stored(m, lens, slots, j) && i != j && lo <= Pos(lens, j) && Pos(lens, |lens|) <= lo + |m|
    requires OnlyWithin(m, m', lo, Pos(lens, i), Pos(lens, i) + Room(lens[i]))
    ensures Stored(m', lens, slots, j)
  {
    hide Says, OnlyWithin, Pos, Room;
    if i < j { PosGrows(lens, i, j); } else { PosGrows(lens, j, i); }
    PosGrows(lens, j, |lens|);
    SaysElsewhere(m, m', lo, Pos(lens, i), Pos(lens, i) + Room(lens[i]), Pos(lens, j), lens[j], slots[j]);
  }

  lemma StoredLen(m: bytes, lens: seq<nat>, slots: seq<Slot>, i: nat)
    requires Stored(m, lens, slots, i)
    ensures |m| > 0 && lens[i] < DISCARD_BIT
  {
  }

  /** The records that are not taken lie between the two positions. */
  lemma Window(lens: seq<nat>, taken: nat, i: nat)
    requires taken <= i < |lens|
    ensures Pos(lens, taken) <= Pos(lens, i) && Pos(lens, i) + Room(lens[i]) <= Pos(lens, |lens|)
  {
    hide Room;
    if taken < i { PosGrows(lens, taken, i); }
    PosGrows(lens, i, |lens|);
  }

  ghost predicate AllStored(m: bytes, lens: seq<nat>, slots: seq<Slot>, taken: nat) {
    |lens| == |slots| && forall j {:trigger Stored(m, lens, slots, j)} :: taken <= j < |lens| ==> Stored(m, lens, slots, j)
  }

  lemma OneChanged(m: bytes, m': bytes, lens: seq<nat>, slots: seq<Slot>, taken: nat, i: nat, s: Slot)
    requires AllStored(m, lens, slots, taken) && taken <= i < |lens| && Pos(lens, |lens|) <= Pos(lens, taken) + |m|
    requires OnlyWithin(m, m', Pos(lens, taken), Pos(lens, i), Pos(lens, i) + Room(lens[i]))
    requires Says(m', Pos(lens, i), lens[i], s)
    ensures AllStored(m', lens, slots[i := s], taken)
  {
    hide Says, OnlyWithin, Pos, Room;
    var slots' := slots[i := s];
    forall j | taken <= j < |lens|
      ensures Stored(m', lens, slots', j)
    {
      assert Stored(m, lens, slots, j);
      if j != i {
        Window(lens, taken, j);
        OthersStay(m, m', lens, slots, Pos(lens, taken), i, j);
      }
    }
  }

  lemma OneMore(m: bytes, m': bytes, lens: seq<nat>, slots: seq<Slot>, taken: nat, len: nat)
    requires AllStored(m, lens, slots, taken) && taken <= |lens| && len < DISCARD_BIT
    requires |m| > 0 && Pos(lens, |lens|) + Room(len) <= Pos(lens, taken) + |m|
    requires OnlyWithin(m, m', Pos(lens, taken), Pos(lens, |lens|), Pos(lens, |lens|) + Room(len))
    requires Says(m', Pos(lens, |lens|), len, Busy)
    ensures AllStored(m', lens + [len], slots + [Busy], taken)
    ensures Pos(lens + [len], taken) == Pos(lens, taken) && Pos(lens + [len], |lens| + 1) == Pos(lens, |lens|) + Room(len)
  {
    hide Says, OnlyWithin, Room;
    var n, lens' := |lens|, lens + [len];
    PosPrefix(lens, [len], taken);
    PosPrefix(lens, [len], n);
    hide Pos;
    forall j | taken <= j < n + 1
      ensures Stored(m', lens', slots + [Busy], j)
    {
      if j != n {
        PosPrefix(lens, [len], j);
        Window(lens', taken, j);
        assert Stored(m, lens, slots, j);
        assert Stored(m, lens', slots + [Busy], j);
        OthersStay(m, m', lens', slots + [Busy], Pos(lens, taken), n, j);
      }
    }
  }

  /** The records to come: the discarded ones do not count. */
  function Live(slots: seq<Slot>): seq<Slot> {
    if slots == [] then [] else (if slots[0].Discarded? then [] else [slots[0]]) + Live(slots[1..])
  }

  predicate NoDiscarded(s: seq<Slot>) {
    forall i :: 0 <= i < |s| ==> !s[i].Discarded?
  }

  lemma LiveFirst(s: Slot, rest: seq<Slot>)
    ensures Live([s] + rest) == (if s.Discarded? then [] else [s]) + Live(rest)
  {
    assert ([s] + rest)[1..] == rest;
  }

  lemma LiveEmpty()
    ensures Live([]) == []
  {
  }

  lemma {:induction false} LiveConcat(a: seq<Slot>, b: seq<Slot>)
    ensures Live(a + b) == Live(a) + Live(b)
  {
    LiveEmpty();
    hide Live;
    if a == [] {
      assert a + b == b;
    } else {
      var s, rest := a[0], a[1..];
      LiveConcat(rest, b);
      LiveFirst(s, rest);
      LiveFirst(s, rest + b);
      assert a == [s] + rest && a + b == [s] + (rest + b);
      if !s.Discarded? { assert [s] + (Live(rest) + Live(b)) == ([s] + Live(rest)) + Live(b); }
    }
  }

  class Ring {
    const tsOffset: nat
    const data: array<byte>
    /** The producer's page and the consumer's page. */
    var prod: nat
    var shared: nat
    var cons: nat
    var headLen: nat

    /** Every record ever reserved, and how many of them were taken. */
    ghost var lens: seq<nat>
    ghost var slots: seq<Slot>
    ghost var taken: nat

    ghost predicate Valid()
      reads this, data
    {
      && data.Length > 0 && |slots| == |lens| && taken <= |lens|
      && prod == Pos(lens, |lens|) && cons == shared == Pos(lens, taken)
      && cons <= prod <= cons + data.Length
      && (forall i {:trigger slots[i]} :: 0 <= i < taken ==> !slots[i].Busy?)
      && AllStored(data[..], lens, slots, taken)
    }

    ghost function Ahead(): seq<Slot>
      requires Valid()
      reads this, data
    {
      Live(slots[taken..])
    }

    /** The record the last head returned is the next one. */
    ghost predicate AtHead()
      requires Valid()
      reads this, data
    {
      taken < |lens| && slots[taken].Committed? && headLen == lens[taken]
    }

    constructor (size: nat, tsOffset: nat)
      requires size > 0
      ensures Valid() && Ahead() == [] && fresh(data) && data.Length == size && this.tsOffset == tsOffset
      ensures lens == [] && slots == [] && taken == 0
    {
      this.tsOffset := tsOffset;
      data := new byte[size];
      prod, shared, cons, headLen := 0, 0, 0, 0;
      lens, slots, taken := [], [], 0;
    }

    /** The load of the producer position: whether there is a record. */
    method LoadPosition() returns (some: bool)
      requires Valid()
      ensures some <==> taken < |slots|
    {
      if taken < |lens| { PosGrows(lens, taken, |lens|); }
      some := cons < prod;
    }

    /** The load of the header at the consumer position, and of the record if it is there to be read. */
    method LoadHeader() returns (s: Slot)
      requires Valid() && taken < |slots|
      modifies this`headLen
      ensures Valid() && s == slots[taken] && (s.Busy? || headLen == lens[taken])
    {
      hide Pos, Room, Read, U32, OfU32;
      assert Stored(data[..], lens, slots, taken);
      U32RoundTrip(Header(lens[taken], slots[taken]));
      var hdr := OfU32(Read(data[..], cons, 4));
      if hdr / BUSY_BIT % 2 != 0 {
        return Busy;
      }
      headLen := hdr % DISCARD_BIT;
      if hdr / DISCARD_BIT % 2 != 0 {
        return Discarded;
      }
      s := Committed(Read(data[..], cons + HDR_SIZE, headLen));
    }

    method Head() returns (h: Head)
      requires Valid()
      modifies this`cons, this`shared, this`headLen, this`taken
      ensures Valid() && Ahead() == old(Ahead()) && old(taken) <= taken
      ensures match h
        case HeadEmpty => Ahead() == []
        case HeadBusy => Ahead() != [] && Ahead()[0].Busy?
        case HeadReady(rec, ts) => Ahead() != [] && Ahead()[0] == Committed(rec) && ts == Time(rec, tsOffset) && AtHead()
    {
      hide Time, Pos, Room, AllStored;
      while true
        invariant Valid() && Ahead() == old(Ahead()) && old(taken) <= taken
        decreases |lens| - taken
      {
        var some := LoadPosition();
        if !some {
          return HeadEmpty;
        }
        assert slots[taken..] == [slots[taken]] + slots[taken + 1..];
        var s := LoadHeader();
        match s
        case Busy => return HeadBusy;
        case Committed(rec) => return HeadReady(rec, Time(rec, tsOffset));
        case Discarded => Pop();
      }
    }

    /** The record the last head returned. */
    function Front(): (rec: bytes)
      requires Valid() && AtHead()
      reads this, data
      ensures slots[taken] == Committed(rec)
    {
      assert Stored(data[..], lens, slots, taken);
      Read(data[..], cons + HDR_SIZE, headLen)
    }

    method Pop()
      requires Valid() && taken < |lens| && !slots[taken].Busy? && headLen == lens[taken]
      modifies this`cons, this`shared, this`taken
      ensures Valid() && taken == old(taken) + 1
      ensures Ahead() == if slots[old(taken)].Discarded? then old(Ahead()) else old(Ahead())[1..]
    {
      hide Room, Stored;
      assert slots[taken..] == [slots[taken]] + slots[taken + 1..];
      if taken + 1 < |lens| { PosGrows(lens, taken + 1, |lens|); }
      cons := cons + Room(headLen);
      shared := cons;
      taken := taken + 1;
    }

    /** The kernel reserves room, or has none. */
    method Reserve(len: nat) returns (ok: bool)
      requires Valid() && len < DISCARD_BIT
      modifies this`prod, this`lens, this`slots, data
      ensures Valid() && ok == (old(prod) + Room(len) < shared + data.Length)
      ensures slots == old(slots) + (if ok then [Busy] else []) && lens == old(lens) + if ok then [len] else []
      ensures Ahead() == old(Ahead()) + if ok then [Busy] else []
    {
      hide Room, Pos, U32, OnlyWithin, Read;
      if prod + Room(len) >= shared + data.Length {
        assert slots == old(slots) + [] && lens == old(lens) + [];
        return false;
      }
      Write(data, prod, U32(Header(len, Busy)), cons);
      OnlyWithinMore(old(data[..]), data[..], cons, prod, prod + 4, prod, prod + Room(len));
      OneMore(old(data[..]), data[..], lens, slots, taken, len);
      LiveConcat(slots[taken..], [Busy]);
      assert (slots + [Busy])[taken..] == slots[taken..] + [Busy];
      lens, slots := lens + [len], slots + [Busy];
      prod := prod + Room(len);
      ok := true;
    }

    /** The kernel writes a reserved record and hands it over. */
    method Commit(at: nat, rec: bytes, ghost i: nat)
      requires Valid() && i < |slots| && slots[i].Busy? && |rec| == lens[i] && at == Pos(lens, i)
      modifies this`slots, data
      ensures Valid() && slots == old(slots)[i := Committed(rec)]
    {
      hide Room, Pos, U32, OnlyWithin, Read, Header;
      assert Stored(data[..], lens, slots, i);
      ghost var p, q := at, at + Room(|rec|);
      StoredLen(data[..], lens, slots, i);
      Window(lens, taken, i);
      Write(data, at + HDR_SIZE, rec, cons);
      OnlyWithinMore(old(data[..]), data[..], cons, p + HDR_SIZE, p + HDR_SIZE + |rec|, p, q);
      ghost var mid := data[..];
      Write(data, at, U32(Header(|rec|, Committed(rec))), cons);
      ReadElsewhere(mid, data[..], cons, p, p + 4, p + HDR_SIZE, |rec|);
      OnlyWithinMore(mid, data[..], cons, p, p + 4, p, q);
      OnlyWithinTwice(old(data[..]), mid, data[..], cons, p, q);
      OneChanged(old(data[..]), data[..], lens, slots, taken, i, Committed(rec));
      slots := slots[i := Committed(rec)];
    }

    /** The kernel gives a reserved record up. */
    method Discard(at: nat, len: nat, ghost i: nat)
      requires Valid() && i < |slots| && slots[i].Busy? && len == lens[i] && at == Pos(lens, i)
      modifies this`slots, data
      ensures Valid() && slots == old(slots)[i := Discarded]
    {
      hide Room, Pos, U32, OnlyWithin, Read, Header;
      assert Stored(data[..], lens, slots, i);
      StoredLen(data[..], lens, slots, i);
      Window(lens, taken, i);
      Write(data, at, U32(Header(len, Discarded)), cons);
      OnlyWithinMore(old(data[..]), data[..], cons, at, at + 4, at, at + Room(len));
      OneChanged(old(data[..]), data[..], lens, slots, taken, i, Discarded);
      slots := slots[i := Discarded];
    }
  }

  // ---------------------------------------------------------------------------
  // A ring with a queue in memory before it
  // ---------------------------------------------------------------------------

  datatype Queued = Queued(rec: bytes, ts: nat)

  function Size(q: seq<Queued>): nat {
    if q == [] then 0 else |q[0].rec| + Size(q[1..])
  }

  lemma {:induction false} SizeSnoc(q: seq<Queued>, x: Queued)
    ensures Size(q + [x]) == Size(q) + |x.rec|
  {
    if q != [] {
      SizeSnoc(q[1..], x);
      assert (q + [x])[1..] == q[1..] + [x];
    }
  }

  function AsSlots(q: seq<Queued>): (s: seq<Slot>)
    ensures |s| == |q|
  {
    seq(|q|, i requires 0 <= i < |q| => Committed(q[i].rec))
  }

  class QueuedRing {
    const ring: Ring
    const maxBytes: int
    var records: seq<Queued>
    var queuedBytes: int

    ghost predicate Valid()
      reads this, ring, ring.data
    {
      && ring.Valid() && queuedBytes == Size(records)
      && forall i {:trigger records[i]} :: 0 <= i < |records| ==> records[i].ts == Time(records[i].rec, ring.tsOffset)
    }

    /** The queue first, then the ring. */
    ghost function Ahead(): seq<Slot>
      requires Valid()
      reads this, ring, ring.data
    {
      AsSlots(records) + ring.Ahead()
    }

    ghost predicate AtHead()
      requires Valid()
      reads this, ring, ring.data
    {
      records != [] || ring.AtHead()
    }

    constructor (ring: Ring, maxBytes: int)
      requires ring.Valid()
      ensures Valid() && this.ring == ring && this.maxBytes == maxBytes && Ahead() == ring.Ahead()
      ensures records == [] && queuedBytes == 0
    {
      this.ring, this.maxBytes := ring, maxBytes;
      records, queuedBytes := [], 0;
    }

    /** Moves records into memory until the queue is full or the ring has nothing ready. */
    method Fill()
      requires Valid()
      modifies this`records, this`queuedBytes, ring`cons, ring`shared, ring`headLen, ring`taken
      ensures Valid() && Ahead() == old(Ahead()) && old(records) <= records && old(ring.taken) <= ring.taken
      ensures queuedBytes >= maxBytes || ring.Ahead() == [] || ring.Ahead()[0].Busy?
    {
      hide Live, Pos, Room, Stored, AllStored, Time, Size;
      while queuedBytes < maxBytes
        invariant Valid() && Ahead() == old(Ahead()) && old(records) <= records && old(ring.taken) <= ring.taken
        decreases |ring.lens| - ring.taken
      {
        var h := ring.Head();
        if !h.HeadReady? {
          return;
        }
        ghost var before := ring.Ahead();
        ring.Pop();
        SizeSnoc(records, Queued(h.rec, h.ts));
        QueueStep(records, Queued(h.rec, h.ts), before);
        records := records + [Queued(h.rec, h.ts)];
        queuedBytes := queuedBytes + |h.rec|;
      }
    }

    method Head() returns (h: Head)
      requires Valid()
      modifies ring`cons, ring`shared, ring`headLen, ring`taken
      ensures Valid() && Ahead() == old(Ahead()) && old(ring.taken) <= ring.taken
      ensures match h
        case HeadEmpty => Ahead() == []
        case HeadBusy => Ahead() != [] && Ahead()[0].Busy?
        case HeadReady(rec, ts) => Ahead() != [] && Ahead()[0] == Committed(rec) && ts == Time(rec, ring.tsOffset) && AtHead()
    {
      hide Live, Pos, Room, Stored, AllStored, Time, Size;
      if |records| > 0 {
        return HeadReady(records[0].rec, records[0].ts);
      }
      h := ring.Head();
    }

    method Pop()
      requires Valid() && AtHead()
      modifies this`records, this`queuedBytes, ring`cons, ring`shared, ring`taken
      ensures Valid() && Ahead() == old(Ahead())[1..]
      ensures if old(records) == [] then records == [] && queuedBytes == old(queuedBytes) && ring.taken == old(ring.taken) + 1
        else records == old(records)[1..] && queuedBytes == old(queuedBytes - |records[0].rec|) && ring.taken == old(ring.taken)
    {
      hide Live, Pos, Room, Stored, AllStored, Time;
      if |records| == 0 {
        ring.Pop();
        return;
      }
      queuedBytes := queuedBytes - |records[0].rec|;
      records := records[1..];
    }
  }

  lemma QueueStep(q: seq<Queued>, x: Queued, before: seq<Slot>)
    requires before != [] && before[0] == Committed(x.rec)
    ensures AsSlots(q) + before == AsSlots(q + [x]) + before[1..]
  {
  }

  // ---------------------------------------------------------------------------
  // The merge, while no producer acts
  // ---------------------------------------------------------------------------

  datatype Pick = Idle | Wait | Hand(fromL7: bool, rec: bytes)

  /** Where the times are: in the records of the l7 ring and of the connections ring. */
  datatype Times = Times(l7: nat, conn: nat)

  predicate Writing(s: seq<Slot>) {
    s != [] && s[0].Busy?
  }

  predicate L7First(a: seq<Slot>, b: seq<Slot>, t: Times) {
    a != [] && a[0].Committed? && !(b != [] && b[0].Committed? && Time(b[0].rec, t.conn) <= Time(a[0].rec, t.l7))
  }

  function Next(a: seq<Slot>, b: seq<Slot>, t: Times): Pick {
    if Writing(a) || Writing(b) then Wait
    else if L7First(a, b, t) then Hand(true, a[0].rec)
    else if b != [] && b[0].Committed? then Hand(false, b[0].rec)
    else Idle
  }

  /** With a record at the head of each ring, the one that bears the smaller time goes first, and on equal
      times that of the connections ring. */
  lemma NextIsByTime(a: seq<Slot>, b: seq<Slot>, t: Times, n: nat, m: nat)
    requires a != [] && a[0].Committed? && Bears(a[0].rec, t.l7, n) && b != [] && b[0].Committed? && Bears(b[0].rec, t.conn, m)
    ensures Next(a, b, t) == if n < m then Hand(true, a[0].rec) else Hand(false, b[0].rec)
  {
    hide Time, Bears;
    TimeIsRead(a[0].rec, t.l7, n);
    TimeIsRead(b[0].rec, t.conn, m);
  }

  method NextRecord(l7: Ring, tcp: QueuedRing) returns (p: Pick)
    requires l7.Valid() && tcp.Valid() && l7 != tcp.ring && l7.data != tcp.ring.data
    modifies l7`cons, l7`shared, l7`headLen, l7`taken
    modifies tcp.ring`cons, tcp.ring`shared, tcp.ring`headLen, tcp.ring`taken
    ensures l7.Valid() && tcp.Valid() && l7.Ahead() == old(l7.Ahead()) && tcp.Ahead() == old(tcp.Ahead())
    ensures old(l7.taken) <= l7.taken && old(tcp.ring.taken) <= tcp.ring.taken
    ensures p == Next(l7.Ahead(), tcp.Ahead(), Times(l7.tsOffset, tcp.ring.tsOffset))
    ensures p.Hand? ==> if p.fromL7 then l7.AtHead() else tcp.AtHead()
  {
    hide Live, Pos, Room, Stored, AllStored, Time, Size, AsSlots;
    var a := l7.Head();
    var b := tcp.Head();
    if a.HeadBusy? || b.HeadBusy? {
      return Wait;
    }
    if a.HeadReady? && !b.HeadReady? {
      b := tcp.Head();
      if b.HeadBusy? { return Wait; }
    } else if b.HeadReady? && !a.HeadReady? {
      a := l7.Head();
      if a.HeadBusy? { return Wait; }
    } else if !a.HeadReady? {
      return Idle;
    }
    if a.HeadReady? && (!b.HeadReady? || a.ts < b.ts) {
      return Hand(true, a.rec);
    }
    p := Hand(false, b.rec);
  }

  type Handed = (bool, bytes)

  /** The merge of two lists of records: what is handed over and what is left of each. */
  function Merged(a: seq<Slot>, b: seq<Slot>, t: Times): (seq<Handed>, seq<Slot>, seq<Slot>)
    decreases |a| + |b|
  {
    var p := Next(a, b, t);
    if !p.Hand? then ([], a, b)
    else
      var (out, a', b') := Merged(if p.fromL7 then a[1..] else a, if p.fromL7 then b else b[1..], t);
      ([(p.fromL7, p.rec)] + out, a', b')
  }

  /** The lists after a record is taken. */
  function Rest(p: Pick, a: seq<Slot>, b: seq<Slot>): (seq<Slot>, seq<Slot>)
    requires p.Hand? && (if p.fromL7 then a else b) != []
  {
    if p.fromL7 then (a[1..], b) else (a, b[1..])
  }

  lemma MergedStep(a: seq<Slot>, b: seq<Slot>, t: Times)
    ensures var p := Next(a, b, t);
      if !p.Hand? then Merged(a, b, t) == ([], a, b)
      else
        && (if p.fromL7 then a != [] && a[0] == Committed(p.rec) else b != [] && b[0] == Committed(p.rec))
        && var (x, y) := Rest(p, a, b);
           var (out, a', b') := Merged(x, y, t);
           Merged(a, b, t) == ([(p.fromL7, p.rec)] + out, a', b')
  {
  }

  /** The loop of run, up to the point where it would wait. */
  method Drain(l7: Ring, tcp: QueuedRing) returns (out: seq<Handed>)
    requires l7.Valid() && tcp.Valid() && l7 != tcp.ring && l7.data != tcp.ring.data
    modifies l7`cons, l7`shared, l7`headLen, l7`taken
    modifies tcp`records, tcp`queuedBytes, tcp.ring`cons, tcp.ring`shared, tcp.ring`headLen, tcp.ring`taken
    ensures l7.Valid() && tcp.Valid()
    ensures (out, l7.Ahead(), tcp.Ahead()) == Merged(old(l7.Ahead()), old(tcp.Ahead()), Times(l7.tsOffset, tcp.ring.tsOffset))
  {
    hide Live, Pos, Room, Stored, AllStored, Time, Size, AsSlots, Next, Merged;
    out := [];
    ghost var t := Times(l7.tsOffset, tcp.ring.tsOffset);
    ghost var all := Merged(l7.Ahead(), tcp.Ahead(), t);
    assert out + all.0 == all.0;
    while true
      invariant l7.Valid() && tcp.Valid()
      invariant Continues(all, out, Merged(l7.Ahead(), tcp.Ahead(), t))
      decreases |l7.Ahead()| + |tcp.Ahead()|
    {
      tcp.Fill();
      var p := NextRecord(l7, tcp);
      MergedStep(l7.Ahead(), tcp.Ahead(), t);
      if !p.Hand? {
        assert out + [] == out;
        return;
      }
      ghost var (x, y) := Rest(p, l7.Ahead(), tcp.Ahead());
      ghost var more := Merged(x, y, t).0;
      assert out + ([(p.fromL7, p.rec)] + more) == (out + [(p.fromL7, p.rec)]) + more;
      if p.fromL7 {
        l7.Pop();
      } else {
        tcp.Pop();
      }
      out := out + [(p.fromL7, p.rec)];
    }
  }

  ghost predicate Continues(all: (seq<Handed>, seq<Slot>, seq<Slot>), out: seq<Handed>, rest: (seq<Handed>, seq<Slot>, seq<Slot>)) {
    all == (out + rest.0, rest.1, rest.2)
  }

  /** The records handed over from one ring, as they were in it. */
  function From(l7: bool, out: seq<Handed>): seq<Slot> {
    if out == [] then [] else (if out[0].0 == l7 then [Committed(out[0].1)] else []) + From(l7, out[1..])
  }

  lemma FromFirst(l7: bool, h: Handed, out: seq<Handed>, rest: seq<Slot>)
    ensures From(l7, [h] + out) + rest == (if h.0 == l7 then [Committed(h.1)] else []) + (From(l7, out) + rest)
  {
    assert ([h] + out)[1..] == out;
  }

  /** Nothing is lost, doubled or reordered within a ring, and the merge stops only at a record that
      is being written or with both rings empty. */
  lemma {:induction false} MergeConserves(a: seq<Slot>, b: seq<Slot>, t: Times)
    requires NoDiscarded(a) && NoDiscarded(b)
    ensures var (out, a', b') := Merged(a, b, t);
      && From(true, out) + a' == a && From(false, out) + b' == b
      && (Writing(a') || Writing(b') || (a' == [] && b' == []))
    decreases |a| + |b|
  {
    MergedStep(a, b, t);
    hide Merged;
    var p := Next(a, b, t);
    if p.Hand? {
      hide Next, From;
      var (x, y) := Rest(p, a, b);
      MergeConserves(x, y, t);
      var (out, a', b') := Merged(x, y, t);
      FromFirst(true, (p.fromL7, p.rec), out, a');
      FromFirst(false, (p.fromL7, p.rec), out, b');
      assert if p.fromL7 then a == [a[0]] + x else b == [b[0]] + y;
      assert [] + x == x && [] + y == y;
    }
  }

  function TimeOf(h: Handed, t: Times): nat {
    Time(h.1, if h.0 then t.l7 else t.conn)
  }

  ghost predicate InTimeOrder(s: seq<Slot>, offset: nat) {
    forall i, j :: 0 <= i < j < |s| && s[i].Committed? && s[j].Committed? ==> Time(s[i].rec, offset) <= Time(s[j].rec, offset)
  }

  ghost predicate NotBefore(from: nat, s: seq<Slot>, offset: nat) {
    forall i :: 0 <= i < |s| && s[i].Committed? ==> from <= Time(s[i].rec, offset)
  }

  ghost predicate Sorted(out: seq<Handed>, t: Times) {
    forall i, j :: 0 <= i < j < |out| ==> TimeOf(out[i], t) <= TimeOf(out[j], t)
  }

  /** What is handed over is the earliest of what there is. */
  lemma NextIsEarliest(a: seq<Slot>, b: seq<Slot>, t: Times)
    requires InTimeOrder(a, t.l7) && InTimeOrder(b, t.conn) && Next(a, b, t).Hand? && NoDiscarded(a) && NoDiscarded(b)
    ensures var p := Next(a, b, t); var from := TimeOf((p.fromL7, p.rec), t); NotBefore(from, a, t.l7) && NotBefore(from, b, t.conn)
  {
    hide Time;
  }

  /** Rings that are in time order are merged in time order. */
  lemma {:induction false} MergeSorts(a: seq<Slot>, b: seq<Slot>, t: Times)
    requires NoDiscarded(a) && NoDiscarded(b) && InTimeOrder(a, t.l7) && InTimeOrder(b, t.conn)
    ensures Sorted(Merged(a, b, t).0, t)
    decreases |a| + |b|
  {
    MergedStep(a, b, t);
    hide Time, Merged, Next;
    var p := Next(a, b, t);
    if p.Hand? {
      NextIsEarliest(a, b, t);
      var (x, y) := Rest(p, a, b);
      MergeSorts(x, y, t);
      MergeHandsLater(x, y, t, TimeOf((p.fromL7, p.rec), t));
    }
  }

  lemma {:induction false} MergeHandsLater(a: seq<Slot>, b: seq<Slot>, t: Times, from: nat)
    requires NotBefore(from, a, t.l7) && NotBefore(from, b, t.conn)
    ensures forall i :: 0 <= i < |Merged(a, b, t).0| ==> from <= TimeOf(Merged(a, b, t).0[i], t)
    decreases |a| + |b|
  {
    MergedStep(a, b, t);
    hide Time, Merged, Next;
    var p := Next(a, b, t);
    if p.Hand? {
      var (x, y) := Rest(p, a, b);
      MergeHandsLater(x, y, t, from);
    }
  }
}
