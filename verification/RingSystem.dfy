/**
The merge in memory, step by step with the producers: every load of a producer position and every load
of a record header from the bytes of a ring is a step of its own, and producers reserve, commit and
discard between any two of them. Each step is a step of the transition system of RingMerge, so what is
said of its runs there and in RingOrder is said here of the bytes that are handed over.
*/
module RingSystem {
  import opened Bytes
  import opened RingBuffer
  import M = RingMerge
  import O = RingOrder

  // ---------------------------------------------------------------------------
  // What the bytes mean in the transition system
  // ---------------------------------------------------------------------------

  ghost predicate Same(r: M.Record, s: Slot, len: nat, offset: nat) {
    && r.size == len
    && match s
       case Busy => r.status.Busy?
       case Discarded => r.status.Discarded?
       case Committed(rec) => r.status.Committed? && |rec| == len && Bears(rec, offset, r.ts)
  }

  ghost predicate RecsAre(recs: seq<M.Record>, slots: seq<Slot>, lens: seq<nat>, offset: nat) {
    |recs| == |slots| == |lens| && forall i :: 0 <= i < |recs| ==> Same(recs[i], slots[i], lens[i], offset)
  }

  ghost predicate QueueIs(queue: seq<nat>, records: seq<Queued>, slots: seq<Slot>) {
    |queue| == |records| && forall k :: 0 <= k < |queue| ==> queue[k] < |slots| && slots[queue[k]] == Committed(records[k].rec)
  }

  ghost predicate Handing(a: M.Id, h: Handed, l7: seq<Slot>, conn: seq<Slot>) {
    var slots := if a.0.L7? then l7 else conn;
    h.0 == a.0.L7? && a.1 < |slots| && slots[a.1] == Committed(h.1)
  }

  ghost predicate LogIs(log: seq<M.Id>, out: seq<Handed>, l7: seq<Slot>, conn: seq<Slot>) {
    |log| == |out| && forall k :: 0 <= k < |log| ==> Handing(log[k], out[k], l7, conn)
  }

  /** Producers do not touch what is committed. */
  ghost predicate Grows(a: seq<Slot>, b: seq<Slot>) {
    |a| <= |b| && forall i :: 0 <= i < |a| && a[i].Committed? ==> b[i] == a[i]
  }

  lemma QueueStays(queue: seq<nat>, records: seq<Queued>, a: seq<Slot>, b: seq<Slot>)
    requires QueueIs(queue, records, a) && Grows(a, b)
    ensures QueueIs(queue, records, b)
  {
  }

  lemma LogStays(log: seq<M.Id>, out: seq<Handed>, l7: seq<Slot>, conn: seq<Slot>, l7': seq<Slot>, conn': seq<Slot>)
    requires LogIs(log, out, l7, conn) && Grows(l7, l7') && Grows(conn, conn')
    ensures LogIs(log, out, l7', conn')
  {
    forall k | 0 <= k < |log|
      ensures Handing(log[k], out[k], l7', conn')
    {
      assert Handing(log[k], out[k], l7, conn);
    }
  }

  // ---------------------------------------------------------------------------
  // Records by their places
  // ---------------------------------------------------------------------------

  ghost predicate Within(ids: seq<nat>, n: nat) {
    forall i :: 0 <= i < |ids| ==> ids[i] < n
  }

  function SlotsAt(slots: seq<Slot>, ids: seq<nat>): (r: seq<Slot>)
    requires Within(ids, |slots|)
    ensures |r| == |ids|
  {
    seq(|ids|, i requires 0 <= i < |ids| => slots[ids[i]])
  }

  lemma SlotsAtConcat(slots: seq<Slot>, a: seq<nat>, b: seq<nat>)
    requires Within(a, |slots|) && Within(b, |slots|)
    ensures Within(a + b, |slots|) && SlotsAt(slots, a + b) == SlotsAt(slots, a) + SlotsAt(slots, b)
  {
  }

  /** The live records below n are those at the committed places. */
  lemma {:induction false} LiveIsCommitted(recs: seq<M.Record>, slots: seq<Slot>, lens: seq<nat>, offset: nat, n: nat)
    requires RecsAre(recs, slots, lens, offset) && n <= |slots| && M.NoneBusy(recs, n)
    ensures Within(M.CommittedUpTo(recs, n), |slots|) && Live(slots[..n]) == SlotsAt(slots, M.CommittedUpTo(recs, n))
  {
    if n > 0 {
      LiveIsCommitted(recs, slots, lens, offset, n - 1);
      assert Same(recs[n - 1], slots[n - 1], lens[n - 1], offset);
      assert slots[..n] == slots[..n - 1] + [slots[n - 1]];
      LiveConcat(slots[..n - 1], [slots[n - 1]]);
      LiveFirst(slots[n - 1], []);
      assert [slots[n - 1]] + [] == [slots[n - 1]];
    }
  }

  lemma {:induction false} FromSnoc(l7: bool, out: seq<Handed>, h: Handed)
    ensures From(l7, out + [h]) == From(l7, out) + if h.0 == l7 then [Committed(h.1)] else []
  {
    if out == [] {
      assert out + [h] == [h] && [h][1..] == [];
    } else {
      FromSnoc(l7, out[1..], h);
      assert (out + [h])[1..] == out[1..] + [h];
    }
  }

  function SlotsOf(ring: M.Ring, l7: seq<Slot>, conn: seq<Slot>): seq<Slot> {
    if ring.L7? then l7 else conn
  }

  /** What is handed over from a ring is what is at the places handed over. */
  lemma {:induction false} FromIsHanded(log: seq<M.Id>, out: seq<Handed>, l7: seq<Slot>, conn: seq<Slot>, ring: M.Ring)
    requires LogIs(log, out, l7, conn)
    ensures var slots := SlotsOf(ring, l7, conn);
      Within(M.Handed(log, ring), |slots|) && From(ring.L7?, out) == SlotsAt(slots, M.Handed(log, ring))
  {
    if log != [] {
      hide From;
      var n := |log| - 1;
      FromIsHanded(log[..n], out[..n], l7, conn, ring);
      FromSnoc(ring.L7?, out[..n], out[n]);
      assert out == out[..n] + [out[n]];
      assert Handing(log[n], out[n], l7, conn);
    }
  }

  lemma QueueIsThere(queue: seq<nat>, records: seq<Queued>, slots: seq<Slot>)
    requires QueueIs(queue, records, slots)
    ensures Within(queue, |slots|) && SlotsAt(slots, queue) == AsSlots(records)
  {
  }

  class System {
    const l7: Ring
    const tcp: QueuedRing
    var pc: M.Pc
    var out: seq<Handed>

    /** The run so far. */
    ghost var states: seq<M.State>

    function At(ring: M.Ring): Ring {
      if ring.L7? then l7 else tcp.ring
    }

    ghost predicate Rings()
      reads this, l7, l7.data, tcp, tcp.ring, tcp.ring.data
    {
      l7.Valid() && tcp.Valid() && l7 != tcp.ring && l7.data != tcp.ring.data
    }

    /** A head that was read before is still the head. */
    ghost predicate Heads()
      requires Rings()
      reads this, l7, l7.data, tcp, tcp.ring, tcp.ring.data
    {
      && (pc.FirstConn? && pc.l7.HeadReady? ==> l7.AtHead())
      && (pc.SecondConn? ==> l7.AtHead())
      && (pc.SecondL7? ==> tcp.AtHead())
    }

    ghost predicate Depicts(w: M.World, m: M.Merger)
      reads this, l7, tcp, tcp.ring
    {
      && RecsAre(w.l7, l7.slots, l7.lens, l7.tsOffset)
      && RecsAre(w.conn, tcp.ring.slots, tcp.ring.lens, tcp.ring.tsOffset)
      && m.l7Cons == l7.taken && m.connCons == tcp.ring.taken
      && QueueIs(m.queue, tcp.records, tcp.ring.slots) && m.queuedBytes == tcp.queuedBytes && m.maxBytes == tcp.maxBytes
      && m.pc == pc && LogIs(m.log, out, l7.slots, tcp.ring.slots)
    }

    ghost function Last(): M.State
      requires |states| > 0
      reads this
    {
      states[|states| - 1]
    }

    ghost predicate Valid()
      reads this, l7, l7.data, tcp, tcp.ring, tcp.ring.data
    {
      && Rings() && Heads() && |states| > 0 && M.IsRun(states)
      && M.WellFormed(Last().w, Last().m) && Depicts(Last().w, Last().m)
    }

    constructor (l7Size: nat, connSize: nat, l7Offset: nat, connOffset: nat, maxBytes: nat)
      requires l7Size > 0 && connSize > 0
      ensures Valid() && out == [] && states == [M.Init(maxBytes)]
    {
      l7 := new Ring(l7Size, l7Offset);
      var ring := new Ring(connSize, connOffset);
      tcp := new QueuedRing(ring, maxBytes);
      pc, out := M.Fill(false), [];
      states := [M.Init(maxBytes)];
    }

    method HandOver(ring: M.Ring, ghost w: M.World, ghost m: M.Merger)
      requires Rings() && Depicts(w, m) && (if ring.L7? then l7.AtHead() else tcp.AtHead())
      modifies this`pc, this`out, l7`cons, l7`shared, l7`taken
      modifies tcp`records, tcp`queuedBytes, tcp.ring`cons, tcp.ring`shared, tcp.ring`taken
      ensures Rings() && Heads() && Depicts(w, M.HandOver(w, m, ring))
    {
      hide Time, Bears, Stored, AllStored, Live, Size, Pos, Room;
      if ring.L7? {
        out := out + [(true, l7.Front())];
        l7.Pop();
      } else {
        out := out + [(false, if |tcp.records| > 0 then tcp.records[0].rec else tcp.ring.Front())];
        tcp.Pop();
      }
      pc := M.Fill(false);
    }

    /** What the consumer does with the result of a head() call. */
    method Resolve(h: M.HeadState, ghost w: M.World, ghost m: M.Merger)
      requires Rings() && Heads() && Depicts(w, m)
      requires h.HeadReady? ==>
        if pc.Fill? then tcp.ring.AtHead() else if M.Looking(pc).L7? then l7.AtHead() else tcp.AtHead()
      modifies this`pc, this`out, l7`cons, l7`shared, l7`taken
      modifies tcp`records, tcp`queuedBytes, tcp.ring`cons, tcp.ring`shared, tcp.ring`taken
      ensures Rings() && Heads() && Depicts(w, M.Resolve(w, m, h))
    {
      hide Time, Bears, Stored, AllStored, Live, Size, Pos, Room;
      match pc
      case Fill(_) =>
        if h.HeadReady? { TakeOut(w, m); } else { pc := M.FirstL7(false); }
      case FirstL7(_) => pc := M.FirstConn(h, false);
      case FirstConn(a, _) =>
        if a.HeadBusy? || h.HeadBusy? {
          pc := M.Fill(false);
        } else if a.HeadReady? && h.HeadReady? {
          HandOver(M.Choose(a, h), w, m);
        } else if a.HeadReady? {
          pc := M.SecondConn(a.ts, false);
        } else if h.HeadReady? {
          pc := M.SecondL7(h.ts, false);
        } else {
          pc := M.Fill(false);
        }
      case SecondConn(t, _) =>
        if h.HeadBusy? { pc := M.Fill(false); } else { HandOver(M.Choose(M.HeadReady(t), h), w, m); }
      case SecondL7(t, _) =>
        if h.HeadBusy? { pc := M.Fill(false); } else { HandOver(M.Choose(h, M.HeadReady(t)), w, m); }
    }

    /** fill: the head of the ring goes to the end of the queue. */
    method TakeOut(ghost w: M.World, ghost m: M.Merger)
      requires Rings() && Depicts(w, m) && pc.Fill? && tcp.ring.AtHead()
      modifies this`pc, tcp`records, tcp`queuedBytes, tcp.ring`cons, tcp.ring`shared, tcp.ring`taken
      ensures Rings() && Heads() && tcp.ring.taken <= |tcp.ring.slots|
      ensures Depicts(w, M.Resolve(w, m, M.HeadReady(w.conn[m.connCons].ts)))
    {
      hide Time, Bears, Stored, AllStored, Live, Size, Pos, Room;
      var rec := tcp.ring.Front();
      tcp.ring.Pop();
      SizeSnoc(tcp.records, Queued(rec, Time(rec, tcp.ring.tsOffset)));
      tcp.records := tcp.records + [Queued(rec, Time(rec, tcp.ring.tsOffset))];
      tcp.queuedBytes := tcp.queuedBytes + |rec|;
      pc := M.Fill(false);
    }

    /** The load of a header, at the end of a head() call or before the next record. */
    method Examine(ghost w: M.World, ghost m: M.Merger)
      requires Rings() && Heads() && Depicts(w, m) && M.WellFormed(w, m) && pc.loaded
      requires !(pc.Fill? && tcp.queuedBytes >= tcp.maxBytes) && (pc.Fill? || M.Looking(pc).L7? || tcp.records == [])
      modifies this`pc, this`out, l7`cons, l7`shared, l7`taken, l7`headLen
      modifies tcp`records, tcp`queuedBytes, tcp.ring`cons, tcp.ring`shared, tcp.ring`taken, tcp.ring`headLen
      ensures Rings() && Heads() && Depicts(w, M.Consume(w, m))
    {
      hide Time, Bears, Stored, AllStored, Live, Size, Pos, Room;
      var ring := M.Looking(pc);
      var slot := At(ring).LoadHeader();
      match slot
      case Busy => Resolve(M.HeadBusy, w, m);
      case Committed(rec) =>
        TimeIsRead(rec, At(ring).tsOffset, M.Recs(w, ring)[M.Cons(m, ring)].ts);
        Resolve(M.HeadReady(Time(rec, At(ring).tsOffset)), w, m);
      case Discarded =>
        At(ring).Pop();
        pc := M.WithLoaded(pc, false);
    }

    /** The loop of run, from one load to the next. */
    method Advance(ghost w: M.World, ghost m: M.Merger)
      requires Rings() && Heads() && Depicts(w, m) && M.WellFormed(w, m)
      modifies this`pc, this`out, l7`cons, l7`shared, l7`taken, l7`headLen
      modifies tcp`records, tcp`queuedBytes, tcp.ring`cons, tcp.ring`shared, tcp.ring`taken, tcp.ring`headLen
      ensures Rings() && Heads() && Depicts(w, M.Consume(w, m))
    {
      hide Time, Bears, Stored, AllStored, Live, Size, Pos, Room;
      var ring := M.Looking(pc);
      if pc.Fill? && tcp.queuedBytes >= tcp.maxBytes {
        pc := M.FirstL7(false);
      } else if !pc.Fill? && ring.Conn? && |tcp.records| > 0 {
        TimeIsRead(tcp.records[0].rec, tcp.ring.tsOffset, w.conn[m.queue[0]].ts);
        Resolve(M.HeadReady(tcp.records[0].ts), w, m);
      } else if pc.loaded {
        Examine(w, m);
      } else {
        var some := At(ring).LoadPosition();
        if some { pc := M.WithLoaded(pc, true); } else { Resolve(M.HeadEmpty, w, m); }
      }
    }

    /** One step of the consumer. */
    method Step()
      requires Valid()
      modifies this, l7`cons, l7`shared, l7`taken, l7`headLen
      modifies tcp`records, tcp`queuedBytes, tcp.ring`cons, tcp.ring`shared, tcp.ring`taken, tcp.ring`headLen
      ensures Valid() && states == old(states + [M.ByConsumer(Last())])
    {
      hide Stored, AllStored, Live, Size, Pos, Room, M.IsRun, M.Consume, RecsAre, QueueIs, LogIs;
      ghost var s := Last();
      Advance(s.w, s.m);
      M.NextRun(states, M.ByConsumer(s));
      states := states + [M.ByConsumer(s)];
      M.LastKeepsInv(states, Last());
      M.ReadyToConsume(Last().w, Last().m);
    }

    // The producers

    /** The clock moves on, or a producer notes the time or gives up. */
    ghost method Elsewhere(step: M.Step)
      requires Valid() && M.Enabled(Last().w, step) && (step.Tick? || step.DoStamp? || step.Drop?)
      modifies this`states
      ensures Valid() && states == old(states + [M.ByProducer(Last(), step)])
    {
      hide Stored, AllStored, Live, Size, Pos, Room, M.IsRun, RecsAre, QueueIs, LogIs;
      Record(step);
    }

    /** What a producer did is a step of the run. */
    ghost method Record(step: M.Step)
      requires Rings() && Heads() && |states| > 0 && M.IsRun(states) && M.Enabled(Last().w, step)
      requires Depicts(M.Produce(Last().w, step), Last().m)
      modifies this`states
      ensures Valid() && states == old(states + [M.ByProducer(Last(), step)])
    {
      hide Stored, AllStored, Live, Size, Pos, Room, M.IsRun, M.Produce, RecsAre, QueueIs, LogIs;
      ghost var t := M.ByProducer(Last(), step);
      assert M.ProducerStep(Last(), t);
      M.NextRun(states, t);
      states := states + [t];
      M.LastKeepsInv(states, Last());
      M.ReadyToConsume(Last().w, Last().m);
    }

    /** A producer that noted the time reserves room, or there is none. */
    method Reserve(p: nat, ring: M.Ring, len: nat) returns (ok: bool)
      requires Valid() && p in Last().w.stamped && len < DISCARD_BIT
      modifies this`states, At(ring)`prod, At(ring)`lens, At(ring)`slots, At(ring).data
      ensures Valid() && states == old(states + [M.ByProducer(Last(), if ok then M.Reserve(p, ring, len) else M.Drop(p))])
    {
      hide Time, Bears, Stored, AllStored, Live, Size, Pos, Room, M.IsRun, QueueIs, LogIs;
      ghost var a, b := l7.slots, tcp.ring.slots;
      ok := At(ring).Reserve(len);
      QueueStays(Last().m.queue, tcp.records, b, tcp.ring.slots);
      LogStays(Last().m.log, out, a, b, l7.slots, tcp.ring.slots);
      Record(if ok then M.Reserve(p, ring, len) else M.Drop(p));
    }

    /** A producer writes its record, with the time it noted, and commits it. */
    method Commit(ring: M.Ring, at: nat, rec: bytes, ghost i: nat)
      requires Valid() && i < |At(ring).slots| && At(ring).slots[i].Busy? && |rec| == At(ring).lens[i] && at == Pos(At(ring).lens, i)
      requires |M.Recs(Last().w, ring)| == |At(ring).slots| && Bears(rec, At(ring).tsOffset, M.Recs(Last().w, ring)[i].ts)
      modifies this`states, At(ring)`slots, At(ring).data
      ensures Valid() && states == old(states + [M.ByProducer(Last(), M.Commit(ring, i))])
    {
      hide Time, Bears, Stored, AllStored, Live, Size, Pos, Room, M.IsRun, QueueIs, LogIs;
      ghost var a, b := l7.slots, tcp.ring.slots;
      At(ring).Commit(at, rec, i);
      QueueStays(Last().m.queue, tcp.records, b, tcp.ring.slots);
      LogStays(Last().m.log, out, a, b, l7.slots, tcp.ring.slots);
      Record(M.Commit(ring, i));
    }

    method Discard(ring: M.Ring, at: nat, len: nat, ghost i: nat)
      requires Valid() && i < |At(ring).slots| && At(ring).slots[i].Busy? && len == At(ring).lens[i] && at == Pos(At(ring).lens, i)
      modifies this`states, At(ring)`slots, At(ring).data
      ensures Valid() && states == old(states + [M.ByProducer(Last(), M.Discard(ring, i))])
    {
      hide Time, Bears, Stored, AllStored, Live, Size, Pos, Room, M.IsRun, QueueIs, LogIs;
      ghost var a, b := l7.slots, tcp.ring.slots;
      At(ring).Discard(at, len, i);
      QueueStays(Last().m.queue, tcp.records, b, tcp.ring.slots);
      LogStays(Last().m.log, out, a, b, l7.slots, tcp.ring.slots);
      Record(M.Discard(ring, i));
    }

    // What was handed over

    /** In every run: what was handed over from a ring, with what is queued, is every record committed
        below the consumer position, once, in reservation order, byte for byte. */
    lemma EveryByteInOrder()
      requires Valid()
      ensures From(true, out) == Live(l7.slots[..l7.taken])
      ensures From(false, out) + AsSlots(tcp.records) == Live(tcp.ring.slots[..tcp.ring.taken])
    {
      ghost var s := Last();
      M.LastKeepsInv(states, s);
      M.ReadyToConsume(s.w, s.m);
      hide Time, Bears, Stored, AllStored, Live, From, Pos, Room, M.IsRun, M.CausalOrder, M.RecordsOk, M.PcOk, M.Handed, M.CommittedUpTo,
        RecsAre, LogIs, QueueIs;
      LiveIsCommitted(s.w.l7, l7.slots, l7.lens, l7.tsOffset, l7.taken);
      LiveIsCommitted(s.w.conn, tcp.ring.slots, tcp.ring.lens, tcp.ring.tsOffset, tcp.ring.taken);
      FromIsHanded(s.m.log, out, l7.slots, tcp.ring.slots, M.L7);
      FromIsHanded(s.m.log, out, l7.slots, tcp.ring.slots, M.Conn);
      QueueIsThere(s.m.queue, tcp.records, tcp.ring.slots);
      SlotsAtConcat(tcp.ring.slots, M.Handed(s.m.log, M.Conn), s.m.queue);
      assert M.Handed(s.m.log, M.L7) + [] == M.Handed(s.m.log, M.L7);
    }

    /** In every run: a record committed before another was even stamped is handed over before it, if the
        clock tells the two apart or they are of one ring or the first is of the connections ring. */
    lemma CausesComeFirst(a: M.Id, k: nat) returns (j: nat)
      requires Valid() && k < |out|
      requires |Last().m.log| == |out| && M.Exists(Last().w, a) && M.Exists(Last().w, Last().m.log[k])
      requires M.HappensBefore(Last().w, a, Last().m.log[k])
      ensures j < k && Handing(a, out[j], l7.slots, tcp.ring.slots)
    {
      hide Time, Bears, Stored, AllStored, Live, Pos, Room, M.IsRun, RecsAre, QueueIs, M.HappensBefore;
      M.RunsRespectHappensBefore(states, Last(), k, a);
      j :| 0 <= j < k && Last().m.log[j] == a;
      assert Handing(Last().m.log[j], out[j], l7.slots, tcp.ring.slots);
    }

    /** In every run in which records are reserved in the order of their times: they are handed over in
        the order of the times in them. */
    lemma TimesComeInOrder()
      requires Valid() && O.TimesFollow(Last().w)
      ensures forall i, j, n, k {:trigger BearsOut(i, n), BearsOut(j, k)} ::
        0 <= i < j < |out| && BearsOut(i, n) && BearsOut(j, k) ==> n <= k
    {
      hide Time, Bears, Stored, AllStored, Live, Pos, Room, M.IsRun, QueueIs, O.TimesFollow;
      ghost var s := Last();
      O.TimesAreInOrder(states, s);
      forall i, n | 0 <= i < |out| && BearsOut(i, n)
        ensures M.Exists(s.w, s.m.log[i]) && O.Time(s.w, s.m.log[i]) == n
      {
        assert Handing(s.m.log[i], out[i], l7.slots, tcp.ring.slots);
        var offset := if out[i].0 then l7.tsOffset else tcp.ring.tsOffset;
        TimeIsRead(out[i].1, offset, n);
        TimeIsRead(out[i].1, offset, O.Time(s.w, s.m.log[i]));
      }
    }

    /** The i-th record handed over bears the time n. */
    ghost predicate BearsOut(i: int, n: nat)
      reads this
    {
      0 <= i < |out| && Bears(out[i].1, if out[i].0 then l7.tsOffset else tcp.ring.tsOffset, n)
    }
  }
}
