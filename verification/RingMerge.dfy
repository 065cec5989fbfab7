/**
The merge of the two eBPF ring buffers (ebpftracer/ringmerge.go) as a transition system.

Any number of producers stamp a record with the clock, reserve room in a ring and then commit or
discard it. One consumer runs the loop of ringMerger.run: queuedRing.fill, then nextRecord with its
two or three head reads, then the hand-over. Every load of a producer position and every load of a
record header is a step of its own, so producers can act between any two of them.
*/
module RingMerge {

  datatype Ring = L7 | Conn

  datatype Status = Busy | Discarded | Committed(clock: nat, event: nat)

  /** A record in a ring. `ts` is the time it is stamped with; `stampedAt`, `reservedAt` and the
      commit's `event` number the steps of the run, `reserveClock` and the commit's `clock` are the
      time at those steps. */
  datatype Record = Record(ts: nat, stampedAt: nat, reservedAt: nat, reserveClock: nat, size: nat, status: Status)

  datatype Stamp = Stamp(ts: nat, at: nat)

  /** The producers' side: the clock, the stamps that are not in a ring yet, and both rings in
      reservation order, including what the consumer has taken out of them. */
  datatype World = World(events: nat, clock: nat, stamped: map<nat, Stamp>, l7: seq<Record>, conn: seq<Record>)

  /** What a head() call returns, besides the record itself. */
  datatype HeadState = HeadEmpty | HeadBusy | HeadReady(ts: nat)

  /** Where the consumer is. `loaded` holds between the load of the producer position, which showed
      a record, and the load of that record's header. */
  datatype Pc =
    | Fill(loaded: bool)
    | FirstL7(loaded: bool)
    | FirstConn(l7: HeadState, loaded: bool)
    | SecondConn(l7Time: nat, loaded: bool)
    | SecondL7(connTime: nat, loaded: bool)

  type Id = (Ring, nat)

  /** The consumer's side. `l7Cons` and `connCons` count the records taken out of the rings, `queue`
      is queuedRing.records as indices into the connections ring, `log` what was handed over. */
  datatype Merger = Merger(
    l7Cons: nat, connCons: nat, queue: seq<nat>, queuedBytes: int, maxBytes: nat, pc: Pc, log: seq<Id>)

  datatype State = State(w: World, m: Merger)

  function Init(maxBytes: nat): State {
    State(World(0, 0, map[], [], []), Merger(0, 0, [], 0, maxBytes, Fill(false), []))
  }

  function Recs(w: World, ring: Ring): seq<Record> {
    if ring.L7? then w.l7 else w.conn
  }

  ghost predicate Exists(w: World, a: Id) {
    a.1 < |Recs(w, a.0)|
  }

  function Rec(w: World, a: Id): Record
    requires Exists(w, a)
  {
    Recs(w, a.0)[a.1]
  }

  // ---------------------------------------------------------------------------
  // The consumer
  // ---------------------------------------------------------------------------

  /** The ring the consumer is looking at. */
  function Looking(pc: Pc): Ring {
    if pc.FirstL7? || pc.SecondL7? then L7 else Conn
  }

  function Cons(m: Merger, ring: Ring): nat {
    if ring.L7? then m.l7Cons else m.connCons
  }

  function Advance(m: Merger, ring: Ring): Merger {
    if ring.L7? then m.(l7Cons := m.l7Cons + 1) else m.(connCons := m.connCons + 1)
  }

  /** The record the merge would take next from a ring: the queue goes before the ring. */
  function HeadIndex(m: Merger, ring: Ring): nat {
    if ring.Conn? && m.queue != [] then m.queue[0] else Cons(m, ring)
  }

  /** run: pop the source nextRecord chose and hand its record over. */
  function HandOver(w: World, m: Merger, ring: Ring): Merger
    requires m.queue != [] ==> m.queue[0] < |w.conn|
  {
    var popped :=
      if ring.Conn? && m.queue != [] then
        m.(queue := m.queue[1..], queuedBytes := m.queuedBytes - w.conn[m.queue[0]].size)
      else Advance(m, ring);
    popped.(log := m.log + [(ring, HeadIndex(m, ring))], pc := Fill(false))
  }

  /** The final choice of nextRecord: neither head is busy and at least one is ready. */
  function Choose(l7: HeadState, conn: HeadState): Ring {
    if l7.HeadReady? && (!conn.HeadReady? || l7.ts < conn.ts) then L7 else Conn
  }

  /** What the consumer does with the result of the head() call it is in. */
  function Resolve(w: World, m: Merger, h: HeadState): Merger
    requires m.queue != [] ==> m.queue[0] < |w.conn|
    requires m.pc.Fill? && h.HeadReady? ==> m.connCons < |w.conn|
  {
    match m.pc
    case Fill(_) =>
      if h.HeadReady? then
        m.(queue := m.queue + [m.connCons], queuedBytes := m.queuedBytes + w.conn[m.connCons].size,
           connCons := m.connCons + 1, pc := Fill(false))
      else m.(pc := FirstL7(false))
    case FirstL7(_) => m.(pc := FirstConn(h, false))
    case FirstConn(l7, _) =>
      if l7.HeadBusy? || h.HeadBusy? then m.(pc := Fill(false))
      else if l7.HeadReady? && h.HeadReady? then HandOver(w, m, Choose(l7, h))
      else if l7.HeadReady? then m.(pc := SecondConn(l7.ts, false))
      else if h.HeadReady? then m.(pc := SecondL7(h.ts, false))
      else m.(pc := Fill(false))
    case SecondConn(l7Time, _) =>
      if h.HeadBusy? then m.(pc := Fill(false)) else HandOver(w, m, Choose(HeadReady(l7Time), h))
    case SecondL7(connTime, _) =>
      if h.HeadBusy? then m.(pc := Fill(false)) else HandOver(w, m, Choose(h, HeadReady(connTime)))
  }

  function WithLoaded(pc: Pc, b: bool): Pc {
    match pc
    case Fill(_) => Fill(b)
    case FirstL7(_) => FirstL7(b)
    case FirstConn(l7, _) => FirstConn(l7, b)
    case SecondConn(t, _) => SecondConn(t, b)
    case SecondL7(t, _) => SecondL7(t, b)
  }

  /** One atomic step of the consumer: a load of a producer position, or of a record header. */
  function Consume(w: World, m: Merger): Merger
    requires WellFormed(w, m)
  {
    var ring := Looking(m.pc);
    var k := Cons(m, ring);
    if m.pc.Fill? && m.queuedBytes >= m.maxBytes then
      m.(pc := FirstL7(false))
    else if !m.pc.Fill? && ring.Conn? && m.queue != [] then
      Resolve(w, m, HeadReady(w.conn[m.queue[0]].ts))
    else if !m.pc.loaded then
      if k < |Recs(w, ring)| then m.(pc := WithLoaded(m.pc, true)) else Resolve(w, m, HeadEmpty)
    else
      match Recs(w, ring)[k].status
      case Busy => Resolve(w, m, HeadBusy)
      case Discarded => Advance(m, ring).(pc := WithLoaded(m.pc, false))
      case Committed(_, _) => Resolve(w, m, HeadReady(Recs(w, ring)[k].ts))
  }

  /** What Consume needs to be defined. */
  ghost predicate WellFormed(w: World, m: Merger) {
    && (m.pc.loaded ==> Cons(m, Looking(m.pc)) < |Recs(w, Looking(m.pc))|)
    && (m.queue != [] ==> m.queue[0] < |w.conn|)
  }

  // ---------------------------------------------------------------------------
  // The producers and the runs
  // ---------------------------------------------------------------------------

  datatype Step =
    | Tick(d: nat)
    | DoStamp(p: nat)
    | Drop(p: nat)
    | Reserve(p: nat, ring: Ring, size: nat)
    | Commit(ring: Ring, i: nat)
    | Discard(ring: Ring, i: nat)

  ghost predicate Enabled(w: World, step: Step) {
    match step
    case Tick(_) => true
    case DoStamp(p) => p !in w.stamped
    case Drop(p) => p in w.stamped
    case Reserve(p, _, _) => p in w.stamped
    case Commit(ring, i) => i < |Recs(w, ring)| && Recs(w, ring)[i].status.Busy?
    case Discard(ring, i) => i < |Recs(w, ring)| && Recs(w, ring)[i].status.Busy?
  }

  function WithRecs(w: World, ring: Ring, recs: seq<Record>): World {
    if ring.L7? then w.(l7 := recs) else w.(conn := recs)
  }

  /** A step of a producer. Drop is a record the full ring has no room for. */
  function Produce(w: World, step: Step): World
    requires Enabled(w, step)
  {
    var t := w.(events := w.events + 1);
    match step
    case Tick(d) => t.(clock := w.clock + d)
    case DoStamp(p) => t.(stamped := w.stamped[p := Stamp(w.clock, w.events)])
    case Drop(p) => t.(stamped := w.stamped - {p})
    case Reserve(p, ring, size) =>
      var r := Record(w.stamped[p].ts, w.stamped[p].at, w.events, w.clock, size, Busy);
      WithRecs(t, ring, Recs(w, ring) + [r]).(stamped := w.stamped - {p})
    case Commit(ring, i) =>
      WithRecs(t, ring, Recs(w, ring)[i := Recs(w, ring)[i].(status := Committed(w.clock, w.events))])
    case Discard(ring, i) =>
      WithRecs(t, ring, Recs(w, ring)[i := Recs(w, ring)[i].(status := Discarded)])
  }

  ghost predicate ProducerStep(s: State, t: State) {
    t.m == s.m && exists step :: Enabled(s.w, step) && t.w == Produce(s.w, step)
  }

  ghost predicate ConsumerStep(s: State, t: State) {
    WellFormed(s.w, s.m) && t == State(s.w.(events := s.w.events + 1), Consume(s.w, s.m))
  }

  /** `states` is a run: it starts empty and every state follows from the one before by a step. */
  ghost predicate IsRun(states: seq<State>) {
    && |states| > 0
    && (exists maxBytes: nat :: states[0] == Init(maxBytes))
    && forall k :: 0 <= k < |states| - 1 ==> Next(states[k], states[k + 1])
  }

  ghost predicate Next(s: State, t: State) {
    ProducerStep(s, t) || ConsumerStep(s, t)
  }

  // ---------------------------------------------------------------------------
  // What is promised
  // ---------------------------------------------------------------------------

  /** `a` was committed before `b` was stamped, and the clock tells: it moved on in between, or `a`
      wins ties because it is a connection record, or both are in one ring. */
  ghost predicate HappensBefore(w: World, a: Id, b: Id)
    requires Exists(w, a) && Exists(w, b)
  {
    && Rec(w, a).status.Committed?
    && Rec(w, a).status.event < Rec(w, b).stampedAt
    && (a.0 == b.0 || a.0.Conn? || Rec(w, a).status.clock < Rec(w, b).ts)
  }

  /** The indices below n of the committed records, in reservation order. */
  function CommittedUpTo(recs: seq<Record>, n: nat): seq<nat>
    requires n <= |recs|
  {
    if n == 0 then []
    else CommittedUpTo(recs, n - 1) + (if recs[n - 1].status.Committed? then [n - 1] else [])
  }

  /** The indices handed over from one ring, in order. */
  function Handed(log: seq<Id>, ring: Ring): seq<nat> {
    if log == [] then []
    else
      var last := log[|log| - 1];
      Handed(log[..|log| - 1], ring) + (if last.0 == ring then [last.1] else [])
  }

  function SizeOf(recs: seq<Record>, queue: seq<nat>): nat
    requires forall k :: 0 <= k < |queue| ==> queue[k] < |recs|
  {
    if queue == [] then 0 else recs[queue[0]].size + SizeOf(recs, queue[1..])
  }

  // ---------------------------------------------------------------------------
  // The invariant
  // ---------------------------------------------------------------------------

  ghost predicate RecordOk(w: World, r: Record) {
    && r.ts <= r.reserveClock <= w.clock
    && r.stampedAt < r.reservedAt < w.events
    && (r.status.Committed? ==> r.reserveClock <= r.status.clock <= w.clock && r.reservedAt < r.status.event < w.events)
  }

  ghost predicate RingOk(w: World, recs: seq<Record>) {
    && (forall i {:trigger RecordOk(w, recs[i])} :: 0 <= i < |recs| ==> RecordOk(w, recs[i]))
    && (forall i, j :: 0 <= i < j < |recs| ==> Precedes(recs[i], recs[j]))
  }

  ghost predicate Precedes(r: Record, q: Record) {
    r.reservedAt < q.reservedAt && r.reserveClock <= q.reserveClock
  }

  ghost predicate CommitAgrees(r: Record, at: nat, ts: nat) {
    r.status.Committed? && r.status.event < at ==> r.status.clock <= ts
  }

  /** A commit that precedes a stamp is not later by the clock either. */
  ghost predicate ClockAgrees(w: World) {
    && (forall a: Id, b: Id {:trigger CommitAgrees(Rec(w, a), Rec(w, b).stampedAt, Rec(w, b).ts)} ::
          Exists(w, a) && Exists(w, b) ==> CommitAgrees(Rec(w, a), Rec(w, b).stampedAt, Rec(w, b).ts))
    && (forall a: Id, p {:trigger CommitAgrees(Rec(w, a), w.stamped[p].at, w.stamped[p].ts)} ::
          Exists(w, a) && p in w.stamped ==> CommitAgrees(Rec(w, a), w.stamped[p].at, w.stamped[p].ts))
    && (forall p :: p in w.stamped ==> w.stamped[p].at < w.events && w.stamped[p].ts <= w.clock)
  }

  ghost predicate RecordsOk(w: World) {
    RingOk(w, w.l7) && RingOk(w, w.conn) && ClockAgrees(w)
  }

  ghost predicate HeadIs(recs: seq<Record>, k: nat, ts: nat) {
    k < |recs| && recs[k].status.Committed? && recs[k].ts == ts
  }

  ghost predicate PcOk(w: World, m: Merger) {
    && (m.pc.loaded ==> Cons(m, Looking(m.pc)) < |Recs(w, Looking(m.pc))|)
    && (m.pc.FirstConn? && m.pc.l7.HeadReady? ==> HeadIs(w.l7, m.l7Cons, m.pc.l7.ts))
    && (m.pc.SecondConn? ==> HeadIs(w.l7, m.l7Cons, m.pc.l7Time))
    && (m.pc.SecondL7? ==> HeadIs(w.conn, HeadIndex(m, Conn), m.pc.connTime))
  }

  ghost predicate QueueOk(w: World, m: Merger) {
    && (forall k :: 0 <= k < |m.queue| ==> m.queue[k] < m.connCons <= |w.conn|)
    && m.queuedBytes == SizeOf(w.conn, m.queue)
  }

  ghost predicate NoneBusy(recs: seq<Record>, n: nat)
    requires n <= |recs|
  {
    forall i :: 0 <= i < n ==> !recs[i].status.Busy?
  }

  /** What was handed over from a ring, followed by what is queued, is the committed records below
      the consumer position, in reservation order. */
  ghost predicate InOrder(recs: seq<Record>, cons: nat, handed: seq<nat>, queue: seq<nat>) {
    cons <= |recs| && NoneBusy(recs, cons) && handed + queue == CommittedUpTo(recs, cons)
  }

  ghost predicate HandedInOrder(w: World, m: Merger) {
    && InOrder(w.l7, m.l7Cons, Handed(m.log, L7), [])
    && InOrder(w.conn, m.connCons, Handed(m.log, Conn), m.queue)
  }

  ghost predicate PredecessorsIn(w: World, b: Id, done: seq<Id>) {
    Exists(w, b) && forall a: Id {:trigger HappensBefore(w, a, b)} :: Exists(w, a) && HappensBefore(w, a, b) ==> a in done
  }

  /** No record was handed over before one that happened before it. */
  ghost predicate CausalOrder(w: World, log: seq<Id>) {
    forall p {:trigger PredecessorsIn(w, log[p], log[..p])} :: 0 <= p < |log| ==> PredecessorsIn(w, log[p], log[..p])
  }

  ghost predicate MergerOk(w: World, m: Merger) {
    QueueOk(w, m) && HandedInOrder(w, m) && CausalOrder(w, m.log)
  }

  ghost predicate Inv(s: State) {
    RecordsOk(s.w) && MergerOk(s.w, s.m) && PcOk(s.w, s.m)
  }

  // ---------------------------------------------------------------------------
  // The producers keep it
  // ---------------------------------------------------------------------------

  /** What a step does to the world: records are added, busy ones settle, stamps come and go. */
  ghost predicate Evolves(w: World, t: World) {
    && t.events == w.events + 1 && w.clock <= t.clock
    && RingEvolves(w, w.l7, t.l7) && RingEvolves(w, w.conn, t.conn)
    && forall p :: p in t.stamped ==> (p in w.stamped && t.stamped[p] == w.stamped[p]) || t.stamped[p] == Stamp(w.clock, w.events)
  }

  ghost predicate RingEvolves(w: World, recs: seq<Record>, recs': seq<Record>) {
    && |recs| <= |recs'| <= |recs| + 1
    && (forall i :: 0 <= i < |recs| ==> Settles(w, recs[i], recs'[i]))
    && (forall i :: |recs| <= i < |recs'| ==> IsNew(w, recs'[i]))
  }

  ghost predicate Settles(w: World, r: Record, q: Record) {
    && q.(status := r.status) == r
    && (r == q || (r.status.Busy? && (q.status.Committed? ==> q.status == Committed(w.clock, w.events))))
  }

  ghost predicate IsNew(w: World, r: Record) {
    && r.status.Busy? && r.reservedAt == w.events && r.reserveClock == w.clock
    && exists p :: p in w.stamped && w.stamped[p] == Stamp(r.ts, r.stampedAt)
  }

  lemma ProducersEvolve(w: World, step: Step)
    requires Enabled(w, step)
    ensures Evolves(w, Produce(w, step))
  {
  }

  lemma RingOkEvolves(w: World, t: World, recs: seq<Record>, recs': seq<Record>)
    requires RingOk(w, recs) && RingEvolves(w, recs, recs')
    requires t.events == w.events + 1 && w.clock <= t.clock
    requires forall p :: p in w.stamped ==> w.stamped[p].at < w.events && w.stamped[p].ts <= w.clock
    ensures RingOk(t, recs')
  {
    forall i | 0 <= i < |recs'|
      ensures RecordOk(t, recs'[i])
    {
      if i < |recs| {
        assert RecordOk(w, recs[i]) && Settles(w, recs[i], recs'[i]);
      } else {
        assert IsNew(w, recs'[i]);
      }
    }
    forall i, j | 0 <= i < j < |recs'|
      ensures Precedes(recs'[i], recs'[j])
    {
      assert RecordOk(w, recs[i]) && Settles(w, recs[i], recs'[i]);
      if j < |recs| {
        assert Precedes(recs[i], recs[j]) && Settles(w, recs[j], recs'[j]);
      } else {
        assert IsNew(w, recs'[j]);
      }
    }
  }

  /** The evolution of one record, whichever ring it is in. */
  lemma RecEvolves(w: World, t: World, a: Id)
    requires Evolves(w, t) && Exists(t, a)
    ensures Exists(w, a) ==> Settles(w, Rec(w, a), Rec(t, a))
    ensures !Exists(w, a) ==> IsNew(w, Rec(t, a))
  {
  }

  lemma CommitAgreesEvolves(w: World, t: World, a: Id, at: nat, ts: nat)
    requires Evolves(w, t) && Exists(t, a) && at <= w.events
    requires Exists(w, a) ==> CommitAgrees(Rec(w, a), at, ts)
    ensures CommitAgrees(Rec(t, a), at, ts)
  {
    RecEvolves(w, t, a);
  }

  lemma ClockAgreesEvolves(w: World, t: World)
    requires RecordsOk(w) && Evolves(w, t)
    ensures ClockAgrees(t)
  {
    forall a: Id, b: Id | Exists(t, a) && Exists(t, b)
      ensures CommitAgrees(Rec(t, a), Rec(t, b).stampedAt, Rec(t, b).ts)
    {
      RecEvolves(w, t, b);
      if Exists(w, b) { assert RecordOk(w, Recs(w, b.0)[b.1]); }
      CommitAgreesEvolves(w, t, a, Rec(t, b).stampedAt, Rec(t, b).ts);
    }
    forall a: Id, p | Exists(t, a) && p in t.stamped
      ensures CommitAgrees(Rec(t, a), t.stamped[p].at, t.stamped[p].ts)
    {
      if Exists(w, a) { assert RecordOk(w, Recs(w, a.0)[a.1]); }
      CommitAgreesEvolves(w, t, a, t.stamped[p].at, t.stamped[p].ts);
    }
  }

  lemma RecordsOkEvolves(w: World, t: World)
    requires RecordsOk(w) && Evolves(w, t)
    ensures RecordsOk(t)
  {
    RingOkEvolves(w, t, w.l7, t.l7);
    RingOkEvolves(w, t, w.conn, t.conn);
    ClockAgreesEvolves(w, t);
  }

  lemma CommittedUpToStable(recs: seq<Record>, recs': seq<Record>, n: nat)
    requires n <= |recs| && n <= |recs'| && forall i :: 0 <= i < n ==> recs[i] == recs'[i]
    ensures CommittedUpTo(recs, n) == CommittedUpTo(recs', n)
  {
  }

  lemma SizeOfStable(recs: seq<Record>, recs': seq<Record>, queue: seq<nat>)
    requires forall k :: 0 <= k < |queue| ==> queue[k] < |recs| && queue[k] < |recs'|
    requires forall k :: 0 <= k < |queue| ==> recs[queue[k]].size == recs'[queue[k]].size
    ensures SizeOf(recs, queue) == SizeOf(recs', queue)
  {
    if queue != [] {
      assert forall k :: 0 <= k < |queue[1..]| ==> queue[1..][k] == queue[k + 1];
      SizeOfStable(recs, recs', queue[1..]);
    }
  }

  /** Records that are not busy stay as they are. */
  lemma InOrderEvolves(w: World, recs: seq<Record>, recs': seq<Record>, cons: nat, handed: seq<nat>, queue: seq<nat>)
    requires InOrder(recs, cons, handed, queue) && RingEvolves(w, recs, recs')
    ensures InOrder(recs', cons, handed, queue)
    ensures forall i :: 0 <= i < cons ==> recs[i] == recs'[i]
  {
    assert forall i :: 0 <= i < cons ==> Settles(w, recs[i], recs'[i]);
    CommittedUpToStable(recs, recs', cons);
  }

  lemma HeadIsEvolves(w: World, recs: seq<Record>, recs': seq<Record>, k: nat, ts: nat)
    requires HeadIs(recs, k, ts) && RingEvolves(w, recs, recs')
    ensures HeadIs(recs', k, ts)
  {
    assert Settles(w, recs[k], recs'[k]);
  }

  lemma PcOkEvolves(w: World, t: World, m: Merger)
    requires PcOk(w, m) && Evolves(w, t)
    ensures PcOk(t, m)
  {
    match m.pc
    case Fill(_) =>
    case FirstL7(_) =>
    case FirstConn(l7, _) => if l7.HeadReady? { HeadIsEvolves(w, w.l7, t.l7, m.l7Cons, l7.ts); }
    case SecondConn(l7Time, _) => HeadIsEvolves(w, w.l7, t.l7, m.l7Cons, l7Time);
    case SecondL7(connTime, _) => HeadIsEvolves(w, w.conn, t.conn, HeadIndex(m, Conn), connTime);
  }

  lemma PredecessorsEvolve(w: World, t: World, b: Id, done: seq<Id>)
    requires RecordsOk(w) && Evolves(w, t) && PredecessorsIn(w, b, done)
    ensures PredecessorsIn(t, b, done)
  {
    assert RecordOk(w, Recs(w, b.0)[b.1]);
    assert Exists(t, b);
    RecEvolves(w, t, b);
    forall a: Id | Exists(t, a) && HappensBefore(t, a, b)
      ensures a in done
    {
      RecEvolves(w, t, a);
      assert HappensBefore(w, a, b);
    }
  }

  lemma MergerOkEvolves(w: World, t: World, m: Merger)
    requires RecordsOk(w) && Evolves(w, t) && MergerOk(w, m)
    ensures MergerOk(t, m)
  {
    InOrderEvolves(w, w.l7, t.l7, m.l7Cons, Handed(m.log, L7), []);
    InOrderEvolves(w, w.conn, t.conn, m.connCons, Handed(m.log, Conn), m.queue);
    SizeOfStable(w.conn, t.conn, m.queue);
    forall p | 0 <= p < |m.log|
      ensures PredecessorsIn(t, m.log[p], m.log[..p])
    {
      PredecessorsEvolve(w, t, m.log[p], m.log[..p]);
    }
  }

  lemma InvEvolves(w: World, t: World, m: Merger)
    requires Inv(State(w, m)) && Evolves(w, t)
    ensures Inv(State(t, m))
  {
    RecordsOkEvolves(w, t);
    MergerOkEvolves(w, t, m);
    PcOkEvolves(w, t, m);
  }

  // ---------------------------------------------------------------------------
  // The consumer keeps it
  // ---------------------------------------------------------------------------

  lemma {:induction false} HandedIsInLog(log: seq<Id>, ring: Ring, i: nat)
    requires i in Handed(log, ring)
    ensures (ring, i) in log
  {
    var rest := log[..|log| - 1];
    if i in Handed(rest, ring) { HandedIsInLog(rest, ring, i); }
  }

  lemma {:induction false} CommittedIsUpTo(recs: seq<Record>, n: nat, i: nat)
    requires i < n <= |recs| && recs[i].status.Committed?
    ensures i in CommittedUpTo(recs, n)
  {
    if i < n - 1 { CommittedIsUpTo(recs, n - 1, i); }
  }

  lemma {:induction false} CommittedUpToIncreases(recs: seq<Record>, n: nat)
    requires n <= |recs|
    ensures forall i :: i in CommittedUpTo(recs, n) ==> i < n && recs[i].status.Committed?
    ensures forall j, k :: 0 <= j < k < |CommittedUpTo(recs, n)| ==> CommittedUpTo(recs, n)[j] < CommittedUpTo(recs, n)[k]
  {
    if n > 0 {
      CommittedUpToIncreases(recs, n - 1);
      var c := CommittedUpTo(recs, n - 1);
      assert forall k :: 0 <= k < |c| ==> c[k] in c;
    }
  }

  /** A committed record before the head of its ring has been handed over. */
  lemma BeforeHeadIsHanded(recs: seq<Record>, cons: nat, handed: seq<nat>, queue: seq<nat>, i: nat)
    requires InOrder(recs, cons, handed, queue)
    requires i < (if queue != [] then queue[0] else cons) && i < |recs| && recs[i].status.Committed?
    ensures i in handed
  {
    CommittedUpToIncreases(recs, cons);
    var c := CommittedUpTo(recs, cons);
    assert forall k :: 0 <= k < |queue| ==> queue[k] == c[|handed| + k];
    if queue != [] { assert c[|handed|] in c; }
    CommittedIsUpTo(recs, cons, i);
  }

  /** The head of a ring was stamped no later than anything behind it was committed. */
  lemma HeadIsNotLater(w: World, recs: seq<Record>, k: nat, i: nat)
    requires RingOk(w, recs) && k <= i < |recs| && recs[i].status.Committed?
    ensures recs[k].ts <= recs[i].status.clock
  {
    assert RecordOk(w, recs[k]) && RecordOk(w, recs[i]);
    if k < i { assert Precedes(recs[k], recs[i]); }
  }

  /** What nextRecord knows when it chooses `ring`: its head is committed, and the other ring is
      drained or its head is committed too and not to be handed over first. */
  ghost predicate MayHandOver(w: World, m: Merger, ring: Ring) {
    var other := if ring.L7? then Conn else L7;
    var k, j := HeadIndex(m, ring), HeadIndex(m, other);
    && k < |Recs(w, ring)| && Recs(w, ring)[k].status.Committed?
    && (j < |Recs(w, other)| ==>
          && Recs(w, other)[j].status.Committed?
          && if ring.L7? then w.l7[k].ts < w.conn[j].ts else w.conn[k].ts <= w.l7[j].ts)
  }

  /** Then everything that happened before that head is before the head of its own ring. */
  lemma PredecessorIsBeforeHead(w: World, m: Merger, ring: Ring, a: Id)
    requires RecordsOk(w) && MayHandOver(w, m, ring)
    requires Exists(w, a) && HappensBefore(w, a, (ring, HeadIndex(m, ring)))
    ensures a.1 < HeadIndex(m, a.0)
  {
    var b: Id := (ring, HeadIndex(m, ring));
    if a.0 == ring {
      var r, q := Recs(w, ring)[a.1], Recs(w, ring)[b.1];
      assert RecordOk(w, r) && RecordOk(w, q);
      assert r.reservedAt < q.reservedAt;
      assert !Precedes(q, r);
    } else {
      assert CommitAgrees(Rec(w, a), Rec(w, b).stampedAt, Rec(w, b).ts);
      if HeadIndex(m, a.0) <= a.1 { HeadIsNotLater(w, Recs(w, a.0), HeadIndex(m, a.0), a.1); }
    }
  }

  lemma HandOverKeepsCausalOrder(w: World, m: Merger, ring: Ring)
    requires RecordsOk(w) && HandedInOrder(w, m) && CausalOrder(w, m.log) && MayHandOver(w, m, ring)
    ensures CausalOrder(w, m.log + [(ring, HeadIndex(m, ring))])
  {
    var b: Id := (ring, HeadIndex(m, ring));
    var log := m.log + [b];
    forall a: Id | Exists(w, a) && HappensBefore(w, a, b)
      ensures a in m.log
    {
      PredecessorIsBeforeHead(w, m, ring, a);
      if a.0.L7? {
        BeforeHeadIsHanded(w.l7, m.l7Cons, Handed(m.log, L7), [], a.1);
      } else {
        BeforeHeadIsHanded(w.conn, m.connCons, Handed(m.log, Conn), m.queue, a.1);
      }
      HandedIsInLog(m.log, a.0, a.1);
    }
    assert PredecessorsIn(w, b, m.log);
    forall p | 0 <= p < |log|
      ensures PredecessorsIn(w, log[p], log[..p])
    {
      assert log[..p] == m.log[..p];
      if p < |m.log| { assert log[p] == m.log[p]; } else { assert log[..p] == m.log; }
    }
  }

  lemma HandedAppend(log: seq<Id>, ring: Ring, b: Id)
    ensures Handed(log + [b], ring) == Handed(log, ring) + (if b.0 == ring then [b.1] else [])
  {
    assert (log + [b])[..|log|] == log;
  }

  /** The queue gives its first record away. */
  lemma InOrderPop(recs: seq<Record>, cons: nat, handed: seq<nat>, queue: seq<nat>)
    requires InOrder(recs, cons, handed, queue) && queue != []
    ensures InOrder(recs, cons, handed + [queue[0]], queue[1..])
  {
    assert (handed + [queue[0]]) + queue[1..] == handed + queue;
  }

  /** A committed head goes to the end of what was taken out of the ring. */
  lemma InOrderTake(recs: seq<Record>, cons: nat, handed: seq<nat>, queue: seq<nat>)
    requires InOrder(recs, cons, handed, queue) && cons < |recs| && recs[cons].status.Committed?
    ensures InOrder(recs, cons + 1, handed, queue + [cons])
    ensures queue == [] ==> InOrder(recs, cons + 1, handed + [cons], [])
  {
    assert handed + (queue + [cons]) == (handed + queue) + [cons];
    if queue == [] { assert (handed + [cons]) + [] == (handed + queue) + [cons]; }
  }

  lemma HandOverKeepsOrder(w: World, m: Merger, ring: Ring)
    requires HandedInOrder(w, m) && QueueOk(w, m) && MayHandOver(w, m, ring)
    ensures HandedInOrder(w, HandOver(w, m, ring))
  {
    hide InOrder, Handed, SizeOf;
    assert Handed(m.log, L7) + [] == Handed(m.log, L7) && Handed(m.log, Conn) + [] == Handed(m.log, Conn);
    HandedAppend(m.log, L7, (ring, HeadIndex(m, ring)));
    HandedAppend(m.log, Conn, (ring, HeadIndex(m, ring)));
    if ring.L7? {
      InOrderTake(w.l7, m.l7Cons, Handed(m.log, L7), []);
    } else if m.queue != [] {
      InOrderPop(w.conn, m.connCons, Handed(m.log, Conn), m.queue);
    } else {
      InOrderTake(w.conn, m.connCons, Handed(m.log, Conn), m.queue);
    }
  }

  lemma HandOverKeepsOk(w: World, m: Merger, ring: Ring)
    requires RecordsOk(w) && MergerOk(w, m) && MayHandOver(w, m, ring)
    ensures MergerOk(w, HandOver(w, m, ring)) && PcOk(w, HandOver(w, m, ring))
  {
    HandOverKeepsCausalOrder(w, m, ring);
    HandOverKeepsOrder(w, m, ring);
  }

  /** mmapRing.head skips a discarded record. */
  lemma SkipKeepsOk(w: World, m: Merger, ring: Ring, pc: Pc)
    requires MergerOk(w, m) && Cons(m, ring) < |Recs(w, ring)| && Recs(w, ring)[Cons(m, ring)].status.Discarded?
    ensures MergerOk(w, Advance(m, ring).(pc := pc))
  {
    assert CommittedUpTo(Recs(w, ring), Cons(m, ring) + 1) == CommittedUpTo(Recs(w, ring), Cons(m, ring));
  }

  lemma {:induction false} SizeOfAppend(recs: seq<Record>, queue: seq<nat>, i: nat)
    requires (forall k :: 0 <= k < |queue| ==> queue[k] < |recs|) && i < |recs|
    ensures SizeOf(recs, queue + [i]) == SizeOf(recs, queue) + recs[i].size
  {
    if queue == [] {
      assert queue + [i] == [i];
    } else {
      assert (queue + [i])[1..] == queue[1..] + [i];
      SizeOfAppend(recs, queue[1..], i);
    }
  }

  /** queuedRing.fill moves the head of the ring to the end of the queue. */
  lemma FillKeepsOk(w: World, m: Merger)
    requires MergerOk(w, m) && m.pc.Fill?
    requires m.connCons < |w.conn| && w.conn[m.connCons].status.Committed?
    ensures MergerOk(w, Resolve(w, m, HeadReady(w.conn[m.connCons].ts)))
  {
    SizeOfAppend(w.conn, m.queue, m.connCons);
    InOrderTake(w.conn, m.connCons, Handed(m.log, Conn), m.queue);
  }

  /** The head() call the consumer is in returns `h`. */
  ghost predicate Returns(w: World, m: Merger, h: HeadState) {
    var ring := Looking(m.pc);
    var k := if m.pc.Fill? then m.connCons else HeadIndex(m, ring);
    match h
    case HeadEmpty => k == |Recs(w, ring)|
    case HeadBusy => true
    case HeadReady(ts) => HeadIs(Recs(w, ring), k, ts)
  }

  /** Both heads are known to nextRecord: it hands over only what it may. */
  lemma ChooseKeepsOk(w: World, m: Merger, l7: HeadState, conn: HeadState)
    requires RecordsOk(w) && MergerOk(w, m)
    requires if l7.HeadReady? then HeadIs(w.l7, m.l7Cons, l7.ts) else m.l7Cons == |w.l7|
    requires if conn.HeadReady? then HeadIs(w.conn, HeadIndex(m, Conn), conn.ts) else HeadIndex(m, Conn) == |w.conn|
    requires l7.HeadReady? || conn.HeadReady?
    ensures MergerOk(w, HandOver(w, m, Choose(l7, conn))) && PcOk(w, HandOver(w, m, Choose(l7, conn)))
  {
    HandOverKeepsOk(w, m, Choose(l7, conn));
  }

  /** Does the head() result `h` make the consumer hand a record over? */
  ghost predicate Decides(pc: Pc, h: HeadState) {
    match pc
    case Fill(_) => false
    case FirstL7(_) => false
    case FirstConn(l7, _) => l7.HeadReady? && h.HeadReady?
    case SecondConn(_, _) => !h.HeadBusy?
    case SecondL7(_, _) => !h.HeadBusy?
  }

  /** What the consumer does with a head it does not hand over. */
  function MovedOn(pc: Pc, h: HeadState): Pc
    requires !pc.Fill? && !Decides(pc, h)
  {
    match pc
    case FirstL7(_) => FirstConn(h, false)
    case FirstConn(l7, _) =>
      if l7.HeadBusy? || h.HeadBusy? then Fill(false)
      else if l7.HeadReady? then SecondConn(l7.ts, false)
      else if h.HeadReady? then SecondL7(h.ts, false)
      else Fill(false)
    case SecondConn(_, _) => Fill(false)
    case SecondL7(_, _) => Fill(false)
  }

  lemma MovingOn(w: World, m: Merger, h: HeadState)
    requires !m.pc.Fill? && !Decides(m.pc, h) && (m.queue != [] ==> m.queue[0] < |w.conn|)
    ensures Resolve(w, m, h) == m.(pc := MovedOn(m.pc, h))
  {
    hide HandOver;
  }

  lemma MovedOnIsOk(w: World, m: Merger, h: HeadState)
    requires PcOk(w, m) && Returns(w, m, h) && !m.pc.Fill? && !Decides(m.pc, h)
    ensures PcOk(w, m.(pc := MovedOn(m.pc, h)))
  {
    hide HeadIs;
  }

  lemma MovingOnKeepsOk(w: World, m: Merger, h: HeadState)
    requires MergerOk(w, m) && PcOk(w, m) && Returns(w, m, h)
    requires !m.pc.Fill? && !Decides(m.pc, h)
    ensures MergerOk(w, Resolve(w, m, h)) && PcOk(w, Resolve(w, m, h))
  {
    ReadyToConsume(w, m);
    hide MergerOk, PcOk, Returns, Decides, MovedOn, Resolve;
    MovingOn(w, m, h);
    MovedOnIsOk(w, m, h);
    MergerOkElsewhere(w, m, MovedOn(m.pc, h));
  }

  /** Where the consumer is does not matter to what it has done. */
  lemma MergerOkElsewhere(w: World, m: Merger, pc: Pc)
    requires MergerOk(w, m)
    ensures MergerOk(w, m.(pc := pc))
  {
    hide CausalOrder, InOrder;
  }

  /** Whichever of the reads of nextRecord is the last one. */
  lemma ResolveKeepsOk(w: World, m: Merger, h: HeadState)
    requires RecordsOk(w) && MergerOk(w, m) && PcOk(w, m) && Returns(w, m, h)
    ensures MergerOk(w, Resolve(w, m, h)) && PcOk(w, Resolve(w, m, h))
  {
    if m.pc.Fill? {
      if h.HeadReady? { FillKeepsOk(w, m); }
    } else if !Decides(m.pc, h) {
      MovingOnKeepsOk(w, m, h);
    } else {
      match m.pc
      case FirstConn(l7, _) => ChooseKeepsOk(w, m, l7, h);
      case SecondConn(l7Time, _) => ChooseKeepsOk(w, m, HeadReady(l7Time), h);
      case SecondL7(connTime, _) => ChooseKeepsOk(w, m, h, HeadReady(connTime));
    }
  }

  lemma QueueHeadIsCommitted(w: World, m: Merger)
    requires MergerOk(w, m) && m.queue != []
    ensures HeadIs(w.conn, m.queue[0], w.conn[m.queue[0]].ts)
  {
    CommittedUpToIncreases(w.conn, m.connCons);
    assert m.queue[0] in Handed(m.log, Conn) + m.queue;
  }

  lemma ConsumeKeepsOk(w: World, m: Merger)
    requires RecordsOk(w) && MergerOk(w, m) && PcOk(w, m)
    ensures WellFormed(w, m) && MergerOk(w, Consume(w, m)) && PcOk(w, Consume(w, m))
  {
    hide MergerOk, RecordsOk;
    ReadyToConsume(w, m);
    var ring := Looking(m.pc);
    var k := Cons(m, ring);
    if m.pc.Fill? && m.queuedBytes >= m.maxBytes {
      MergerOkElsewhere(w, m, FirstL7(false));
    } else if !m.pc.Fill? && ring.Conn? && m.queue != [] {
      QueueHeadIsCommitted(w, m);
      ResolveKeepsOk(w, m, HeadReady(w.conn[m.queue[0]].ts));
    } else if !m.pc.loaded {
      if k == |Recs(w, ring)| { ResolveKeepsOk(w, m, HeadEmpty); } else { MergerOkElsewhere(w, m, WithLoaded(m.pc, true)); }
    } else {
      HeaderKeepsOk(w, m);
    }
  }

  lemma ReadyToConsume(w: World, m: Merger)
    requires MergerOk(w, m) && PcOk(w, m)
    ensures WellFormed(w, m) && m.l7Cons <= |w.l7| && m.connCons <= |w.conn|
  {
    hide CausalOrder;
  }

  /** The header of the record at the consumer position has been read. */
  lemma HeaderKeepsOk(w: World, m: Merger)
    requires RecordsOk(w) && MergerOk(w, m) && PcOk(w, m) && WellFormed(w, m) && m.pc.loaded
    requires !(m.pc.Fill? && m.queuedBytes >= m.maxBytes) && !(!m.pc.Fill? && Looking(m.pc).Conn? && m.queue != [])
    ensures MergerOk(w, Consume(w, m)) && PcOk(w, Consume(w, m))
  {
    hide MergerOk, RecordsOk;
    var ring := Looking(m.pc);
    var k := Cons(m, ring);
    match Recs(w, ring)[k].status
    case Busy => ResolveKeepsOk(w, m, HeadBusy);
    case Discarded => SkipKeepsOk(w, m, ring, WithLoaded(m.pc, false));
    case Committed(_, _) => ResolveKeepsOk(w, m, HeadReady(Recs(w, ring)[k].ts));
  }

  lemma NextKeepsInv(s: State, t: State)
    requires Inv(s) && Next(s, t)
    ensures Inv(t)
  {
    if ConsumerStep(s, t) {
      ConsumeKeepsOk(s.w, s.m);
      assert Evolves(s.w, t.w);
      InvEvolves(s.w, t.w, t.m);
    } else {
      var step :| Enabled(s.w, step) && t.w == Produce(s.w, step);
      ProducersEvolve(s.w, step);
      InvEvolves(s.w, t.w, t.m);
    }
  }

  // ---------------------------------------------------------------------------
  // The theorems
  // ---------------------------------------------------------------------------

  lemma InitInv(maxBytes: nat)
    ensures Inv(Init(maxBytes))
  {
  }

  lemma {:induction false} EveryRunKeepsInv(states: seq<State>, n: nat)
    requires IsRun(states) && n < |states|
    ensures Inv(states[n])
  {
    if n == 0 {
      var maxBytes: nat :| states[0] == Init(maxBytes);
      InitInv(maxBytes);
    } else {
      EveryRunKeepsInv(states, n - 1);
      assert Next(states[n - 1], states[n - 1 + 1]);
      NextKeepsInv(states[n - 1], states[n]);
    }
  }

  /** Cross-ring causal order, in every interleaving: a record that happened before a record handed
      over was handed over earlier. */
  lemma RunsRespectHappensBefore(states: seq<State>, s: State, p: nat, a: Id)
    requires IsRun(states) && s == states[|states| - 1]
    requires p < |s.m.log| && Exists(s.w, s.m.log[p]) && Exists(s.w, a) && HappensBefore(s.w, a, s.m.log[p])
    ensures exists q: nat :: q < p && s.m.log[q] == a
  {
    EveryRunKeepsInv(states, |states| - 1);
    assert PredecessorsIn(s.w, s.m.log[p], s.m.log[..p]);
    var q :| 0 <= q < p && s.m.log[..p][q] == a;
  }

  lemma CommittedUpToPrefix(recs: seq<Record>, n: nat, m: nat)
    requires n <= m <= |recs|
    ensures CommittedUpTo(recs, n) <= CommittedUpTo(recs, m)
    decreases m
  {
    if n < m { CommittedUpToPrefix(recs, n, m - 1); }
  }

  /** Exactly once and in order: what a ring has handed over is a prefix of its committed records in
      reservation order, the queue holds the next ones, and queuedBytes is the size of the queue. */
  lemma RunsHandOverAPrefix(states: seq<State>, s: State)
    requires IsRun(states) && s == states[|states| - 1]
    ensures Handed(s.m.log, L7) <= CommittedUpTo(s.w.l7, |s.w.l7|)
    ensures Handed(s.m.log, Conn) + s.m.queue <= CommittedUpTo(s.w.conn, |s.w.conn|)
    ensures forall k :: 0 <= k < |s.m.queue| ==> s.m.queue[k] < |s.w.conn|
    ensures s.m.queuedBytes == SizeOf(s.w.conn, s.m.queue)
  {
    EveryRunKeepsInv(states, |states| - 1);
    CommittedUpToPrefix(s.w.l7, s.m.l7Cons, |s.w.l7|);
    CommittedUpToPrefix(s.w.conn, s.m.connCons, |s.w.conn|);
  }

  // ---------------------------------------------------------------------------
  // Nothing is lost: with the producers quiet, the consumer hands everything over
  // ---------------------------------------------------------------------------

  ghost predicate Quiet(w: World) {
    NoneBusy(w.l7, |w.l7|) && NoneBusy(w.conn, |w.conn|)
  }

  ghost predicate Drained(w: World, m: Merger) {
    m.l7Cons == |w.l7| && m.connCons == |w.conn| && m.queue == []
  }

  /** In a quiet world the reads of the current round tell how things still are. */
  ghost predicate QuietPc(w: World, m: Merger) {
    && (m.pc.FirstConn? ==> !m.pc.l7.HeadBusy? && (m.pc.l7.HeadEmpty? ==> m.l7Cons == |w.l7|))
  }

  ghost function Left(w: World, m: Merger): int {
    2 * (|w.conn| - m.connCons) + |m.queue| + (|w.l7| - m.l7Cons)
  }

  ghost function Rank(pc: Pc): nat {
    (match pc
     case Fill(_) => 7
     case FirstL7(_) => 5
     case FirstConn(_, _) => 3
     case SecondConn(_, _) => 1
     case SecondL7(_, _) => 1) - (if pc.loaded then 1 else 0)
  }

  lemma QuietProgress(w: World, m: Merger)
    requires m.l7Cons <= |w.l7| && m.connCons <= |w.conn|
    requires WellFormed(w, m) && Quiet(w) && QuietPc(w, m) && !Drained(w, m)
    ensures QuietPc(w, Consume(w, m))
    ensures Left(w, Consume(w, m)) <= Left(w, m)
    ensures Left(w, Consume(w, m)) == Left(w, m) ==> Rank(Consume(w, m).pc) < Rank(m.pc)
  {
    var ring := Looking(m.pc);
    if m.pc.loaded { assert !Recs(w, ring)[Cons(m, ring)].status.Busy?; }
  }

  /** A read of the current round that is no longer true is forgotten before long. */
  lemma StaleProgress(w: World, m: Merger)
    requires m.l7Cons <= |w.l7| && m.connCons <= |w.conn|
    requires WellFormed(w, m) && Quiet(w) && !QuietPc(w, m)
    ensures var n := Consume(w, m);
      QuietPc(w, n) || Left(w, n) < Left(w, m) || (Left(w, n) == Left(w, m) && Rank(n.pc) < Rank(m.pc))
  {
    if m.pc.loaded { assert !w.conn[m.connCons].status.Busy?; }
  }

  lemma DrainedIsHandedOver(w: World, m: Merger)
    requires MergerOk(w, m) && Drained(w, m)
    ensures AllHandedOver(w, m)
  {
    assert Handed(m.log, L7) + [] == Handed(m.log, L7) && Handed(m.log, Conn) + [] == Handed(m.log, Conn);
  }

  ghost predicate AllHandedOver(w: World, m: Merger) {
    && Handed(m.log, L7) == CommittedUpTo(w.l7, |w.l7|)
    && Handed(m.log, Conn) == CommittedUpTo(w.conn, |w.conn|)
  }

  function ByConsumer(s: State): State
    requires WellFormed(s.w, s.m)
  {
    State(s.w.(events := s.w.events + 1), Consume(s.w, s.m))
  }

  /** A run with one more step is a run. */
  lemma NextRun(states: seq<State>, t: State)
    requires IsRun(states) && Next(states[|states| - 1], t)
    ensures IsRun(states + [t])
  {
    hide Next;
    var longer := states + [t];
    assert forall k :: 0 <= k < |states| - 1 ==> Next(longer[k], longer[k + 1]);
  }

  lemma ConsumeRun(states: seq<State>, s: State) returns (longer: seq<State>)
    requires IsRun(states) && s == states[|states| - 1] && WellFormed(s.w, s.m)
    ensures IsRun(longer) && states <= longer && longer[|longer| - 1] == ByConsumer(s)
  {
    longer := states + [ByConsumer(s)];
    assert ConsumerStep(s, ByConsumer(s));
    NextRun(states, ByConsumer(s));
  }

  /** Left to do, and whether a read of the current round is no longer true. */
  ghost function Stale(w: World, m: Merger): nat {
    if QuietPc(w, m) then 0 else 1
  }

  /** One step of the consumer brings a run that is not drained closer to that. */
  lemma QuietStep(s: State)
    requires Inv(s) && Quiet(s.w) && !(QuietPc(s.w, s.m) && Drained(s.w, s.m))
    ensures WellFormed(s.w, s.m)
    ensures var t := ByConsumer(s);
      && Quiet(t.w) && 0 <= Left(s.w, s.m)
      && (Stale(t.w, t.m) < Stale(s.w, s.m) || (Stale(t.w, t.m) == Stale(s.w, s.m) && Left(t.w, t.m) < Left(s.w, s.m)) ||
          (Stale(t.w, t.m) == Stale(s.w, s.m) && Left(t.w, t.m) == Left(s.w, s.m) && Rank(t.m.pc) < Rank(s.m.pc)))
  {
    hide Consume, RecordsOk, PcOk, Rank;
    ConsumeKeepsOk(s.w, s.m);
    if QuietPc(s.w, s.m) {
      QuietProgress(s.w, s.m);
    } else {
      StaleProgress(s.w, s.m);
    }
    EventsDoNotMatter(s.w, Consume(s.w, s.m), s.w.events + 1);
  }

  lemma EventsDoNotMatter(w: World, m: Merger, events: nat)
    ensures var v := w.(events := events); Quiet(v) == Quiet(w) && Stale(v, m) == Stale(w, m) && Left(v, m) == Left(w, m)
  {
  }

  lemma LastKeepsInv(states: seq<State>, s: State)
    requires IsRun(states) && s == states[|states| - 1]
    ensures |states| > 0 && Inv(s)
  {
    EveryRunKeepsInv(states, |states| - 1);
  }

  lemma EndIsHandedOver(s: State)
    requires Inv(s) && Drained(s.w, s.m)
    ensures AllHandedOver(s.w, s.m)
  {
    DrainedIsHandedOver(s.w, s.m);
  }

  /** From every reachable state without busy records, steps of the consumer alone hand over every
      committed record of both rings. */
  lemma {:induction false} QuietRingsAreDrained(states: seq<State>, s: State) returns (longer: seq<State>)
    requires IsRun(states) && s == states[|states| - 1] && Quiet(s.w)
    ensures IsRun(longer) && states <= longer
    ensures var t := longer[|longer| - 1];
      t.w == s.w.(events := t.w.events) && AllHandedOver(t.w, t.m)
    decreases Stale(s.w, s.m), Left(s.w, s.m), Rank(s.m.pc)
  {
    hide IsRun, Inv, Quiet, Drained, Consume, Stale, Left, Rank, QuietPc, AllHandedOver, WellFormed;
    LastKeepsInv(states, s);
    if QuietPc(s.w, s.m) && Drained(s.w, s.m) {
      longer := states;
      EndIsHandedOver(s);
    } else {
      QuietStep(s);
      var next := ConsumeRun(states, s);
      longer := QuietRingsAreDrained(next, ByConsumer(s));
      PrefixOfPrefix(states, next, longer);
    }
  }

  lemma PrefixOfPrefix<T>(a: seq<T>, b: seq<T>, c: seq<T>)
    requires a <= b <= c
    ensures a <= c
  {
  }

  // ---------------------------------------------------------------------------
  // What is not promised
  // ---------------------------------------------------------------------------

  function ByProducer(s: State, step: Step): State
    requires Enabled(s.w, step)
  {
    State(Produce(s.w, step), s.m)
  }

  lemma ExtendRun(states: seq<State>, s: State, step: Step) returns (longer: seq<State>)
    requires IsRun(states) && s == states[|states| - 1] && Enabled(s.w, step)
    ensures IsRun(longer) && longer[|longer| - 1] == ByProducer(s, step)
  {
    longer := states + [ByProducer(s, step)];
    assert ProducerStep(s, ByProducer(s, step));
    NextRun(states, ByProducer(s, step));
  }

  /** One record, from its stamp to its commit. */
  lemma WriteRun(states: seq<State>, s: State, ring: Ring) returns (longer: seq<State>)
    requires IsRun(states) && s == states[|states| - 1] && s.w.stamped == map[]
    ensures IsRun(longer)
    ensures var t := longer[|longer| - 1];
      && t.m == s.m && t.w.clock == s.w.clock && t.w.stamped == map[] && t.w.events == s.w.events + 3
      && t.w == WithRecs(t.w, ring, Recs(t.w, ring))
      && Recs(t.w, ring) ==
         Recs(s.w, ring) + [Record(s.w.clock, s.w.events, s.w.events + 1, s.w.clock, 8, Committed(s.w.clock, s.w.events + 2))]
      && (ring.L7? ==> t.w.conn == s.w.conn) && (ring.Conn? ==> t.w.l7 == s.w.l7)
  {
    var a := ByProducer(s, DoStamp(0));
    longer := ExtendRun(states, s, DoStamp(0));
    var b := ByProducer(a, Reserve(0, ring, 8));
    longer := ExtendRun(longer, a, Reserve(0, ring, 8));
    longer := ExtendRun(longer, b, Commit(ring, |Recs(s.w, ring)|));
    assert map[0 := Stamp(s.w.clock, s.w.events)] - {0} == map[];
  }

  /** The clock condition of HappensBefore is needed: at any time t, an L7 record committed before a
      connection record is even stamped is handed over after it when the clock stands still. */
  lemma TiesGoToTheConnection(t: nat) returns (states: seq<State>)
    ensures IsRun(states)
    ensures var s := states[|states| - 1];
      && |s.w.l7| == 1 && |s.w.conn| == 1 && s.w.l7[0].status.Committed?
      && s.w.l7[0].status.event < s.w.conn[0].stampedAt
      && s.w.l7[0].status.clock == s.w.conn[0].ts == t
      && s.m.log == [(Conn, 0)]
  {
    states := [Init(1024)];
    states := ExtendRun(states, Init(1024), Tick(t));
    states := WriteRun(states, states[|states| - 1], L7);
    states := WriteRun(states, states[|states| - 1], Conn);
    // fill takes the connection record into the queue and finds the ring empty
    states := ConsumeRun(states, states[|states| - 1]);
    states := ConsumeRun(states, states[|states| - 1]);
    states := ConsumeRun(states, states[|states| - 1]);
    // both heads are read, and the times are equal
    states := ConsumeRun(states, states[|states| - 1]);
    states := ConsumeRun(states, states[|states| - 1]);
    states := ConsumeRun(states, states[|states| - 1]);
  }

  /** One turn of the consumer with nothing but an L7 record to hand over. */
  lemma TakeL7Run(states: seq<State>, s: State) returns (longer: seq<State>)
    requires IsRun(states) && s == states[|states| - 1]
    requires s.m.pc == Fill(false) && s.m.queue == [] && s.m.queuedBytes < s.m.maxBytes && s.m.connCons == |s.w.conn|
    requires s.m.l7Cons < |s.w.l7| && s.w.l7[s.m.l7Cons].status.Committed?
    ensures IsRun(longer)
    ensures longer[|longer| - 1] ==
      State(s.w.(events := s.w.events + 5), s.m.(l7Cons := s.m.l7Cons + 1, log := s.m.log + [(L7, s.m.l7Cons)]))
  {
    // the connections ring is empty, the L7 record is read, and the ring is looked at twice more
    longer := ConsumeRun(states, s);
    longer := ConsumeRun(longer, longer[|longer| - 1]);
    longer := ConsumeRun(longer, longer[|longer| - 1]);
    longer := ConsumeRun(longer, longer[|longer| - 1]);
    longer := ConsumeRun(longer, longer[|longer| - 1]);
  }

  /** Stamps alone promise nothing: a producer that stamps first and reserves second is handed over
      second, so what is handed over is not in the order of its times. */
  lemma TimesAreNotInOrder() returns (states: seq<State>)
    ensures IsRun(states)
    ensures var s := states[|states| - 1];
      s.m.log == [(L7, 0), (L7, 1)] && |s.w.l7| == 2 && s.w.l7[0].ts > s.w.l7[1].ts
  {
    states := [Init(1024)];
    states := ExtendRun(states, Init(1024), DoStamp(0));
    states := ExtendRun(states, states[|states| - 1], Tick(1));
    states := ExtendRun(states, states[|states| - 1], DoStamp(1));
    states := ExtendRun(states, states[|states| - 1], Reserve(1, L7, 8));
    states := ExtendRun(states, states[|states| - 1], Reserve(0, L7, 8));
    states := ExtendRun(states, states[|states| - 1], Commit(L7, 0));
    states := ExtendRun(states, states[|states| - 1], Commit(L7, 1));
    states := TakeL7Run(states, states[|states| - 1]);
    states := TakeL7Run(states, states[|states| - 1]);
  }
}
