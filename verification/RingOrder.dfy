/**
When the merge of the two rings hands records over in the order of their times. It promises less (see
RingMerge): a record can be stamped early and reserved late. Here is the exact condition, for every
run, and that it is met when records are reserved in the order of their times.
*/
module RingOrder {
  import opened RingMerge

  function Time(w: World, a: Id): nat
    requires Exists(w, a)
  {
    Rec(w, a).ts
  }

  ghost predicate AllExist(w: World, log: seq<Id>) {
    forall p :: 0 <= p < |log| ==> Exists(w, log[p])
  }

  /** What was handed over is in the order of its times. */
  ghost predicate Sorted(w: World, log: seq<Id>)
    requires AllExist(w, log)
  {
    forall p, q :: 0 <= p < q < |log| ==> Time(w, log[p]) <= Time(w, log[q])
  }

  /** What was handed over from each ring is. */
  ghost predicate RingsSorted(w: World, log: seq<Id>)
    requires AllExist(w, log)
  {
    forall p, q :: 0 <= p < q < |log| && log[p].0 == log[q].0 ==> Time(w, log[p]) <= Time(w, log[q])
  }

  /** In some state up to the n-th, `a` was handed over and `b` was not reserved yet. */
  ghost predicate ReservedLate(states: seq<State>, n: nat, a: Id, b: Id)
    requires n < |states|
  {
    exists k :: 0 <= k <= n && a in states[k].m.log && !Exists(states[k].w, b)
  }

  // ---------------------------------------------------------------------------
  // One step of the consumer
  // ---------------------------------------------------------------------------

  ghost predicate HandsOver(w: World, m: Merger, n: Merger, ring: Ring) {
    MayHandOver(w, m, ring) && n.log == m.log + [(ring, HeadIndex(m, ring))]
  }

  /** A step hands over nothing, or a head it may hand over; and heads only move forward. */
  ghost predicate Moves(w: World, m: Merger, n: Merger) {
    && (n.log == m.log || exists ring :: HandsOver(w, m, n, ring))
    && HeadIndex(m, L7) <= HeadIndex(n, L7) && HeadIndex(m, Conn) <= HeadIndex(n, Conn)
  }

  ghost predicate QueueIncreases(m: Merger) {
    forall k :: 0 <= k < |m.queue| ==> m.queue[k] < m.connCons && m.queue[0] <= m.queue[k]
  }

  lemma QueueIsOrdered(w: World, m: Merger)
    requires MergerOk(w, m)
    ensures QueueIncreases(m)
  {
    CommittedUpToIncreases(w.conn, m.connCons);
    var h, c := Handed(m.log, Conn), CommittedUpTo(w.conn, m.connCons);
    assert forall k :: 0 <= k < |m.queue| ==> m.queue[k] == c[|h| + k];
    assert forall k :: 0 <= k < |m.queue| ==> m.queue[k] in c;
  }

  lemma HandOverMoves(w: World, m: Merger, ring: Ring)
    requires QueueIncreases(m) && MayHandOver(w, m, ring) && (m.queue != [] ==> m.queue[0] < |w.conn|)
    ensures Moves(w, m, HandOver(w, m, ring))
  {
    var n := HandOver(w, m, ring);
    assert HandsOver(w, m, n, ring);
    if ring.Conn? && |m.queue| > 1 { assert m.queue[1..][0] == m.queue[1]; }
  }

  lemma ChoiceMoves(w: World, m: Merger, l7: HeadState, conn: HeadState)
    requires QueueIncreases(m) && (m.queue != [] ==> m.queue[0] < |w.conn|)
    requires if l7.HeadReady? then HeadIs(w.l7, m.l7Cons, l7.ts) else m.l7Cons == |w.l7|
    requires if conn.HeadReady? then HeadIs(w.conn, HeadIndex(m, Conn), conn.ts) else HeadIndex(m, Conn) == |w.conn|
    requires l7.HeadReady? || conn.HeadReady?
    ensures Moves(w, m, HandOver(w, m, Choose(l7, conn)))
  {
    hide Moves, QueueIncreases;
    HandOverMoves(w, m, Choose(l7, conn));
  }

  lemma StaysMoves(w: World, m: Merger, pc: Pc)
    ensures Moves(w, m, m.(pc := pc))
  {
  }

  lemma FillMoves(w: World, m: Merger)
    requires m.pc.Fill? && m.connCons < |w.conn| && (m.queue != [] ==> m.queue[0] < |w.conn|)
    ensures Moves(w, m, Resolve(w, m, HeadReady(w.conn[m.connCons].ts)))
  {
  }

  lemma ResolveMoves(w: World, m: Merger, h: HeadState)
    requires MergerOk(w, m) && PcOk(w, m) && Returns(w, m, h)
    ensures Moves(w, m, Resolve(w, m, h))
  {
    ReadyToConsume(w, m);
    QueueIsOrdered(w, m);
    hide MergerOk, Moves, QueueIncreases;
    if m.pc.Fill? {
      if h.HeadReady? { FillMoves(w, m); } else { StaysMoves(w, m, FirstL7(false)); }
    } else if !Decides(m.pc, h) {
      MovingOn(w, m, h);
      StaysMoves(w, m, MovedOn(m.pc, h));
    } else {
      match m.pc
      case FirstConn(l7, _) => ChoiceMoves(w, m, l7, h);
      case SecondConn(l7Time, _) => ChoiceMoves(w, m, HeadReady(l7Time), h);
      case SecondL7(connTime, _) => ChoiceMoves(w, m, h, HeadReady(connTime));
    }
  }

  lemma SkipMoves(w: World, m: Merger, ring: Ring, pc: Pc)
    requires QueueIncreases(m)
    ensures Moves(w, m, Advance(m, ring).(pc := pc))
  {
  }

  lemma ConsumeMoves(w: World, m: Merger)
    requires MergerOk(w, m) && PcOk(w, m)
    ensures WellFormed(w, m) && Moves(w, m, Consume(w, m))
  {
    ReadyToConsume(w, m);
    QueueIsOrdered(w, m);
    hide MergerOk, Moves, QueueIncreases, Resolve;
    var ring := Looking(m.pc);
    var k := Cons(m, ring);
    if m.pc.Fill? && m.queuedBytes >= m.maxBytes {
      StaysMoves(w, m, FirstL7(false));
    } else if !m.pc.Fill? && ring.Conn? && m.queue != [] {
      QueueHeadIsCommitted(w, m);
      ResolveMoves(w, m, HeadReady(w.conn[m.queue[0]].ts));
    } else if !m.pc.loaded {
      if k == |Recs(w, ring)| { ResolveMoves(w, m, HeadEmpty); } else { StaysMoves(w, m, WithLoaded(m.pc, true)); }
    } else {
      match Recs(w, ring)[k].status
      case Busy => ResolveMoves(w, m, HeadBusy);
      case Discarded => SkipMoves(w, m, ring, WithLoaded(m.pc, false));
      case Committed(_, _) => ResolveMoves(w, m, HeadReady(Recs(w, ring)[k].ts));
    }
  }

  // ---------------------------------------------------------------------------
  // Runs
  // ---------------------------------------------------------------------------

  /** What a step of a run does, whoever takes it. */
  ghost predicate Goes(s: State, t: State) {
    Evolves(s.w, t.w) && Moves(s.w, s.m, t.m) && (t.m == s.m || (t.w.l7 == s.w.l7 && t.w.conn == s.w.conn))
  }

  lemma StepGoes(s: State, t: State)
    requires Inv(s) && Next(s, t)
    ensures Goes(s, t)
  {
    hide MergerOk, PcOk, RecordsOk, Evolves, Moves, Consume;
    if ConsumerStep(s, t) {
      ConsumeMoves(s.w, s.m);
      LaterEvolves(s.w);
    } else {
      var step :| Enabled(s.w, step) && t.w == Produce(s.w, step);
      ProducersEvolve(s.w, step);
      StaysMoves(s.w, s.m, s.m.pc);
      assert s.m.(pc := s.m.pc) == s.m;
    }
  }

  lemma LaterEvolves(w: World)
    ensures Evolves(w, w.(events := w.events + 1))
  {
  }

  lemma RunGoes(states: seq<State>, n: nat)
    requires IsRun(states) && n + 1 < |states|
    ensures Inv(states[n]) && Goes(states[n], states[n + 1])
  {
    hide Inv, Goes, Next;
    EveryRunKeepsInv(states, n);
    assert Next(states[n], states[n + 1]);
    StepGoes(states[n], states[n + 1]);
  }

  /** Some record of b's ring, no later in it than b, is committed and not earlier than a: b's ring was
      looked at, or b was reserved late. */
  ghost predicate Behind(w: World, a: Id, b: Id) {
    exists c: Id :: c.0 == b.0 && c.1 <= b.1 && Exists(w, a) && Exists(w, c) && Rec(w, c).status.Committed? && Time(w, a) <= Time(w, c)
  }

  ghost predicate Covered(states: seq<State>, n: nat, a: Id, b: Id)
    requires n < |states|
  {
    ReservedLate(states, n, a, b) || Behind(states[n].w, a, b)
  }

  lemma RecordStays(w: World, t: World, a: Id)
    requires Evolves(w, t) && Exists(w, a)
    ensures Exists(t, a) && Time(t, a) == Time(w, a) && (Rec(w, a).status.Committed? ==> Rec(t, a).status.Committed?)
  {
    assert Exists(t, a);
    RecEvolves(w, t, a);
  }

  lemma CoveredStays(states: seq<State>, n: nat, a: Id, b: Id)
    requires n + 1 < |states| && Evolves(states[n].w, states[n + 1].w) && Covered(states, n, a, b)
    ensures Covered(states, n + 1, a, b)
  {
    hide Evolves, Exists, Rec;
    if ReservedLate(states, n, a, b) {
      var k :| 0 <= k <= n && a in states[k].m.log && !Exists(states[k].w, b);
      assert 0 <= k <= n + 1;
    } else {
      BehindStays(states[n].w, states[n + 1].w, a, b);
    }
  }

  lemma BehindStays(w: World, t: World, a: Id, b: Id)
    requires Evolves(w, t) && Behind(w, a, b)
    ensures Behind(t, a, b)
  {
    var c: Id :| c.0 == b.0 && c.1 <= b.1 && Exists(w, a) && Exists(w, c) && Rec(w, c).status.Committed? && Time(w, a) <= Time(w, c);
    hide Evolves;
    RecordStays(w, t, a);
    RecordStays(w, t, c);
  }

  /** Records of the other ring that are still to come are covered, and so are those in the log. */
  ghost predicate AllCovered(states: seq<State>, n: nat)
    requires n < |states|
  {
    var s := states[n];
    && (forall a: Id, b: Id {:trigger Covered(states, n, a, b)} ::
          a in s.m.log && b.0 != a.0 && Exists(s.w, b) && HeadIndex(s.m, b.0) <= b.1 ==> Covered(states, n, a, b))
    && (forall p, q {:trigger s.m.log[p], s.m.log[q]} ::
          0 <= p < q < |s.m.log| && s.m.log[p].0 != s.m.log[q].0 ==> Covered(states, n, s.m.log[p], s.m.log[q]))
  }

  lemma StillToCome(states: seq<State>, n: nat, a: Id, b: Id)
    requires n + 1 < |states| && Goes(states[n], states[n + 1]) && AllCovered(states, n)
    requires var t := states[n + 1];
      a in t.m.log && b.0 != a.0 && Exists(t.w, b) && HeadIndex(t.m, b.0) <= b.1
    ensures Covered(states, n + 1, a, b)
  {
    var s, t := states[n], states[n + 1];
    hide Evolves, Behind;
    if a in s.m.log {
      if Exists(s.w, b) {
        CoveredStays(states, n, a, b);
      } else {
        assert ReservedLate(states, n + 1, a, b);
      }
    } else {
      var ring :| HandsOver(s.w, s.m, t.m, ring);
      NewIsCovered(s.w, s.m, ring, b);
      BehindStays(s.w, t.w, a, b);
    }
  }

  /** What is handed over is not later than what the other ring still has. */
  lemma NewIsCovered(w: World, m: Merger, ring: Ring, b: Id)
    requires MayHandOver(w, m, ring) && b.0 != ring && Exists(w, b) && HeadIndex(m, b.0) <= b.1
    ensures Behind(w, (ring, HeadIndex(m, ring)), b)
  {
    var c: Id := (b.0, HeadIndex(m, b.0));
    assert Exists(w, c) && Exists(w, (ring, HeadIndex(m, ring)));
  }

  lemma HandedIsCovered(states: seq<State>, n: nat, p: nat, q: nat)
    requires n + 1 < |states| && Goes(states[n], states[n + 1]) && AllCovered(states, n)
    requires var log := states[n + 1].m.log; p < q < |log| && log[p].0 != log[q].0
    ensures Covered(states, n + 1, states[n + 1].m.log[p], states[n + 1].m.log[q])
  {
    var s, t := states[n], states[n + 1];
    hide Evolves, Covered;
    if q >= |s.m.log| {
      var ring :| HandsOver(s.w, s.m, t.m, ring);
      assert s.m.log[p] in s.m.log;
    }
    assert t.m.log[p] == s.m.log[p];
    CoveredStays(states, n, t.m.log[p], t.m.log[q]);
  }

  lemma {:induction false} RunsCover(states: seq<State>, n: nat)
    requires IsRun(states) && n < |states|
    ensures AllCovered(states, n)
  {
    hide Covered, Goes, Inv, Next;
    if n > 0 {
      RunsCover(states, n - 1);
      RunGoes(states, n - 1);
      var t := states[n];
      forall a: Id, b: Id | a in t.m.log && b.0 != a.0 && Exists(t.w, b) && HeadIndex(t.m, b.0) <= b.1
        ensures Covered(states, n, a, b)
      {
        StillToCome(states, n - 1, a, b);
      }
      forall p, q | 0 <= p < q < |t.m.log| && t.m.log[p].0 != t.m.log[q].0
        ensures Covered(states, n, t.m.log[p], t.m.log[q])
      {
        HandedIsCovered(states, n - 1, p, q);
      }
    }
  }

  // ---------------------------------------------------------------------------
  // Within a ring
  // ---------------------------------------------------------------------------

  lemma {:induction false} HandedPrefix(log: seq<Id>, ring: Ring, n: nat)
    requires n <= |log|
    ensures Handed(log[..n], ring) <= Handed(log, ring)
    decreases |log|
  {
    if n < |log| {
      var init := log[..|log| - 1];
      HandedPrefix(init, ring, n);
      assert init[..n] == log[..n];
    } else {
      assert log[..n] == log;
    }
  }

  ghost predicate Increasing(c: seq<nat>) {
    forall j, k :: 0 <= j < k < |c| ==> c[j] < c[k]
  }

  /** The committed records of a ring that the consumer has passed. */
  function Passed(w: World, m: Merger, ring: Ring): seq<nat>
    requires Cons(m, ring) <= |Recs(w, ring)|
  {
    CommittedUpTo(Recs(w, ring), Cons(m, ring))
  }

  /** What a ring has handed over is the start of an increasing list of its committed records. */
  lemma HandedIsIncreasing(w: World, m: Merger, ring: Ring)
    requires MergerOk(w, m)
    ensures Cons(m, ring) <= |Recs(w, ring)| && Handed(m.log, ring) <= Passed(w, m, ring) && Increasing(Passed(w, m, ring))
    ensures forall i :: i in Passed(w, m, ring) ==> i < |Recs(w, ring)|
  {
    hide CausalOrder, QueueOk, Handed;
    CommittedUpToIncreases(Recs(w, ring), Cons(m, ring));
    assert Handed(m.log, ring) <= Passed(w, m, ring);
  }

  /** In an increasing list, what is smaller than an entry is before it. */
  lemma SmallerIsBefore(h: seq<nat>, c: seq<nat>, n: nat, i: nat)
    requires h <= c && Increasing(c) && n < |h| && i in c && i < h[n]
    ensures i in h[..n]
  {
    var l :| 0 <= l < |c| && c[l] == i;
    assert c[n] == h[n];
    assert l < n;
    assert h[..n][l] == i;
  }

  lemma {:induction false} LogIsHanded(log: seq<Id>, p: nat)
    requires p < |log|
    ensures log[p].1 in Handed(log, log[p].0)
    decreases |log|
  {
    if p < |log| - 1 {
      LogIsHanded(log[..|log| - 1], p);
    }
  }

  lemma LastHanded(log: seq<Id>, q: nat)
    requires q < |log|
    ensures var ring := log[q].0; Handed(log[..q + 1], ring) == Handed(log[..q], ring) + [log[q].1]
  {
    assert log[..q + 1][..q] == log[..q];
  }

  /** Records of one ring come in the order of their indices. */
  lemma RingIncreases(w: World, m: Merger, p: nat, q: nat)
    requires MergerOk(w, m) && p < q < |m.log| && m.log[p].0 == m.log[q].0
    ensures m.log[p].1 < m.log[q].1
  {
    hide MergerOk, Handed, Passed;
    var b := m.log[q];
    var h, before := Handed(m.log, b.0), Handed(m.log[..q], b.0);
    HandedIsIncreasing(w, m, b.0);
    LastHanded(m.log, q);
    HandedPrefix(m.log, b.0, q + 1);
    LogIsHanded(m.log[..q], p);
    var k :| 0 <= k < |before| && before[k] == m.log[p].1;
    EarlierIsSmaller(before, b.1, h, Passed(w, m, b.0), k);
  }

  lemma EarlierIsSmaller(before: seq<nat>, last: nat, h: seq<nat>, c: seq<nat>, k: nat)
    requires before + [last] <= h <= c && Increasing(c) && k < |before|
    ensures before[k] < last
  {
    var n := |before|;
    assert (before + [last])[k] == before[k] && (before + [last])[n] == last;
    assert c[k] == before[k] && c[n] == last;
  }

  lemma LogExists(w: World, m: Merger)
    requires MergerOk(w, m)
    ensures AllExist(w, m.log)
  {
    hide MergerOk, Handed, Passed;
    forall q | 0 <= q < |m.log|
      ensures Exists(w, m.log[q])
    {
      HandedIsIncreasing(w, m, m.log[q].0);
      LogIsHanded(m.log, q);
      var h := Handed(m.log, m.log[q].0);
      var k :| 0 <= k < |h| && h[k] == m.log[q].1;
      assert Passed(w, m, m.log[q].0)[k] == h[k] && h[k] in Passed(w, m, m.log[q].0);
    }
  }

  /** No committed record of a ring is left out before a later one. */
  lemma NoneIsLeftOut(w: World, m: Merger, q: nat, i: nat)
    requires MergerOk(w, m) && q < |m.log| && var b := m.log[q]; i < b.1 && Exists(w, b) && Recs(w, b.0)[i].status.Committed?
    ensures (m.log[q].0, i) in m.log[..q]
  {
    hide MergerOk, Handed;
    var b := m.log[q];
    var h, before := Handed(m.log, b.0), Handed(m.log[..q], b.0);
    HandedIsIncreasing(w, m, b.0);
    LastHanded(m.log, q);
    HandedPrefix(m.log, b.0, q + 1);
    var n := |before|;
    assert (before + [b.1])[n] == b.1;
    assert n < |h| && h[n] == b.1 && h[..n] == before;
    SmallerIsPassed(w, m, b, h, n, i);
    SmallerIsBefore(h, Passed(w, m, b.0), n, i);
    HandedIsInLog(m.log[..q], b.0, i);
  }

  lemma SmallerIsPassed(w: World, m: Merger, b: Id, h: seq<nat>, n: nat, i: nat)
    requires Cons(m, b.0) <= |Recs(w, b.0)| && h <= Passed(w, m, b.0) && n < |h| && h[n] == b.1
    requires i < b.1 && Exists(w, b) && Recs(w, b.0)[i].status.Committed?
    ensures i in Passed(w, m, b.0)
  {
    var recs, cons := Recs(w, b.0), Cons(m, b.0);
    CommittedUpToIncreases(recs, cons);
    assert Passed(w, m, b.0)[n] in Passed(w, m, b.0);
    CommittedIsUpTo(recs, cons, i);
  }

  lemma LastState(states: seq<State>, s: State)
    requires IsRun(states) && s == states[|states| - 1]
    ensures |states| > 0 && Inv(s) && AllExist(s.w, s.m.log) && AllCovered(states, |states| - 1)
  {
    EveryRunKeepsInv(states, |states| - 1);
    LogExists(s.w, s.m);
    RunsCover(states, |states| - 1);
  }

  // ---------------------------------------------------------------------------
  // The exact condition
  // ---------------------------------------------------------------------------

  /** `b` was reserved after `a`, of the other ring, had been handed over. */
  ghost predicate IsLate(states: seq<State>, a: Id, b: Id)
    requires |states| > 0
  {
    a.0 != b.0 && ReservedLate(states, |states| - 1, a, b)
  }

  /** No record was reserved after a later one of the other ring had been handed over. */
  ghost predicate NoneLate(states: seq<State>, s: State)
    requires |states| > 0 && AllExist(s.w, s.m.log)
  {
    var log := s.m.log;
    forall p, q :: 0 <= p < |log| && 0 <= q < |log| && IsLate(states, log[p], log[q]) ==>
      Time(s.w, log[p]) <= Time(s.w, log[q])
  }

  lemma {:induction false} LogGrows(states: seq<State>, k: nat, n: nat)
    requires IsRun(states) && k <= n < |states|
    ensures states[k].m.log <= states[n].m.log
    decreases n
  {
    hide IsRun, Inv, Goes;
    if k < n {
      LogGrows(states, k, n - 1);
      RunGoes(states, n - 1);
      StepGrows(states[n - 1], states[n]);
    }
  }

  lemma StepGrows(s: State, t: State)
    requires Goes(s, t)
    ensures s.m.log <= t.m.log
  {
    hide Evolves, MayHandOver;
  }

  /** What was not reserved when another record was handed over is handed over after it. */
  lemma LateIsLater(states: seq<State>, s: State, p: nat, q: nat)
    requires IsRun(states) && s == states[|states| - 1] && p < |s.m.log| && q < |s.m.log|
    requires ReservedLate(states, |states| - 1, s.m.log[p], s.m.log[q])
    ensures exists p' :: 0 <= p' < q && s.m.log[p'] == s.m.log[p]
  {
    var n := |states| - 1;
    var a, b := s.m.log[p], s.m.log[q];
    var k :| 0 <= k <= n && a in states[k].m.log && !Exists(states[k].w, b);
    EveryRunKeepsInv(states, k);
    LogGrows(states, k, n);
    hide IsRun;
    var was := states[k].m.log;
    LogExists(states[k].w, states[k].m);
    var p' :| 0 <= p' < |was| && was[p'] == a;
    assert s.m.log[p'] == a;
  }

  /** A record of the other ring that stands behind a handed over one is not earlier than it. */
  lemma BehindIsLater(w: World, m: Merger, p: nat, q: nat)
    requires MergerOk(w, m) && AllExist(w, m.log) && RingsSorted(w, m.log)
    requires p < q < |m.log| && m.log[p].0 != m.log[q].0 && Behind(w, m.log[p], m.log[q])
    ensures Time(w, m.log[p]) <= Time(w, m.log[q])
  {
    var a, b := m.log[p], m.log[q];
    var c: Id :| c.0 == b.0 && c.1 <= b.1 && Exists(w, a) && Exists(w, c) && Rec(w, c).status.Committed? && Time(w, a) <= Time(w, c);
    if c.1 < b.1 {
      NoneIsLeftOut(w, m, q, c.1);
      var r :| 0 <= r < q && m.log[..q][r] == c;
      assert m.log[r] == c;
    } else {
      assert c == b;
    }
  }

  /** In every run: what is handed over is in the order of its times if and only if what each ring hands
      over is, and no record is reserved after one of the other ring with a later time was handed over. */
  lemma SortedIff(states: seq<State>, s: State)
    requires IsRun(states) && s == states[|states| - 1]
    ensures |states| > 0 && AllExist(s.w, s.m.log)
    ensures Sorted(s.w, s.m.log) <==> RingsSorted(s.w, s.m.log) && NoneLate(states, s)
  {
    LastState(states, s);
    var log := s.m.log;
    if Sorted(s.w, log) {
      forall p, q | 0 <= p < |log| && 0 <= q < |log| && IsLate(states, log[p], log[q])
        ensures Time(s.w, log[p]) <= Time(s.w, log[q])
      {
        LateIsLater(states, s, p, q);
        var p' :| 0 <= p' < q && log[p'] == log[p];
      }
    }
    if RingsSorted(s.w, log) && NoneLate(states, s) {
      forall p, q | 0 <= p < q < |log|
        ensures Time(s.w, log[p]) <= Time(s.w, log[q])
      {
        if log[p].0 != log[q].0 {
          assert Covered(states, |states| - 1, log[p], log[q]);
          if Behind(s.w, log[p], log[q]) { BehindIsLater(s.w, s.m, p, q); }
        }
      }
    }
  }

  /** Records are reserved in the order of their times. */
  ghost predicate TimesFollow(w: World) {
    forall a: Id, b: Id {:trigger Rec(w, a), Rec(w, b)} ::
      Exists(w, a) && Exists(w, b) && Rec(w, a).reservedAt < Rec(w, b).reservedAt ==> Time(w, a) <= Time(w, b)
  }

  /** A step keeps what is reserved, and what it reserves comes after everything so far. */
  ghost predicate ReservesLater(s: State, t: State, a: Id) {
    && s.w.events <= t.w.events
    && (Exists(s.w, a) ==> Exists(t.w, a) && Rec(t.w, a).reservedAt == Rec(s.w, a).reservedAt)
    && (!Exists(s.w, a) && Exists(t.w, a) ==> Rec(t.w, a).reservedAt >= s.w.events)
  }

  lemma StepReserves(s: State, t: State, a: Id)
    requires Goes(s, t)
    ensures ReservesLater(s, t, a)
  {
    hide Moves;
    if Exists(s.w, a) { RecordStays(s.w, t.w, a); }
    if Exists(t.w, a) { RecEvolves(s.w, t.w, a); }
  }

  lemma {:induction false} RunReserves(states: seq<State>, k: nat, n: nat, a: Id)
    requires IsRun(states) && k <= n < |states|
    ensures ReservesLater(states[k], states[n], a)
    decreases n
  {
    hide IsRun, Inv, Goes;
    if k < n {
      RunReserves(states, k, n - 1, a);
      RunGoes(states, n - 1);
      StepReserves(states[n - 1], states[n], a);
    }
  }

  lemma LateWasReservedLate(states: seq<State>, s: State, a: Id, b: Id)
    requires IsRun(states) && s == states[|states| - 1] && Exists(s.w, a) && Exists(s.w, b)
    requires ReservedLate(states, |states| - 1, a, b)
    ensures Rec(s.w, a).reservedAt < Rec(s.w, b).reservedAt
  {
    var n := |states| - 1;
    var k :| 0 <= k <= n && a in states[k].m.log && !Exists(states[k].w, b);
    EveryRunKeepsInv(states, k);
    LogExists(states[k].w, states[k].m);
    RunReserves(states, k, n, b);
    RunReserves(states, k, n, a);
    assert RecordOk(states[k].w, Recs(states[k].w, a.0)[a.1]);
  }

  /** In every run in which records are reserved in the order of their times, however their commits and
      the merge interleave, they are handed over in the order of their times. */
  lemma TimesAreInOrder(states: seq<State>, s: State)
    requires IsRun(states) && s == states[|states| - 1] && TimesFollow(s.w)
    ensures AllExist(s.w, s.m.log) && Sorted(s.w, s.m.log)
  {
    LastState(states, s);
    hide IsRun, MergerOk, PcOk, AllCovered, ReservedLate, ClockAgrees;
    var log := s.m.log;
    forall p, q | 0 <= p < q < |log| && log[p].0 == log[q].0
      ensures Time(s.w, log[p]) <= Time(s.w, log[q])
    {
      RingIncreases(s.w, s.m, p, q);
      ReservedInOrder(s.w, log[p], log[q]);
    }
    forall p, q | 0 <= p < |log| && 0 <= q < |log| && IsLate(states, log[p], log[q])
      ensures Time(s.w, log[p]) <= Time(s.w, log[q])
    {
      LateWasReservedLate(states, s, log[p], log[q]);
    }
    SortedIff(states, s);
  }

  lemma ReservedInOrder(w: World, a: Id, b: Id)
    requires RecordsOk(w) && Exists(w, a) && Exists(w, b) && a.0 == b.0 && a.1 < b.1
    ensures Rec(w, a).reservedAt < Rec(w, b).reservedAt
  {
    assert Precedes(Recs(w, a.0)[a.1], Recs(w, b.0)[b.1]);
  }
}
