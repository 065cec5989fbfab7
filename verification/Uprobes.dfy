/**
Uprobes shared by processes (ebpftracer/tracer.go and containers/process.go). A uprobe on a library
is attached once, counted, and detached when nobody has used it for a while. Keys are acquired by
whoever instruments a process, handed to the process, and given back when the process is closed,
each in a step of its own: a process can be closed between any two of them.
*/
module Uprobes {

  type Key = nat
  type Link = nat
  type Pid = nat

  const IDLE_TTL: int := 300_000_000_000

  datatype Probe = Probe(link: Link, refcount: int, unusedSince: int)

  /** `closed` has every link as often as it was closed. */
  datatype Tracer = Tracer(probes: map<Key, Probe>, next: Link, closed: multiset<Link>)

  // ---------------------------------------------------------------------------
  // The tracer
  // ---------------------------------------------------------------------------

  predicate IsIdle(p: Probe, now: int) {
    p.refcount <= 0 && now - p.unusedSince >= IDLE_TTL
  }

  function Idle(t: Tracer, now: int): set<Key> {
    set k | k in t.probes && IsIdle(t.probes[k], now)
  }

  function LinksOf(t: Tracer, ks: set<Key>): set<Link>
    requires ks <= t.probes.Keys
  {
    set k | k in ks :: t.probes[k].link
  }

  function Detach(t: Tracer, ks: set<Key>): Tracer
    requires ks <= t.probes.Keys
  {
    t.(probes := t.probes - ks, closed := t.closed + multiset(LinksOf(t, ks)))
  }

  function DetachIdle(t: Tracer, now: int): Tracer {
    Detach(t, Idle(t, now))
  }

  /** One more user of a uprobe, which is attached if it is not. */
  function Count(t: Tracer, k: Key): Tracer {
    if k in t.probes then t.(probes := t.probes[k := t.probes[k].(refcount := t.probes[k].refcount + 1)])
    else t.(probes := t.probes[k := Probe(t.next, 1, 0)], next := t.next + 1)
  }

  /** `attaches` says whether attaching works. */
  function Acquire(t: Tracer, k: Key, attaches: bool, now: int): (Tracer, bool) {
    var d := DetachIdle(t, now);
    if k in d.probes || attaches then (Count(d, k), true) else (d, false)
  }

  function ReleaseOne(t: Tracer, k: Key, now: int): Tracer {
    if k !in t.probes || t.probes[k].refcount <= 0 then t
    else
      var n := t.probes[k].refcount - 1;
      t.(probes := t.probes[k := t.probes[k].(refcount := n, unusedSince := if n == 0 then now else t.probes[k].unusedSince)])
  }

  function ReleaseEach(t: Tracer, ks: seq<Key>, now: int): Tracer {
    if ks == [] then t else ReleaseOne(ReleaseEach(t, ks[..|ks| - 1], now), ks[|ks| - 1], now)
  }

  function Release(t: Tracer, ks: seq<Key>, now: int): Tracer {
    DetachIdle(ReleaseEach(t, ks, now), now)
  }

  // ---------------------------------------------------------------------------
  // Everybody together
  // ---------------------------------------------------------------------------

  /** What a process keeps of the keys it was given: uprobeKeys and closed. */
  datatype Owner = Owner(keys: seq<Key>, closed: bool)

  /** addUprobeKey: the process afterwards, and what it does not keep and has to give back. */
  function AddKey(p: Owner, k: Key): (Owner, seq<Key>) {
    if p.closed then (p, [k]) else (p.(keys := p.keys + [k]), [])
  }

  /** Close: the process afterwards, and what it has to give back. */
  function Shut(p: Owner): (Owner, seq<Key>) {
    (Owner([], true), p.keys)
  }

  /** `hands`: keys acquired and not yet given to a process; `leaving`: what processes have to give back
      and have not released yet. */
  datatype System = System(t: Tracer, hands: multiset<Key>, procs: seq<Owner>, leaving: seq<seq<Key>>)

  const EMPTY := System(Tracer(map[], 0, multiset{}), multiset{}, [], [])

  datatype Step =
    | DoAcquire(k: Key, attaches: bool)
    | DoStart
    | DoAdd(k: Key, pid: Pid)
    | DoClose(pid: Pid)
    | DoRelease(batch: nat)

  predicate Enabled(s: System, st: Step) {
    match st
    case DoAcquire(_, _) => true
    case DoStart => true
    case DoAdd(k, pid) => k in s.hands && pid < |s.procs|
    case DoClose(pid) => pid < |s.procs|
    case DoRelease(i) => i < |s.leaving|
  }

  function Without<T>(s: seq<T>, i: nat): seq<T>
    requires i < |s|
  {
    s[..i] + s[i + 1..]
  }

  /** Keys to give back, if there are any. */
  function Queued(leaving: seq<seq<Key>>, ks: seq<Key>): seq<seq<Key>> {
    if ks == [] then leaving else leaving + [ks]
  }

  function Next(s: System, st: Step, now: int): System
    requires Enabled(s, st)
  {
    match st
    case DoAcquire(k, attaches) =>
      var (t, ok) := Acquire(s.t, k, attaches, now);
      s.(t := t, hands := if ok then s.hands + multiset{k} else s.hands)
    case DoStart => s.(procs := s.procs + [Owner([], false)])
    case DoAdd(k, pid) =>
      var (p, back) := AddKey(s.procs[pid], k);
      s.(hands := s.hands - multiset{k}, procs := s.procs[pid := p], leaving := Queued(s.leaving, back))
    case DoClose(pid) =>
      var (p, back) := Shut(s.procs[pid]);
      s.(procs := s.procs[pid := p], leaving := Queued(s.leaving, back))
    case DoRelease(i) =>
      s.(t := Release(s.t, s.leaving[i], now), leaving := Without(s.leaving, i))
  }

  /** The keys all processes have. */
  function Owned(procs: seq<Owner>): multiset<Key> {
    if procs == [] then multiset{} else Owned(procs[..|procs| - 1]) + multiset(procs[|procs| - 1].keys)
  }

  function Batches(leaving: seq<seq<Key>>): multiset<Key> {
    if leaving == [] then multiset{} else Batches(leaving[..|leaving| - 1]) + multiset(leaving[|leaving| - 1])
  }

  /** The keys that are out: with whoever acquired them, with a process, or on their way back. */
  function Out(s: System): multiset<Key> {
    s.hands + Owned(s.procs) + Batches(s.leaving)
  }

  lemma OwnedSnoc(procs: seq<Owner>, p: Owner)
    ensures Owned(procs + [p]) == Owned(procs) + multiset(p.keys)
  {
    assert (procs + [p])[..|procs|] == procs;
  }

  lemma SumsMove(x: multiset<Key>, a: multiset<Key>, y: multiset<Key>, b: multiset<Key>, c: multiset<Key>)
    requires x + a == y + b
    ensures (x + c) + a == (y + c) + b
  {
    assert (x + c) + a == (x + a) + c && (y + c) + b == (y + b) + c;
  }

  lemma {:induction false} OwnedUpdate(procs: seq<Owner>, i: nat, p: Owner)
    requires i < |procs|
    ensures Owned(procs[i := p]) + multiset(procs[i].keys) == Owned(procs) + multiset(p.keys)
  {
    var n := |procs| - 1;
    if i == n {
      assert procs[i := p][..n] == procs[..n];
    } else {
      OwnedUpdate(procs[..n], i, p);
      assert procs[i := p][..n] == procs[..n][i := p];
      SumsMove(Owned(procs[..n][i := p]), multiset(procs[i].keys), Owned(procs[..n]), multiset(p.keys), multiset(procs[n].keys));
    }
  }

  lemma BatchesSnoc(leaving: seq<seq<Key>>, ks: seq<Key>)
    ensures Batches(leaving + [ks]) == Batches(leaving) + multiset(ks)
  {
    assert (leaving + [ks])[..|leaving|] == leaving;
  }

  lemma BatchesQueued(leaving: seq<seq<Key>>, ks: seq<Key>)
    ensures Batches(Queued(leaving, ks)) == Batches(leaving) + multiset(ks)
  {
    hide Batches;
    if ks != [] { BatchesSnoc(leaving, ks); }
  }

  lemma WithoutSnoc<T>(s: seq<T>, i: nat, last: T)
    requires i < |s|
    ensures Without(s + [last], i) == Without(s, i) + [last]
  {
  }

  lemma {:induction false} BatchesWithout(leaving: seq<seq<Key>>, i: nat)
    requires i < |leaving|
    ensures Batches(leaving) == Batches(Without(leaving, i)) + multiset(leaving[i])
  {
    hide Batches, Without;
    var n := |leaving| - 1;
    var init, last := leaving[..n], leaving[n];
    assert leaving == init + [last];
    BatchesSnoc(init, last);
    if i == n {
      WithoutLast(init, last);
    } else {
      BatchesWithout(init, i);
      WithoutSnoc(init, i, last);
      BatchesSnoc(Without(init, i), last);
      var x, a, b := Batches(Without(init, i)), multiset(leaving[i]), multiset(last);
      assert (x + a) + b == (x + b) + a;
    }
  }

  lemma WithoutLast<T>(s: seq<T>, last: T)
    ensures Without(s + [last], |s|) == s
  {
  }

  // ---------------------------------------------------------------------------
  // What every step keeps
  // ---------------------------------------------------------------------------

  /** The count of a uprobe, 0 when it is not attached. */
  function Refcount(t: Tracer, k: Key): int {
    if k in t.probes then t.probes[k].refcount else 0
  }

  /** The count of a uprobe is the number of its keys that are out. */
  ghost predicate Counted(t: Tracer, out: multiset<Key>) {
    forall k :: Refcount(t, k) == out[k]
  }

  /** A link is closed once, after its uprobe is gone. */
  ghost predicate LinksOk(t: Tracer) {
    && (forall k :: k in t.probes ==> t.probes[k].link < t.next && t.closed[t.probes[k].link] == 0)
    && (forall k, m :: k in t.probes && m in t.probes && t.probes[k].link == t.probes[m].link ==> k == m)
    && (forall l :: t.closed[l] <= 1 && (t.closed[l] > 0 ==> l < t.next))
  }

  /** No key is left with a closed process. */
  ghost predicate ClosedAreEmpty(procs: seq<Owner>) {
    forall i :: 0 <= i < |procs| && procs[i].closed ==> procs[i].keys == []
  }

  ghost predicate Ok(s: System) {
    Counted(s.t, Out(s)) && LinksOk(s.t) && ClosedAreEmpty(s.procs)
  }

  lemma DetachKeeps(t: Tracer, out: multiset<Key>, now: int)
    requires Counted(t, out) && LinksOk(t)
    ensures Counted(DetachIdle(t, now), out) && LinksOk(DetachIdle(t, now))
  {
    DetachKeepsLinks(t, now);
    forall k
      ensures Refcount(DetachIdle(t, now), k) == Refcount(t, k)
    {
      assert Refcount(t, k) == out[k];
    }
  }

  lemma CountKeeps(t: Tracer, out: multiset<Key>, k: Key)
    requires Counted(t, out) && LinksOk(t)
    ensures Counted(Count(t, k), out + multiset{k}) && LinksOk(Count(t, k))
  {
    CountKeepsLinks(t, k);
    forall m
      ensures Refcount(Count(t, k), m) == (out + multiset{k})[m]
    {
      assert Refcount(t, m) == out[m];
    }
  }

  lemma CountKeepsLinks(t: Tracer, k: Key)
    requires LinksOk(t)
    ensures LinksOk(Count(t, k))
  {
    if k !in t.probes {
      assert t.closed[t.next] == 0;
    }
  }

  lemma AcquireKeeps(t: Tracer, out: multiset<Key>, k: Key, attaches: bool, now: int)
    requires Counted(t, out) && LinksOk(t)
    ensures var (u, ok) := Acquire(t, k, attaches, now); LinksOk(u) && Counted(u, if ok then out + multiset{k} else out)
  {
    hide Counted, LinksOk, DetachIdle, Count;
    DetachKeeps(t, out, now);
    CountKeeps(DetachIdle(t, now), out, k);
  }

  lemma ReleaseOneKeeps(t: Tracer, out: multiset<Key>, k: Key, now: int)
    requires Counted(t, out) && LinksOk(t) && k in out
    ensures Counted(ReleaseOne(t, k, now), out - multiset{k}) && LinksOk(ReleaseOne(t, k, now))
  {
    ReleaseKeepsLinks(t, k, now);
    forall m
      ensures Refcount(ReleaseOne(t, k, now), m) == (out - multiset{k})[m]
    {
      assert Refcount(t, m) == out[m] && Refcount(t, k) == out[k];
    }
  }

  lemma {:induction false} ReleaseEachKeeps(t: Tracer, out: multiset<Key>, ks: seq<Key>, now: int)
    requires Counted(t, out) && LinksOk(t) && multiset(ks) <= out
    ensures var u := ReleaseEach(t, ks, now); Counted(u, out - multiset(ks)) && LinksOk(u)
    decreases |ks|
  {
    hide Counted, LinksOk, ReleaseOne;
    if ks == [] {
      assert out - multiset(ks) == out;
    } else {
      var i, k := |ks| - 1, ks[|ks| - 1];
      assert ks == ks[..i] + [k];
      assert multiset(ks) == multiset(ks[..i]) + multiset{k};
      ReleaseEachKeeps(t, out, ks[..i], now);
      var rest := out - multiset(ks[..i]);
      assert rest[k] >= 1;
      assert rest - multiset{k} == out - multiset(ks);
      ReleaseOneKeeps(ReleaseEach(t, ks[..i], now), rest, k, now);
    }
  }

  lemma ReleaseKeeps(t: Tracer, out: multiset<Key>, ks: seq<Key>, now: int)
    requires Counted(t, out) && LinksOk(t) && multiset(ks) <= out
    ensures Counted(Release(t, ks, now), out - multiset(ks)) && LinksOk(Release(t, ks, now))
  {
    hide Counted, LinksOk, ReleaseEach, DetachIdle;
    ReleaseEachKeeps(t, out, ks, now);
    DetachKeeps(ReleaseEach(t, ks, now), out - multiset(ks), now);
  }

  /** What a step adds to the keys that are out, and what it takes from them. */
  function Gained(s: System, st: Step, now: int): multiset<Key> {
    if st.DoAcquire? && Acquire(s.t, st.k, st.attaches, now).1 then multiset{st.k} else multiset{}
  }

  function Lost(s: System, st: Step): multiset<Key> {
    if st.DoRelease? && st.batch < |s.leaving| then multiset(s.leaving[st.batch]) else multiset{}
  }

  /** A key that a process is given is with the process or on its way back, and one on its way back goes
      with its release. */
  lemma StepMovesKeys(s: System, st: Step, now: int)
    requires Enabled(s, st)
    ensures Lost(s, st) <= Out(s) && Out(Next(s, st, now)) == Out(s) - Lost(s, st) + Gained(s, st, now)
  {
    hide Out, Next;
    assert Out(s) - multiset{} + multiset{} == Out(s);
    match st
    case DoAcquire(k, attaches) => AcquireAddsKey(s, k, attaches, now);
    case DoStart => StartMovesNothing(s, now);
    case DoAdd(k, pid) => AddMovesKey(s, k, pid, now);
    case DoClose(pid) => CloseMovesKeys(s, pid, now);
    case DoRelease(i) => ReleaseTakesKeys(s, i, now);
  }

  lemma AcquireAddsKey(s: System, k: Key, attaches: bool, now: int)
    ensures var st := DoAcquire(k, attaches); Out(Next(s, st, now)) == Out(s) - multiset{} + Gained(s, st, now)
  {
    hide Acquire, Owned, Batches;
  }

  lemma StartMovesNothing(s: System, now: int)
    ensures Out(Next(s, DoStart, now)) == Out(s)
  {
    hide Owned, Batches;
    OwnedSnoc(s.procs, Owner([], false));
  }

  lemma ReleaseTakesKeys(s: System, i: nat, now: int)
    requires i < |s.leaving|
    ensures var ks := multiset(s.leaving[i]); ks <= Out(s) && Out(Next(s, DoRelease(i), now)) == Out(s) - ks + multiset{}
  {
    hide Release, Owned, Batches;
    BatchesWithout(s.leaving, i);
  }

  lemma AddMovesKey(s: System, k: Key, pid: Pid, now: int)
    requires Enabled(s, DoAdd(k, pid))
    ensures Out(Next(s, DoAdd(k, pid), now)) == Out(s)
  {
    hide Owned, Batches, Queued;
    var had := s.procs[pid];
    var (p, back) := AddKey(had, k);
    OwnedUpdate(s.procs, pid, p);
    BatchesQueued(s.leaving, back);
    assert multiset(p.keys) + multiset(back) == multiset(had.keys) + multiset{k};
    KeysMove(s.hands, multiset{k}, Owned(s.procs), Owned(s.procs[pid := p]), multiset(had.keys), multiset(p.keys), multiset(back),
             Batches(s.leaving));
  }

  lemma CloseMovesKeys(s: System, pid: Pid, now: int)
    requires Enabled(s, DoClose(pid))
    ensures Out(Next(s, DoClose(pid), now)) == Out(s)
  {
    hide Owned, Batches, Queued;
    var had := s.procs[pid];
    var (p, back) := Shut(had);
    OwnedUpdate(s.procs, pid, p);
    BatchesQueued(s.leaving, back);
    KeysMove(s.hands, multiset{}, Owned(s.procs), Owned(s.procs[pid := p]), multiset(had.keys), multiset(p.keys), multiset(back),
             Batches(s.leaving));
    assert s.hands - multiset{} == s.hands;
  }

  /** Keys ks leave the hands; a process had a and has a', and b is on its way back. */
  lemma KeysMove(hands: multiset<Key>, ks: multiset<Key>, x: multiset<Key>, x': multiset<Key>, a: multiset<Key>, a': multiset<Key>,
                 b: multiset<Key>, y: multiset<Key>)
    requires ks <= hands && x' + a == x + a' && a' + b == a + ks
    ensures (hands - ks) + x' + (y + b) == hands + x + y
  {
    forall m
      ensures ((hands - ks) + x' + (y + b))[m] == (hands + x + y)[m]
    {
      assert (x' + a)[m] == (x + a')[m] && (a' + b)[m] == (a + ks)[m];
    }
  }

  /** Every step keeps the counts right, whoever takes it: a key is never given back that is not out. */
  lemma StepKeeps(s: System, st: Step, now: int)
    requires Ok(s) && Enabled(s, st)
    ensures Ok(Next(s, st, now))
  {
    hide Counted, LinksOk, Out, Acquire, Release;
    StepMovesKeys(s, st, now);
    var out := Out(s);
    assert out - multiset{} == out && out + multiset{} == out;
    if st.DoRelease? {
      var ks := multiset(s.leaving[st.batch]);
      assert (out - ks) + multiset{} == out - ks;
    }
    match st
    case DoAcquire(k, attaches) => AcquireKeeps(s.t, out, k, attaches, now);
    case DoRelease(i) => ReleaseKeeps(s.t, out, s.leaving[i], now);
    case _ =>
  }

  // ---------------------------------------------------------------------------
  // Runs
  // ---------------------------------------------------------------------------

  ghost predicate Takes(s: System, st: Step, now: int, n: System) {
    Enabled(s, st) && n == Next(s, st, now)
  }

  /** The states of a run, with the steps between them and the times they are taken at. */
  ghost predicate IsRun(ss: seq<System>, steps: seq<Step>, times: seq<int>) {
    && |ss| == |steps| + 1 && |times| == |steps| && ss[0] == EMPTY
    && (forall i {:trigger steps[i]} :: 0 <= i < |steps| ==> Takes(ss[i], steps[i], times[i], ss[i + 1]))
    && (forall i, j :: 0 <= i < j < |times| ==> times[i] <= times[j])
  }

  lemma RunTakes(ss: seq<System>, steps: seq<Step>, times: seq<int>, i: nat)
    requires IsRun(ss, steps, times) && i < |steps|
    ensures |ss| == |steps| + 1 && |times| == |steps| && Takes(ss[i], steps[i], times[i], ss[i + 1])
  {
    hide Takes;
    assert steps[i] == steps[i];
  }

  lemma {:induction false} EveryRunKeeps(ss: seq<System>, steps: seq<Step>, times: seq<int>, n: nat)
    requires IsRun(ss, steps, times) && n <= |steps|
    ensures |ss| == |steps| + 1 && Ok(ss[n])
  {
    hide Ok, Enabled, Next;
    if n == 0 {
      EmptyIsOk();
    } else {
      EveryRunKeeps(ss, steps, times, n - 1);
      RunTakes(ss, steps, times, n - 1);
      StepKeeps(ss[n - 1], steps[n - 1], times[n - 1]);
    }
  }

  lemma EmptyIsOk()
    ensures Ok(EMPTY)
  {
  }

  /** How often a key was acquired in the first n steps. */
  ghost function Acquired(ss: seq<System>, steps: seq<Step>, times: seq<int>, k: Key, n: nat): nat
    requires n <= |steps| <= |ss| && |steps| <= |times|
  {
    if n == 0 then 0 else Acquired(ss, steps, times, k, n - 1) + Gained(ss[n - 1], steps[n - 1], times[n - 1])[k]
  }

  /** How often it was released. */
  ghost function Released(ss: seq<System>, steps: seq<Step>, k: Key, n: nat): nat
    requires n <= |steps| <= |ss|
  {
    if n == 0 then 0 else Released(ss, steps, k, n - 1) + Lost(ss[n - 1], steps[n - 1])[k]
  }

  /** Every key is given back as often as it was acquired, once it is no longer out: in every state of
      every run the count the tracer has of a uprobe is the number of its keys that are out, and that is
      how often it was acquired and not yet released. */
  lemma {:induction false} KeysAreReturnedOnce(ss: seq<System>, steps: seq<Step>, times: seq<int>, k: Key, n: nat)
    requires IsRun(ss, steps, times) && n <= |steps|
    ensures |ss| == |steps| + 1 && |times| == |steps| && Refcount(ss[n].t, k) == Out(ss[n])[k]
    ensures Acquired(ss, steps, times, k, n) == Refcount(ss[n].t, k) + Released(ss, steps, k, n)
  {
    hide Ok, Enabled, Next, Out, Refcount, Gained, Lost, IsRun;
    if n == 0 {
      NothingIsOut(ss, steps, times, k);
    } else {
      KeysAreReturnedOnce(ss, steps, times, k, n - 1);
      RunTakes(ss, steps, times, n - 1);
      StepMovesKeys(ss[n - 1], steps[n - 1], times[n - 1]);
      EveryRunKeeps(ss, steps, times, n);
      CountIsOut(ss[n], k);
    }
  }

  lemma NothingIsOut(ss: seq<System>, steps: seq<Step>, times: seq<int>, k: Key)
    requires IsRun(ss, steps, times)
    ensures |ss| == |steps| + 1 && |times| == |steps| && Refcount(ss[0].t, k) == Out(ss[0])[k] == 0
  {
  }

  lemma CountIsOut(s: System, k: Key)
    requires Ok(s)
    ensures Refcount(s.t, k) == Out(s)[k]
  {
  }

  /** When every process is closed and nothing is under way, no uprobe is counted as used. */
  lemma NothingIsLeftBehind(ss: seq<System>, steps: seq<Step>, times: seq<int>, k: Key)
    requires IsRun(ss, steps, times)
    requires var s := ss[|steps|]; s.hands == multiset{} && s.leaving == [] && forall i :: 0 <= i < |s.procs| ==> s.procs[i].closed
    ensures |ss| == |steps| + 1 && |times| == |steps|
    ensures Refcount(ss[|steps|].t, k) == 0 && Acquired(ss, steps, times, k, |steps|) == Released(ss, steps, k, |steps|)
  {
    var s := ss[|steps|];
    EveryRunKeeps(ss, steps, times, |steps|);
    KeysAreReturnedOnce(ss, steps, times, k, |steps|);
    NobodyOwns(s.procs);
  }

  lemma {:induction false} NobodyOwns(procs: seq<Owner>)
    requires forall i :: 0 <= i < |procs| ==> procs[i].keys == []
    ensures Owned(procs) == multiset{}
  {
    if procs != [] { NobodyOwns(procs[..|procs| - 1]); }
  }

  // ---------------------------------------------------------------------------
  // When links are closed
  // ---------------------------------------------------------------------------

  /** The uprobe has been in use at that time or later. */
  ghost predicate UsedSince(t: Tracer, k: Key, link: Link, since: int) {
    k in t.probes && t.probes[k].link == link && (t.probes[k].refcount > 0 || t.probes[k].unusedSince >= since)
  }

  lemma DetachSpares(t: Tracer, k: Key, link: Link, since: int, now: int)
    requires UsedSince(t, k, link, since) && now - since < IDLE_TTL
    ensures UsedSince(DetachIdle(t, now), k, link, since)
  {
  }

  lemma {:induction false} ReleaseSpares(t: Tracer, ks: seq<Key>, k: Key, link: Link, since: int, now: int)
    requires UsedSince(t, k, link, since) && since <= now
    ensures UsedSince(ReleaseEach(t, ks, now), k, link, since)
  {
    if ks != [] {
      ReleaseSpares(t, ks[..|ks| - 1], k, link, since, now);
    }
  }

  lemma StepSpares(s: System, st: Step, k: Key, link: Link, since: int, now: int)
    requires Enabled(s, st) && UsedSince(s.t, k, link, since) && since <= now && now - since < IDLE_TTL
    ensures UsedSince(Next(s, st, now).t, k, link, since)
  {
    match st
    case DoAcquire(m, attaches) =>
      DetachSpares(s.t, k, link, since, now);
      hide DetachIdle;
    case DoRelease(i) =>
      ReleaseSpares(s.t, s.leaving[i], k, link, since, now);
      DetachSpares(ReleaseEach(s.t, s.leaving[i], now), k, link, since, now);
    case _ =>
  }

  lemma {:induction false} StaysAttached(ss: seq<System>, steps: seq<Step>, times: seq<int>, i: nat, j: nat, k: Key)
    requires IsRun(ss, steps, times) && i <= j <= |steps| && k in Out(ss[i])
    requires i < j ==> times[j - 1] - times[i] < IDLE_TTL
    ensures |ss| == |steps| + 1 && k in ss[i].t.probes
    ensures i < j ==> UsedSince(ss[j].t, k, ss[i].t.probes[k].link, times[i])
    decreases j
  {
    EveryRunKeeps(ss, steps, times, i);
    assert Refcount(ss[i].t, k) == Out(ss[i])[k] > 0;
    var link := ss[i].t.probes[k].link;
    if i < j {
      assert UsedSince(ss[i].t, k, link, times[i]);
      if i < j - 1 {
        assert times[j - 2] <= times[j - 1];
        StaysAttached(ss, steps, times, i, j - 1, k);
      }
      assert times[i] <= times[j - 1];
      RunTakes(ss, steps, times, j - 1);
      hide IsRun, Ok, UsedSince;
      StepSpares(ss[j - 1], steps[j - 1], k, link, times[i], times[j - 1]);
    }
  }

  /** In every run, the links of a key somebody holds are not closed within five minutes, whatever
      happens to the key after that. */
  lemma HeldLinksStayOpen(ss: seq<System>, steps: seq<Step>, times: seq<int>, i: nat, j: nat, k: Key)
    requires IsRun(ss, steps, times) && i <= j <= |steps| && k in Out(ss[i])
    requires i < j ==> times[j - 1] - times[i] < IDLE_TTL
    ensures |ss| == |steps| + 1
    ensures k in ss[i].t.probes && k in ss[j].t.probes && ss[j].t.probes[k].link == ss[i].t.probes[k].link
    ensures ss[j].t.closed[ss[i].t.probes[k].link] == 0
  {
    StaysAttached(ss, steps, times, i, j, k);
    EveryRunKeeps(ss, steps, times, j);
  }

  // ---------------------------------------------------------------------------
  // The code
  // ---------------------------------------------------------------------------

  lemma LinksOfMore(t: Tracer, ks: set<Key>, k: Key)
    requires LinksOk(t) && ks <= t.probes.Keys && k in t.probes && k !in ks
    ensures var l := t.probes[k].link; LinksOf(t, ks + {k}) == LinksOf(t, ks) + {l} && l !in LinksOf(t, ks)
  {
  }

  lemma DetachMore(t: Tracer, ks: set<Key>, k: Key)
    requires LinksOk(t) && ks <= t.probes.Keys && k in t.probes && k !in ks
    ensures var d := Detach(t, ks);
      Detach(t, ks + {k}) == d.(probes := d.probes - {k}, closed := d.closed + multiset{t.probes[k].link})
  {
    hide LinksOk, LinksOf;
    var l := t.probes[k].link;
    LinksOfMore(t, ks, k);
    assert multiset(LinksOf(t, ks) + {l}) == multiset(LinksOf(t, ks)) + multiset{l};
    assert t.probes - (ks + {k}) == t.probes - ks - {k};
  }

  function DetachOne(t: Tracer, k: Key, now: int): Tracer {
    if k in t.probes && IsIdle(t.probes[k], now) then t.(probes := t.probes - {k}, closed := t.closed + multiset{t.probes[k].link}) else t
  }

  ghost predicate Looking(t: Tracer, done: set<Key>, todo: set<Key>) {
    done !! todo && done + todo == t.probes.Keys
  }

  /** What is left when these uprobes have been looked at. */
  ghost function Looked(t: Tracer, done: set<Key>, now: int): Tracer {
    Detach(t, Idle(t, now) * done)
  }

  lemma LookedNone(t: Tracer, now: int)
    ensures Looked(t, {}, now) == t && Looking(t, {}, t.probes.Keys)
  {
    assert Idle(t, now) * {} == {};
    assert LinksOf(t, {}) == {};
  }

  lemma LookedNext(t: Tracer, done: set<Key>, todo: set<Key>, k: Key, now: int)
    requires LinksOk(t) && Looking(t, done, todo) && k in todo
    ensures Looking(t, done + {k}, todo - {k}) && k in Looked(t, done, now).probes
    ensures Looked(t, done + {k}, now) == DetachOne(Looked(t, done, now), k, now)
  {
    var idle := Idle(t, now);
    if k in idle {
      assert idle * (done + {k}) == idle * done + {k};
      DetachMore(t, idle * done, k);
    } else {
      assert idle * (done + {k}) == idle * done;
    }
  }

  lemma LookedAll(t: Tracer, done: set<Key>, now: int)
    requires Looking(t, done, {})
    ensures Looked(t, done, now) == DetachIdle(t, now)
  {
    assert Idle(t, now) * done == Idle(t, now);
  }

  class SharedUprobes {
    var probes: map<Key, Probe>
    var next: Link
    var closed: multiset<Link>

    function View(): Tracer
      reads this
    {
      Tracer(probes, next, closed)
    }

    constructor ()
      ensures View() == EMPTY.t && LinksOk(View())
    {
      probes, next, closed := map[], 0, multiset{};
    }

    method DetachIfIdle(k: Key, now: int)
      requires k in probes
      modifies this`probes, this`closed
      ensures View() == DetachOne(old(View()), k, now)
    {
      if probes[k].refcount > 0 || now - probes[k].unusedSince < IDLE_TTL {
        return;
      }
      closed := closed + multiset{probes[k].link};
      probes := probes - {k};
    }

    method DetachIdleUprobes(now: int)
      requires LinksOk(View())
      modifies this`probes, this`closed
      ensures View() == DetachIdle(old(View()), now) && LinksOk(View())
    {
      hide LinksOk, Looked, DetachOne, DetachIdle, Looking;
      ghost var t := View();
      DetachKeepsLinks(t, now);
      LookedNone(t, now);
      var todo := probes.Keys;
      ghost var done: set<Key> := {};
      while todo != {}
        invariant Looking(t, done, todo) && View() == Looked(t, done, now)
      {
        var k :| k in todo;
        LookedNext(t, done, todo, k, now);
        DetachIfIdle(k, now);
        todo := todo - {k};
        done := done + {k};
      }
      LookedAll(t, done, now);
    }

    method AcquireUprobe(k: Key, attaches: bool, now: int) returns (ok: bool)
      requires LinksOk(View())
      modifies this
      ensures (View(), ok) == Acquire(old(View()), k, attaches, now) && LinksOk(View())
    {
      hide LinksOk, DetachIdle;
      DetachIdleUprobes(now);
      CountKeepsLinks(View(), k);
      if k in probes {
        probes := probes[k := probes[k].(refcount := probes[k].refcount + 1)];
        return true;
      }
      if !attaches {
        return false;
      }
      probes := probes[k := Probe(next, 1, 0)];
      next := next + 1;
      ok := true;
    }

    method ReleaseUprobes(now: int, keys: seq<Key>)
      requires LinksOk(View())
      modifies this
      ensures View() == Release(old(View()), keys, now) && LinksOk(View())
    {
      hide LinksOk, DetachIdle;
      for i := 0 to |keys|
        invariant View() == ReleaseEach(old(View()), keys[..i], now) && LinksOk(View())
      {
        assert keys[..i + 1][..i] == keys[..i];
        var k := keys[i];
        ReleaseKeepsLinks(View(), k, now);
        if k in probes && probes[k].refcount > 0 {
          var p := probes[k].(refcount := probes[k].refcount - 1);
          if p.refcount == 0 {
            p := p.(unusedSince := now);
          }
          probes := probes[k := p];
        }
      }
      assert keys[..|keys|] == keys;
      DetachIdleUprobes(now);
    }
  }

  lemma DetachKeepsLinks(t: Tracer, now: int)
    requires LinksOk(t)
    ensures LinksOk(DetachIdle(t, now))
  {
  }

  lemma ReleaseKeepsLinks(t: Tracer, k: Key, now: int)
    requires LinksOk(t)
    ensures LinksOk(ReleaseOne(t, k, now))
  {
  }

  /** The tracer after a process gave keys back: without keys nothing is released. */
  function GiveBack(t: Tracer, ks: seq<Key>, now: int): Tracer {
    if ks == [] then t else Release(t, ks, now)
  }

  /** The keys a process owns. A key that comes too late is given back. */
  class Process {
    const uprobes: SharedUprobes
    var keys: seq<Key>
    var closed: bool

    function View(): Owner
      reads this
    {
      Owner(keys, closed)
    }

    constructor (uprobes: SharedUprobes)
      ensures this.uprobes == uprobes && View() == Owner([], false)
    {
      this.uprobes, keys, closed := uprobes, [], false;
    }

    method AddUprobeKey(k: Key, now: int)
      requires LinksOk(uprobes.View())
      modifies this`keys, uprobes
      ensures View() == AddKey(old(View()), k).0 && LinksOk(uprobes.View())
      ensures uprobes.View() == GiveBack(old(uprobes.View()), AddKey(old(View()), k).1, now)
    {
      if closed {
        uprobes.ReleaseUprobes(now, [k]);
        return;
      }
      keys := keys + [k];
    }

    /** What was owned is given back, and nothing is owned any more. */
    method Close(now: int)
      requires LinksOk(uprobes.View())
      modifies this, uprobes
      ensures View() == Shut(old(View())).0 && LinksOk(uprobes.View())
      ensures uprobes.View() == GiveBack(old(uprobes.View()), Shut(old(View())).1, now)
    {
      closed := true;
      var ks := keys;
      keys := [];
      if |ks| > 0 {
        uprobes.ReleaseUprobes(now, ks);
      }
    }
  }
}
