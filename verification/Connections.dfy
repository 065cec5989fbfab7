/**
The connections of a container and the three indexes over them (containers/closed_connections.go and
containers/container.go): by their addresses, by process and file descriptor, and by those and the
time stamp that tells apart the connections an fd has had. Connections live in a store and are named
by a number that is never used again.
*/
module Connections {
  import opened Wrappers

  type Uid = nat
  type Addr = nat
  datatype PidFd = PidFd(pid: nat, fd: nat)
  datatype PidFdTs = PidFdTs(at: PidFd, ts: nat)

  const GRACE: int := 5_000_000_000

  /** `addr` stands for the two addresses. A connection without a stamp has ts 0. */
  datatype Conn = Conn(addr: Addr, at: PidFd, ts: nat, closed: Option<int>)

  datatype Table = Table(conns: map<Uid, Conn>, byAddr: map<Addr, Uid>, byPidFd: map<PidFd, Uid>, byTs: map<PidFdTs, Uid>, next: Uid)

  const EMPTY := Table(map[], map[], map[], map[], 0)

  function KeyOf(c: Conn): PidFdTs {
    PidFdTs(c.at, c.ts)
  }

  predicate IsOpen(t: Table, u: Uid) {
    u in t.conns && t.conns[u].closed.None?
  }

  /** Closed longer ago than that. */
  predicate Expired(t: Table, u: Uid, now: int, after: int) {
    u in t.conns && t.conns[u].closed.Some? && now - t.conns[u].closed.value > after
  }

  function MarkClosed(conns: map<Uid, Conn>, u: Uid, now: int): map<Uid, Conn>
    requires u in conns
  {
    conns[u := conns[u].(closed := Some(now))]
  }

  function Without<K>(m: map<K, Uid>, us: set<Uid>): map<K, Uid> {
    map k | k in m && m[k] !in us :: m[k]
  }

  // ---------------------------------------------------------------------------
  // Events
  // ---------------------------------------------------------------------------

  /** A new connection, in all its indexes. */
  function Add(t: Table, c: Conn): Table {
    Table(t.conns[t.next := c], t.byAddr[c.addr := t.next], t.byPidFd[c.at := t.next],
          if c.ts != 0 then t.byTs[KeyOf(c) := t.next] else t.byTs, t.next + 1)
  }

  /** The owner of the fd, if there is one, is closed. */
  function Displace(t: Table, at: PidFd, now: int): Table {
    if at in t.byPidFd && t.byPidFd[at] in t.conns then t.(conns := MarkClosed(t.conns, t.byPidFd[at], now)) else t
  }

  function Open(t: Table, addr: Addr, at: PidFd, ts: nat, now: int): Table {
    Add(Displace(t, at, now), Conn(addr, at, ts, None))
  }

  function Close(t: Table, at: PidFd, ts: nat, now: int): Table {
    if at !in t.byPidFd || !IsOpen(t, t.byPidFd[at]) then t
    else
      var c := t.conns[t.byPidFd[at]];
      if c.ts != 0 && c.ts != ts then t else t.(conns := MarkClosed(t.conns, t.byPidFd[at], now))
  }

  /** The connection an outbound event is observed on. */
  function Lookup(t: Table, at: PidFd, ts: nat): Option<Uid> {
    var now := if at in t.byPidFd then Some(t.byPidFd[at]) else None;
    var wrong := now.None? || (ts != 0 && TsOf(t, now.value) != ts);
    var u := if wrong && ts != 0 && PidFdTs(at, ts) in t.byTs then Some(t.byTs[PidFdTs(at, ts)]) else now;
    if u.None? || (ts != 0 && TsOf(t, u.value) != ts) then None else u
  }

  function TsOf(t: Table, u: Uid): nat {
    if u in t.conns then t.conns[u].ts else 0
  }

  // ---------------------------------------------------------------------------
  // Collection
  // ---------------------------------------------------------------------------

  function Forget(t: Table, us: set<Uid>): Table {
    t.(byAddr := Without(t.byAddr, us), byPidFd := Without(t.byPidFd, us), byTs := Without(t.byTs, us))
  }

  predicate HasAddress(t: Table, u: Uid) {
    u in t.conns && t.conns[u].addr in t.byAddr && t.byAddr[t.conns[u].addr] == u
  }

  function ExpiredByAddress(t: Table, now: int): set<Uid> {
    set u | u in t.byAddr.Values && Expired(t, u, now, GRACE)
  }

  /** Connections whose addresses a newer one has taken. */
  function Superseded(t: Table): set<Uid> {
    set u | u in t.byTs.Values && !HasAddress(t, u)
  }

  function CloseAll(t: Table, us: set<Uid>, now: int): Table {
    t.(conns := map u | u in t.conns :: if u in us && t.conns[u].closed.None? then t.conns[u].(closed := Some(now)) else t.conns[u])
  }

  function ExpiredAmong(t: Table, us: set<Uid>, now: int): set<Uid> {
    set u | u in us && Expired(t, u, now, GRACE)
  }

  /** gcClosedConnections: first what has an address, then what has lost it. */
  function GcClosed(t: Table, now: int): Table {
    var a := Forget(t, ExpiredByAddress(t, now));
    var b := CloseAll(a, Superseded(a), now);
    Forget(b, ExpiredAmong(b, Superseded(a), now))
  }

  /** The connection part of gc: what is not established any more is dropped, and what was closed long
      ago, with the entry of the time stamp whoever it belongs to. */
  function Stale(t: Table, now: int, interval: int, established: set<Addr>): set<Uid> {
    set k | k in t.byAddr && (k !in established || Expired(t, t.byAddr[k], now, interval)) :: t.byAddr[k]
  }

  function Gc(t: Table, now: int, interval: int, established: set<Addr>): Table {
    var us := Stale(t, now, interval, established);
    var keys := set u | u in us && u in t.conns && t.conns[u].ts != 0 :: KeyOf(t.conns[u]);
    t.(byAddr := Without(t.byAddr, us), byPidFd := Without(t.byPidFd, us), byTs := t.byTs - keys)
  }

  // ---------------------------------------------------------------------------
  // What every event keeps
  // ---------------------------------------------------------------------------

  /** Connections are indexed under what they are. */
  ghost predicate Indexed(t: Table) {
    && (forall u :: u in t.conns ==> u < t.next)
    && (forall k :: k in t.byAddr ==> t.byAddr[k] in t.conns && t.conns[t.byAddr[k]].addr == k)
    && (forall k :: k in t.byPidFd ==> t.byPidFd[k] in t.conns && t.conns[t.byPidFd[k]].at == k)
    && (forall k :: k in t.byTs ==> t.byTs[k] in t.conns && KeyOf(t.conns[t.byTs[k]]) == k && k.ts != 0)
  }

  /** A stamped connection that owns its fd is found by its stamp too. */
  ghost predicate Stamped(t: Table) {
    forall k :: k in t.byPidFd && TsOf(t, t.byPidFd[k]) != 0 ==>
      PidFdTs(k, TsOf(t, t.byPidFd[k])) in t.byTs && t.byTs[PidFdTs(k, TsOf(t, t.byPidFd[k]))] == t.byPidFd[k]
  }

  /** A stamp belongs to one connection. */
  ghost predicate OneEach(t: Table) {
    forall u, v :: u in t.conns && v in t.conns && KeyOf(t.conns[u]) == KeyOf(t.conns[v]) && t.conns[u].ts != 0 ==> u == v
  }

  ghost predicate Ok(t: Table) {
    Indexed(t) && Stamped(t) && OneEach(t)
  }

  /** No connection had that key before. */
  ghost predicate FreshKey(t: Table, at: PidFd, ts: nat) {
    ts != 0 ==> forall u :: u in t.conns ==> KeyOf(t.conns[u]) != PidFdTs(at, ts)
  }

  /** What a change to the store may not touch. */
  ghost predicate SameButClosed(a: map<Uid, Conn>, b: map<Uid, Conn>) {
    a.Keys == b.Keys && forall u :: u in a ==> b[u] == a[u].(closed := b[u].closed)
  }

  lemma StoreKeeps(t: Table, conns: map<Uid, Conn>)
    requires Ok(t) && SameButClosed(t.conns, conns)
    ensures Ok(t.(conns := conns))
  {
  }

  lemma AddKeeps(t: Table, c: Conn)
    requires Ok(t) && FreshKey(t, c.at, c.ts) && c.closed.None?
    ensures Ok(Add(t, c))
  {
    var n := Add(t, c);
    assert t.next !in t.conns;
    assert Indexed(n);
    assert OneEach(n);
    forall k | k in n.byPidFd && TsOf(n, n.byPidFd[k]) != 0
      ensures PidFdTs(k, TsOf(n, n.byPidFd[k])) in n.byTs && n.byTs[PidFdTs(k, TsOf(n, n.byPidFd[k]))] == n.byPidFd[k]
    {
      if k != c.at {
        assert TsOf(t, t.byPidFd[k]) != 0;
      }
    }
  }

  lemma OpenKeeps(t: Table, addr: Addr, at: PidFd, ts: nat, now: int)
    requires Ok(t) && FreshKey(t, at, ts)
    ensures Ok(Open(t, addr, at, ts, now))
  {
    DisplaceIsSame(t, at, now);
    hide Ok, FreshKey, SameButClosed, Add, Displace;
    var d := Displace(t, at, now);
    StoreKeeps(t, d.conns);
    FreshStays(t, d.conns, at, ts);
    AddKeeps(d, Conn(addr, at, ts, None));
  }

  lemma DisplaceIsSame(t: Table, at: PidFd, now: int)
    ensures var d := Displace(t, at, now); SameButClosed(t.conns, d.conns) && d == t.(conns := d.conns)
  {
  }

  lemma FreshStays(t: Table, conns: map<Uid, Conn>, at: PidFd, ts: nat)
    requires FreshKey(t, at, ts) && SameButClosed(t.conns, conns)
    ensures FreshKey(t.(conns := conns), at, ts)
  {
  }

  lemma CloseKeeps(t: Table, at: PidFd, ts: nat, now: int)
    requires Ok(t)
    ensures Ok(Close(t, at, ts, now))
  {
    if Close(t, at, ts, now) != t {
      StoreKeeps(t, MarkClosed(t.conns, t.byPidFd[at], now));
    }
  }

  lemma ForgetKeeps(t: Table, us: set<Uid>)
    requires Ok(t)
    ensures Ok(Forget(t, us))
  {
  }

  lemma CloseAllKeeps(t: Table, us: set<Uid>, now: int)
    requires Ok(t)
    ensures Ok(CloseAll(t, us, now))
  {
    StoreKeeps(t, CloseAll(t, us, now).conns);
  }

  lemma GcClosedKeeps(t: Table, now: int)
    requires Ok(t)
    ensures Ok(GcClosed(t, now))
  {
    hide Ok;
    var a := Forget(t, ExpiredByAddress(t, now));
    ForgetKeeps(t, ExpiredByAddress(t, now));
    var b := CloseAll(a, Superseded(a), now);
    CloseAllKeeps(a, Superseded(a), now);
    ForgetKeeps(b, ExpiredAmong(b, Superseded(a), now));
  }

  lemma GcIsForget(t: Table, now: int, interval: int, established: set<Addr>)
    requires Ok(t)
    ensures Gc(t, now, interval, established) == Forget(t, Stale(t, now, interval, established))
  {
    var us := Stale(t, now, interval, established);
    var keys := set u | u in us && u in t.conns && t.conns[u].ts != 0 :: KeyOf(t.conns[u]);
    forall k | k in t.byTs
      ensures k in keys <==> t.byTs[k] in us
    {
      if k in keys {
        var u :| u in us && u in t.conns && t.conns[u].ts != 0 && KeyOf(t.conns[u]) == k;
        assert u == t.byTs[k];
      }
    }
  }

  lemma GcKeeps(t: Table, now: int, interval: int, established: set<Addr>)
    requires Ok(t)
    ensures Ok(Gc(t, now, interval, established))
  {
    GcIsForget(t, now, interval, established);
    ForgetKeeps(t, Stale(t, now, interval, established));
  }

  // ---------------------------------------------------------------------------
  // Whose event it is
  // ---------------------------------------------------------------------------

  /** A stamped event is observed on the connection with exactly its process, fd and stamp, or not at
      all, whoever owns the fd by then. */
  lemma EventsFindTheirOwn(t: Table, at: PidFd, ts: nat)
    requires Ok(t) && ts != 0
    ensures Lookup(t, at, ts) == if PidFdTs(at, ts) in t.byTs then Some(t.byTs[PidFdTs(at, ts)]) else None
    ensures Lookup(t, at, ts).Some? ==> var u := Lookup(t, at, ts).value; u in t.conns && KeyOf(t.conns[u]) == PidFdTs(at, ts)
  {
  }

  // ---------------------------------------------------------------------------
  // What is collected
  // ---------------------------------------------------------------------------

  function Tracked(t: Table): set<Uid> {
    t.byAddr.Values + t.byTs.Values
  }

  /** Everything gcClosedConnections can see that has been closed for too long. */
  function ToForget(t: Table, now: int): set<Uid> {
    set u | u in Tracked(t) && Expired(t, u, now, GRACE)
  }

  lemma WithoutTwice<K>(m: map<K, Uid>, us: set<Uid>, vs: set<Uid>)
    ensures Without(Without(m, us), vs) == Without(m, us + vs)
  {
  }

  lemma WithoutValues<K>(m: map<K, Uid>, us: set<Uid>, u: Uid)
    ensures u in Without(m, us).Values <==> u in m.Values && u !in us
  {
    if u in m.Values && u !in us {
      var k :| k in m && m[k] == u;
      assert k in Without(m, us);
    }
    if u in Without(m, us).Values {
      var k :| k in Without(m, us) && Without(m, us)[k] == u;
      assert k in m && m[k] == u;
    }
  }

  /** Collection has a closed form: exactly the expired ones go, from all three indexes, and of what
      stays exactly the superseded ones are closed. */
  lemma GcForgetsExactlyTheExpired(t: Table, now: int)
    requires Ok(t)
    ensures var g := GcClosed(t, now);
      var us := ToForget(t, now);
      && g.byAddr == Without(t.byAddr, us) && g.byPidFd == Without(t.byPidFd, us) && g.byTs == Without(t.byTs, us)
      && g.conns == CloseAll(t, Superseded(Forget(t, ExpiredByAddress(t, now))), now).conns && g.next == t.next
  {
    var first := ExpiredByAddress(t, now);
    var a := Forget(t, first);
    var b := CloseAll(a, Superseded(a), now);
    var second := ExpiredAmong(b, Superseded(a), now);
    WithoutTwice(t.byAddr, first, second);
    WithoutTwice(t.byPidFd, first, second);
    WithoutTwice(t.byTs, first, second);
    assert first + second == ToForget(t, now) by { ForgottenIn(t, now); }
  }

  lemma ForgottenIn(t: Table, now: int)
    requires Ok(t)
    ensures var first := ExpiredByAddress(t, now);
      var a := Forget(t, first);
      var b := CloseAll(a, Superseded(a), now);
      first + ExpiredAmong(b, Superseded(a), now) == ToForget(t, now)
  {
    var first := ExpiredByAddress(t, now);
    var a := Forget(t, first);
    var b := CloseAll(a, Superseded(a), now);
    forall u
      ensures u in first || u in ExpiredAmong(b, Superseded(a), now) <==> u in ToForget(t, now)
    {
      ForgottenOne(t, now, u);
    }
  }

  lemma ForgottenOne(t: Table, now: int, u: Uid)
    requires Ok(t)
    ensures var first := ExpiredByAddress(t, now);
      var a := Forget(t, first);
      var b := CloseAll(a, Superseded(a), now);
      u in first || u in ExpiredAmong(b, Superseded(a), now) <==> u in ToForget(t, now)
  {
    WithoutValues(t.byTs, ExpiredByAddress(t, now), u);
  }

  /** Afterwards nothing that is tracked has been closed for too long, and what has lost its address is
      closed. */
  lemma NothingExpiredIsLeft(t: Table, now: int, u: Uid)
    requires Ok(t) && u in Tracked(GcClosed(t, now))
    ensures var g := GcClosed(t, now); !Expired(g, u, now, GRACE) && (HasAddress(g, u) || !IsOpen(g, u))
    ensures u in Tracked(t)
  {
    GcForgetsExactlyTheExpired(t, now);
    var us := ToForget(t, now);
    WithoutValues(t.byAddr, us, u);
    WithoutValues(t.byTs, us, u);
    var first := ExpiredByAddress(t, now);
    WithoutValues(t.byTs, first, u);
    WithoutValues(t.byAddr, first, u);
    hide GcClosed;
    var a := Forget(t, first);
    if u in t.byAddr.Values {
      var k :| k in t.byAddr && t.byAddr[k] == u;
      assert HasAddress(t, u) && HasAddress(a, u);
    }
  }

  /** Connections that are not forgotten stay what they are, but for being closed, and keep all their
      entries. */
  lemma TheRestStays(t: Table, now: int, u: Uid)
    requires Ok(t) && u in t.conns && u !in ToForget(t, now)
    ensures var g := GcClosed(t, now);
      && u in g.conns && g.conns[u] == t.conns[u].(closed := g.conns[u].closed)
      && (t.conns[u].closed.Some? ==> g.conns[u] == t.conns[u])
      && (HasAddress(t, u) ==> HasAddress(g, u) && g.conns[u] == t.conns[u])
      && (forall k :: k in t.byPidFd && t.byPidFd[k] == u ==> k in g.byPidFd && g.byPidFd[k] == u)
      && (forall k :: k in t.byTs && t.byTs[k] == u ==> k in g.byTs && g.byTs[k] == u)
  {
    GcForgetsExactlyTheExpired(t, now);
    var first := ExpiredByAddress(t, now);
    hide GcClosed;
    if HasAddress(t, u) {
      assert t.byAddr[t.conns[u].addr] == u;
      assert u !in first;
    }
  }

  /** A connection without a stamp whose addresses were taken is only known by its fd. However long ago
      it was closed, collection does not see it: it goes when its fd is used again. */
  lemma UnstampedIsNotCollected(t: Table, now: int, k: PidFd)
    requires Ok(t) && k in t.byPidFd
    ensures k in GcClosed(t, now).byPidFd <==> t.byPidFd[k] !in Tracked(t) || !Expired(t, t.byPidFd[k], now, GRACE)
  {
    GcForgetsExactlyTheExpired(t, now);
  }

  // ---------------------------------------------------------------------------
  // Runs
  // ---------------------------------------------------------------------------

  datatype Event =
    | Opened(addr: Addr, at: PidFd, ts: nat, now: int)
    | Closed(at: PidFd, ts: nat, now: int)
    | Collected(now: int)
    | Swept(now: int, interval: int, established: set<Addr>)

  function Step(t: Table, e: Event): Table {
    match e
    case Opened(addr, at, ts, now) => Open(t, addr, at, ts, now)
    case Closed(at, ts, now) => Close(t, at, ts, now)
    case Collected(now) => GcClosed(t, now)
    case Swept(now, interval, established) => Gc(t, now, interval, established)
  }

  /** Stamps tell connections apart. */
  ghost predicate Allowed(t: Table, e: Event) {
    e.Opened? ==> FreshKey(t, e.at, e.ts)
  }

  /** The connection is given up: collection finds it closed for too long, or the sweep finds its
      addresses gone or it closed long ago. */
  ghost predicate Forgets(t: Table, e: Event, u: Uid) {
    match e
    case Opened(_, _, _, _) => false
    case Closed(_, _, _) => false
    case Collected(now) => Expired(t, u, now, GRACE)
    case Swept(now, interval, established) => u in Stale(t, now, interval, established)
  }

  lemma StepKeeps(t: Table, e: Event)
    requires Ok(t) && Allowed(t, e)
    ensures Ok(Step(t, e))
  {
    hide Ok, Open, Close, GcClosed, Gc, FreshKey;
    match e
    case Opened(addr, at, ts, now) => OpenKeeps(t, addr, at, ts, now);
    case Closed(at, ts, now) => CloseKeeps(t, at, ts, now);
    case Collected(now) => GcClosedKeeps(t, now);
    case Swept(now, interval, established) => GcKeeps(t, now, interval, established);
  }

  /** The connection is found under its stamp. */
  ghost predicate Found(t: Table, u: Uid, key: PidFdTs) {
    key in t.byTs && t.byTs[key] == u
  }

  lemma FoundUnlessForgotten(t: Table, e: Event, u: Uid, key: PidFdTs)
    requires Ok(t) && Allowed(t, e) && Has(t, u, key)
    ensures Found(Step(t, e), u, key) <==> Found(t, u, key) && !Forgets(t, e, u)
  {
    match e
    case Opened(addr, at, ts, now) =>
    case Closed(at, ts, now) =>
    case Collected(now) =>
      GcForgetsExactlyTheExpired(t, now);
      hide GcClosed;
      assert Found(t, u, key) ==> u in t.byTs.Values;
    case Swept(now, interval, established) =>
      GcIsForget(t, now, interval, established);
  }

  ghost predicate IsRun(es: seq<Event>, ts: seq<Table>) {
    && |ts| == |es| + 1 && ts[0] == EMPTY
    && forall i {:trigger es[i]} :: 0 <= i < |es| ==> Allowed(ts[i], es[i]) && ts[i + 1] == Step(ts[i], es[i])
  }

  /** Such a connection is reached: two connections without stamps between the same addresses, of which
      the first is closed. Collection at any time after the grace period leaves it behind its fd. */
  lemma ExpiredConnectionStays(addr: Addr, at: PidFd, other: PidFd, closed: int, now: int) returns (es: seq<Event>, ts: seq<Table>)
    requires at != other && now - closed > GRACE
    ensures IsRun(es, ts) && |es| == 4 && es[3] == Collected(now)
    ensures at in ts[3].byPidFd && Expired(ts[3], ts[3].byPidFd[at], now, GRACE)
    ensures at in ts[4].byPidFd && ts[4].byPidFd[at] == ts[3].byPidFd[at]
  {
    hide Step, GcClosed, Tracked;
    es := [Opened(addr, at, 0, closed), Opened(addr, other, 0, closed), Closed(at, 0, closed), Collected(now)];
    var a := Step(EMPTY, es[0]);
    var b := Step(a, es[1]);
    var c := Step(b, es[2]);
    ts := [EMPTY, a, b, c, Step(c, es[3])];
    assert IsRun(es, ts);
    EveryRunIsOk(es, ts, 3);
    hide IsRun, Ok;
    OnlyBehindItsFd(addr, at, other, closed);
    CollectedStep(c, now);
    UnstampedIsNotCollected(c, now, at);
    GcForgetsExactlyTheExpired(c, now);
  }

  lemma CollectedStep(t: Table, now: int)
    ensures Step(t, Collected(now)) == GcClosed(t, now)
  {
  }

  lemma OnlyBehindItsFd(addr: Addr, at: PidFd, other: PidFd, closed: int)
    requires at != other
    ensures var t := Step(Step(Step(EMPTY, Opened(addr, at, 0, closed)), Opened(addr, other, 0, closed)), Closed(at, 0, closed));
      at in t.byPidFd && t.byPidFd[at] == 0 && 0 in t.conns && t.conns[0].closed == Some(closed) && 0 !in Tracked(t)
  {
    var a := Open(EMPTY, addr, at, 0, closed);
    assert a == Table(map[0 := Conn(addr, at, 0, None)], map[addr := 0], map[at := 0], map[], 1);
    var b := Open(a, addr, other, 0, closed);
    assert b.byAddr == map[addr := 1] && b.byTs == map[] && b.byPidFd[at] == 0 && b.conns[0] == a.conns[0];
    assert 0 !in b.byAddr.Values && 0 !in b.byTs.Values;
  }

  lemma {:induction false} EveryRunIsOk(es: seq<Event>, ts: seq<Table>, n: nat)
    requires IsRun(es, ts) && n <= |es|
    ensures Ok(ts[n])
  {
    hide Ok, Step, Allowed;
    if n == 0 {
      assert Ok(EMPTY) by { EmptyIsOk(); }
    } else {
      EveryRunIsOk(es, ts, n - 1);
      assert Allowed(ts[n - 1], es[n - 1]);
      StepKeeps(ts[n - 1], es[n - 1]);
    }
  }

  lemma EmptyIsOk()
    ensures Ok(EMPTY)
  {
  }

  /** No event between i and n forgets the connection. */
  ghost predicate Kept(es: seq<Event>, ts: seq<Table>, i: nat, n: nat, u: Uid)
    requires n <= |es| && n <= |ts|
  {
    forall j :: i < j < n ==> !Forgets(ts[j], es[j], u)
  }

  lemma KeptNext(es: seq<Event>, ts: seq<Table>, i: nat, n: nat, u: Uid)
    requires i < n <= |es| && n <= |ts|
    ensures n == i + 1 ==> Kept(es, ts, i, n, u)
    ensures n > i + 1 ==> (Kept(es, ts, i, n, u) <==> Kept(es, ts, i, n - 1, u) && !Forgets(ts[n - 1], es[n - 1], u))
  {
    hide Forgets;
  }

  /** In every run: after a stamped connection was opened, an event with its stamp is observed on it
      until it is forgotten, and on nothing afterwards, whatever happened to its fd and addresses. */
  lemma {:induction false} FoundUntilForgotten(es: seq<Event>, ts: seq<Table>, i: nat, n: nat)
    requires IsRun(es, ts) && i < n <= |es| && es[i].Opened? && es[i].ts != 0
    ensures var u := ts[i].next;
      Lookup(ts[n], es[i].at, es[i].ts) == if Kept(es, ts, i, n, u) then Some(u) else None
  {
    var u, key := ts[i].next, PidFdTs(es[i].at, es[i].ts);
    StaysUntilForgotten(es, ts, i, n);
    EveryRunIsOk(es, ts, n);
    EventsFindTheirOwn(ts[n], es[i].at, es[i].ts);
    OwnerIsAlone(ts[n], u, key);
    hide Ok, Lookup, Kept, IsRun;
  }

  lemma OwnerIsAlone(t: Table, u: Uid, key: PidFdTs)
    requires Ok(t) && Has(t, u, key) && key.ts != 0
    ensures key in t.byTs ==> t.byTs[key] == u
  {
  }

  /** The connection with that key, forgotten or not. */
  ghost predicate Has(t: Table, u: Uid, key: PidFdTs) {
    u in t.conns && KeyOf(t.conns[u]) == key && u < t.next
  }

  lemma ConnStays(t: Table, e: Event, u: Uid, key: PidFdTs)
    requires Ok(t) && Has(t, u, key)
    ensures Has(Step(t, e), u, key)
  {
  }

  lemma {:induction false} StaysUntilForgotten(es: seq<Event>, ts: seq<Table>, i: nat, n: nat)
    requires IsRun(es, ts) && i < n <= |es| && es[i].Opened? && es[i].ts != 0
    ensures var u, key := ts[i].next, PidFdTs(es[i].at, es[i].ts);
      Has(ts[n], u, key) && (Found(ts[n], u, key) <==> Kept(es, ts, i, n, u))
    decreases n
  {
    hide Ok, Step, Allowed, Forgets, Found, Kept, Has, IsRun;
    RunStep(es, ts, n - 1);
    EveryRunIsOk(es, ts, n - 1);
    var u, key := ts[i].next, PidFdTs(es[i].at, es[i].ts);
    KeptNext(es, ts, i, n, u);
    if n == i + 1 {
      JustOpened(ts[i], es[i]);
    } else {
      StaysUntilForgotten(es, ts, i, n - 1);
      FoundUnlessForgotten(ts[n - 1], es[n - 1], u, key);
      ConnStays(ts[n - 1], es[n - 1], u, key);
    }
  }

  lemma RunStep(es: seq<Event>, ts: seq<Table>, k: nat)
    requires IsRun(es, ts) && k < |es|
    ensures |ts| == |es| + 1 && Allowed(ts[k], es[k]) && ts[k + 1] == Step(ts[k], es[k])
  {
    hide Step, Allowed;
    assert es[k] == es[k];
  }

  lemma JustOpened(t: Table, e: Event)
    requires Ok(t) && e.Opened? && e.ts != 0
    ensures var u, key, n := t.next, PidFdTs(e.at, e.ts), Step(t, e);
      Has(n, u, key) && Found(n, u, key)
  {
  }

  // ---------------------------------------------------------------------------
  // One open connection for an fd
  // ---------------------------------------------------------------------------

  /** A connection that is tracked and open owns its fd. */
  ghost predicate OwnsFd(t: Table, u: Uid) {
    u in Tracked(t) && IsOpen(t, u) ==> t.conns[u].at in t.byPidFd && t.byPidFd[t.conns[u].at] == u
  }

  lemma ForgetKeepsOwner(t: Table, us: set<Uid>, u: Uid)
    requires OwnsFd(t, u)
    ensures OwnsFd(Forget(t, us), u)
  {
    WithoutValues(t.byAddr, us, u);
    WithoutValues(t.byTs, us, u);
    WithoutKeeps(t.byPidFd, us, u);
    hide Without;
  }

  lemma WithoutKeeps<K(!new)>(m: map<K, Uid>, us: set<Uid>, u: Uid)
    ensures u !in us ==> forall k :: k in m && m[k] == u ==> k in Without(m, us) && Without(m, us)[k] == u
  {
  }

  lemma CloseAllKeepsOwner(t: Table, us: set<Uid>, now: int, u: Uid)
    requires OwnsFd(t, u)
    ensures OwnsFd(CloseAll(t, us, now), u)
  {
  }

  lemma OpenKeepsOwner(t: Table, addr: Addr, at: PidFd, ts: nat, now: int, u: Uid)
    requires Ok(t) && (u in t.conns ==> OwnsFd(t, u))
    ensures OwnsFd(Open(t, addr, at, ts, now), u)
  {
    OpenTracks(t, addr, at, ts, now, u);
    OpenLeaves(t, addr, at, ts, now, u);
    hide Ok, Open, Tracked;
    TrackedIsKnown(t, u);
  }

  /** Opening a connection adds it to what is tracked, and nothing else. */
  lemma OpenTracks(t: Table, addr: Addr, at: PidFd, ts: nat, now: int, u: Uid)
    ensures u in Tracked(Open(t, addr, at, ts, now)) && u != t.next ==> u in Tracked(t)
  {
    var n := Open(t, addr, at, ts, now);
    if u in n.byAddr.Values && u != t.next {
      var k :| k in n.byAddr && n.byAddr[k] == u;
      assert k in t.byAddr && t.byAddr[k] == u;
    }
    if u in n.byTs.Values && u != t.next {
      var k :| k in n.byTs && n.byTs[k] == u;
      assert k in t.byTs && t.byTs[k] == u;
    }
  }

  /** The new connection owns its fd, the owner before it is closed, and other fds keep their owners. */
  lemma OpenLeaves(t: Table, addr: Addr, at: PidFd, ts: nat, now: int, u: Uid)
    requires Ok(t)
    ensures var n := Open(t, addr, at, ts, now);
      && t.next in n.conns && n.conns[t.next].at == at && n.byPidFd == t.byPidFd[at := t.next]
      && (u in t.conns ==> u != t.next && u in n.conns && n.conns[u].at == t.conns[u].at)
      && (u in t.conns && IsOpen(n, u) ==> IsOpen(t, u) && !(at in t.byPidFd && t.byPidFd[at] == u))
  {
  }

  lemma StepKeepsOwner(t: Table, e: Event, u: Uid)
    requires Ok(t) && Allowed(t, e) && (u in t.conns ==> OwnsFd(t, u))
    ensures OwnsFd(Step(t, e), u)
  {
    hide Ok, Forget, CloseAll;
    TrackedIsKnown(t, u);
    match e
    case Opened(addr, at, ts, now) => OpenKeepsOwner(t, addr, at, ts, now, u);
    case Closed(at, ts, now) =>
    case Collected(now) =>
      var first := ExpiredByAddress(t, now);
      var a := Forget(t, first);
      ForgetKeepsOwner(t, first, u);
      CloseAllKeepsOwner(a, Superseded(a), now, u);
      ForgetKeepsOwner(CloseAll(a, Superseded(a), now), ExpiredAmong(CloseAll(a, Superseded(a), now), Superseded(a), now), u);
    case Swept(now, interval, established) =>
      GcIsForget(t, now, interval, established);
      hide Gc;
      ForgetKeepsOwner(t, Stale(t, now, interval, established), u);
  }

  lemma TrackedIsKnown(t: Table, u: Uid)
    requires Ok(t)
    ensures u in Tracked(t) ==> u in t.conns
  {
  }

  /** In every run, a tracked connection that is open owns its fd, so two of them never share one. */
  lemma {:induction false} OpenConnectionsOwnTheirFd(es: seq<Event>, ts: seq<Table>, n: nat, u: Uid, v: Uid)
    requires IsRun(es, ts) && n <= |es|
    ensures |ts| == |es| + 1 && OwnsFd(ts[n], u)
    ensures var t := ts[n];
      u in Tracked(t) && v in Tracked(t) && IsOpen(t, u) && IsOpen(t, v) && t.conns[u].at == t.conns[v].at ==> u == v
    decreases n
  {
    hide Ok, Step, Allowed, Tracked;
    if n == 0 {
      assert EMPTY.conns == map[];
    } else {
      RunStep(es, ts, n - 1);
      EveryRunIsOk(es, ts, n - 1);
      OpenConnectionsOwnTheirFd(es, ts, n - 1, u, v);
      OpenConnectionsOwnTheirFd(es, ts, n - 1, v, u);
      StepKeepsOwner(ts[n - 1], es[n - 1], u);
      StepKeepsOwner(ts[n - 1], es[n - 1], v);
    }
  }
}
