/**
The connection indexes of a container as they are coded: three maps that event handlers and two
collections update in place. The methods are proved against the functions of Connections. Maps are
visited in an order that is not determined.
*/
module ConnectionTable {
  import opened Connections
  import opened Wrappers

  // ---------------------------------------------------------------------------
  // Stamps
  // ---------------------------------------------------------------------------

  const BUCKET: nat := 0x1000

  /** conn_timestamp: the time at a resolution of 4096 ns, one step back, with the low bits taken from a
      sequence that every connection takes a number of. */
  function ConnTimestamp(ktime: nat, number: nat): (ts: int)
  {
    ktime / BUCKET * BUCKET - BUCKET + number % BUCKET
  }

  /** Two stamps are the same only for two connections of one step of the clock whose numbers are a
      multiple of 4096 apart, and a stamp is never ahead of the clock nor 8192 ns behind it. */
  lemma StampsTellApart(k: nat, m: nat, k': nat, m': nat)
    ensures ConnTimestamp(k, m) == ConnTimestamp(k', m') <==> k / BUCKET == k' / BUCKET && m % BUCKET == m' % BUCKET
    ensures k - 2 * BUCKET < ConnTimestamp(k, m) < k
  {
  }

  // ---------------------------------------------------------------------------
  // Counting
  // ---------------------------------------------------------------------------

  function Select(us: set<Uid>, p: Uid -> bool): set<Uid> {
    set u | u in us && p(u)
  }

  lemma SelectAdds(us: set<Uid>, p: Uid -> bool, u: Uid)
    requires u !in us && p(u)
    ensures Select(us + {u}, p) == Select(us, p) + {u} && |Select(us + {u}, p)| == |Select(us, p)| + 1
  {
    assert Select(us + {u}, p) == Select(us, p) + {u};
  }

  lemma SelectSkips(us: set<Uid>, p: Uid -> bool, u: Uid)
    requires !p(u)
    ensures Select(us + {u}, p) == Select(us, p)
  {
  }

  lemma SelectNone(p: Uid -> bool)
    ensures Select({}, p) == {}
  {
  }

  function OpenIn(t: Table): Uid -> bool {
    (u: Uid) => IsOpen(t, u)
  }

  function ExpiredIn(t: Table, now: int): Uid -> bool {
    (u: Uid) => Expired(t, u, now, GRACE)
  }

  /** Closed, and not for too long. */
  function ClosedIn(t: Table, now: int): Uid -> bool {
    (u: Uid) => !IsOpen(t, u) && !Expired(t, u, now, GRACE)
  }

  class Indexes {
    var conns: map<Uid, Conn>
    var byAddr: map<Addr, Uid>
    var byPidFd: map<PidFd, Uid>
    var byTs: map<PidFdTs, Uid>
    var next: Uid

    function View(): Table
      reads this
    {
      Table(conns, byAddr, byPidFd, byTs, next)
    }

    constructor ()
      ensures View() == EMPTY && Ok(View())
    {
      conns, byAddr, byPidFd, byTs, next := map[], map[], map[], map[], 0;
    }

    method OnOpen(addr: Addr, at: PidFd, ts: nat, now: int)
      requires Ok(View()) && FreshKey(View(), at, ts)
      modifies this
      ensures View() == Open(old(View()), addr, at, ts, now) && Ok(View())
    {
      hide Ok, FreshKey;
      OpenKeeps(View(), addr, at, ts, now);
      if at in byPidFd && byPidFd[at] in conns {
        conns := conns[byPidFd[at] := conns[byPidFd[at]].(closed := Some(now))];
      }
      assert View() == Displace(old(View()), at, now);
      hide Displace;
      var connection := next;
      next := next + 1;
      conns := conns[connection := Conn(addr, at, ts, None)];
      byAddr := byAddr[addr := connection];
      byPidFd := byPidFd[at := connection];
      if ts != 0 {
        byTs := byTs[PidFdTs(at, ts) := connection];
      }
    }

    method OnClose(at: PidFd, ts: nat, now: int)
      requires Ok(View())
      modifies this`conns
      ensures View() == Close(old(View()), at, ts, now) && Ok(View())
    {
      CloseKeeps(View(), at, ts, now);
      if at in byPidFd {
        var u := byPidFd[at];
        if conns[u].ts != 0 && conns[u].ts != ts {
          return;
        }
        if conns[u].closed.None? {
          conns := conns[u := conns[u].(closed := Some(now))];
        }
      }
    }

    /** The connection of an outbound event. */
    method Find(at: PidFd, ts: nat) returns (conn: Option<Uid>)
      requires Ok(View())
      ensures conn == Lookup(View(), at, ts)
      ensures ts != 0 && conn.Some? ==> conn.value in conns && KeyOf(conns[conn.value]) == PidFdTs(at, ts)
    {
      if ts != 0 { EventsFindTheirOwn(View(), at, ts); }
      conn := if at in byPidFd then Some(byPidFd[at]) else None;
      if conn.None? || (ts != 0 && conns[conn.value].ts != ts) {
        if ts != 0 && PidFdTs(at, ts) in byTs {
          conn := Some(byTs[PidFdTs(at, ts)]);
        }
      }
      if conn.None? || (ts != 0 && conns[conn.value].ts != ts) {
        return None;
      }
    }

    method ForgetConnection(u: Uid)
      requires Ok(View()) && u in conns
      modifies this`byAddr, this`byPidFd, this`byTs
      ensures View() == Forget(old(View()), {u})
    {
      hide Ok, Without;
      var c := conns[u];
      OwnKeys(View(), u);
      RemoveOwn(byAddr, c.addr, u);
      RemoveOwn(byPidFd, c.at, u);
      RemoveOwn(byTs, KeyOf(c), u);
      if c.addr in byAddr && byAddr[c.addr] == u {
        byAddr := byAddr - {c.addr};
      }
      if c.at in byPidFd && byPidFd[c.at] == u {
        byPidFd := byPidFd - {c.at};
      }
      if c.ts != 0 {
        if KeyOf(c) in byTs && byTs[KeyOf(c)] == u {
          byTs := byTs - {KeyOf(c)};
        }
      }
    }

    /** Counts a connection as open or closed, or forgets it. */
    method CountOrForget(u: Uid, now: int) returns (open: nat, closed: nat)
      requires Ok(View()) && u in conns
      modifies this`byAddr, this`byPidFd, this`byTs
      ensures Ok(View()) && (View(), open, closed) == Look(old(View()), u, now)
    {
      ForgetKeeps(View(), {u});
      hide Ok;
      open, closed := 0, 0;
      if conns[u].closed.None? {
        open := 1;
      } else if now - conns[u].closed.value <= GRACE {
        closed := 1;
      } else {
        ForgetConnection(u);
      }
    }

    /** What has an address: counted, or forgotten. */
    method CollectAddressed(now: int) returns (open: nat, closed: nat)
      requires Ok(View())
      modifies this`byAddr, this`byPidFd, this`byTs
      ensures View() == Forget(old(View()), ExpiredByAddress(old(View()), now)) && Ok(View())
      ensures open == |Select(old(byAddr.Values), OpenIn(old(View())))|
      ensures closed == |Select(old(byAddr.Values), ClosedIn(old(View()), now))|
    {
      hide Ok, Progress, Forget, Look, Looking, ExpiredByAddress, Select, OpenIn, ClosedIn;
      ghost var t := View();
      var todo := byAddr.Values;
      ghost var done: set<Uid> := {};
      StartLooking(t, todo);
      ProgressNone(t, now);
      open, closed := 0, 0;
      while todo != {}
        invariant Looking(t, t.byAddr.Values, done, todo) && Ok(View())
        invariant (View(), open, closed) == Progress(t, done, now)
      {
        var u :| u in todo;
        LookAt(t, t.byAddr.Values, done, todo, u);
        ProgressNext(t, done, u, now);
        var o, c := CountOrForget(u, now);
        open, closed := open + o, closed + c;
        todo := todo - {u};
        done := done + {u};
      }
      AllLooked(t, now, done);
    }

    /** A connection that has lost its address is closed, if it is not yet, and counted or forgotten. */
    method CollectLost(u: Uid, now: int) returns (closed: nat)
      requires Ok(View()) && u in conns
      modifies this
      ensures Ok(View()) && (View(), closed) == LookAgain(old(View()), u, now)
    {
      ForgetKeeps(View(), {u});
      CloseAllKeeps(View(), {u}, now);
      CloseOne(View(), u, now);
      hide Ok, CloseAll, Forget;
      closed := 0;
      if conns[u].addr in byAddr && byAddr[conns[u].addr] == u {
        return;
      }
      if conns[u].closed.None? {
        conns := conns[u := conns[u].(closed := Some(now))];
      }
      if now - conns[u].closed.value <= GRACE {
        closed := 1;
        return;
      }
      ForgetConnection(u);
    }

    /** What has lost its address. */
    method CollectAllLost(now: int) returns (closed: nat)
      requires Ok(View())
      modifies this
      ensures var a := old(View());
        var b := CloseAll(a, Superseded(a), now);
        View() == Forget(b, ExpiredAmong(b, Superseded(a), now)) && Ok(View()) && closed == |Select(Superseded(a), NotExpiredIn(a, now))|
    {
      hide Ok, Lost, Forget, CloseAll, Looking, Superseded, ExpiredAmong, Select, LookAgain, NotExpiredIn;
      ghost var a := View();
      var todo := byTs.Values;
      ghost var done: set<Uid> := {};
      StartLooking(a, todo);
      LostNone(a, now);
      closed := 0;
      while todo != {}
        invariant Looking(a, a.byTs.Values, done, todo) && Ok(View())
        invariant (View(), closed) == Lost(a, done, now)
      {
        var u :| u in todo;
        LookAt(a, a.byTs.Values, done, todo, u);
        LostNext(a, done, u, now);
        var c := CollectLost(u, now);
        closed := closed + c;
        todo := todo - {u};
        done := done + {u};
      }
      AllLost(a, now, done);
    }

    /** gcClosedConnections: what it returns counts what it leaves. */
    method CollectClosed(now: int) returns (open: nat, closed: nat)
      requires Ok(View())
      modifies this
      ensures View() == GcClosed(old(View()), now) && Ok(View())
      ensures open == |Select(Tracked(View()), OpenIn(View()))| && open + closed == |Tracked(View())|
    {
      hide Ok, Forget, CloseAll, Superseded, ExpiredAmong, Select, Tracked, ExpiredByAddress;
      ghost var t := View();
      open, closed := CollectAddressed(now);
      var more := CollectAllLost(now);
      closed := closed + more;
      CountsAdd(t, now);
    }

    /** One connection is dropped, with the entry of its stamp whoever that belongs to. */
    method Drop(u: Uid)
      requires Ok(View()) && HasAddress(View(), u)
      modifies this`byAddr, this`byPidFd, this`byTs
      ensures View() == Forget(old(View()), {u}) && Ok(View())
    {
      hide Ok, Without;
      ForgetKeeps(View(), {u});
      StampIsOwn(View(), u);
      OwnKeys(View(), u);
      var c := conns[u];
      RemoveOwn(byAddr, c.addr, u);
      RemoveOwn(byPidFd, c.at, u);
      RemoveOwn(byTs, KeyOf(c), u);
      byAddr := byAddr - {c.addr};
      if c.at in byPidFd && u == byPidFd[c.at] {
        byPidFd := byPidFd - {c.at};
      }
      if c.ts != 0 {
        byTs := byTs - {KeyOf(c)};
      }
    }

    /** The connection part of gc. */
    method Sweep(now: int, interval: int, established: set<Addr>)
      requires Ok(View())
      modifies this`byAddr, this`byPidFd, this`byTs
      ensures View() == Gc(old(View()), now, interval, established) && Ok(View())
    {
      hide Ok, Gc, Forget, Looking, Stale, Select;
      ghost var t := View();
      ghost var stale := StaleIn(t, now, interval, established);
      GcIsForget(t, now, interval, established);
      StaleIsSelected(t, now, interval, established);
      SelectNone(stale);
      ForgetNone(t);
      var todo := byAddr.Values;
      ghost var done: set<Uid> := {};
      StartLooking(t, todo);
      while todo != {}
        invariant Looking(t, t.byAddr.Values, done, todo) && Ok(View()) && View() == Forget(t, Select(done, stale))
      {
        var u :| u in todo;
        LookAt(t, t.byAddr.Values, done, todo, u);
        StillThere(t, Select(done, stale), done, u, stale);
        if conns[u].addr !in established || Expired(View(), u, now, interval) {
          SelectAdds(done, stale, u);
          ForgetMore(t, Select(done, stale), u);
          Drop(u);
        } else {
          SelectSkips(done, stale, u);
        }
        todo := todo - {u};
        done := done + {u};
      }
      LookedAtAll(t, done);
    }
  }

  function StaleIn(t: Table, now: int, interval: int, established: set<Addr>): Uid -> bool {
    (u: Uid) => u in t.conns && (t.conns[u].addr !in established || Expired(t, u, now, interval))
  }

  lemma StaleIsSelected(t: Table, now: int, interval: int, established: set<Addr>)
    requires Ok(t)
    ensures Stale(t, now, interval, established) == Select(t.byAddr.Values, StaleIn(t, now, interval, established))
  {
    var us, stale := Stale(t, now, interval, established), StaleIn(t, now, interval, established);
    forall u
      ensures u in us <==> u in t.byAddr.Values && stale(u)
    {
      if u in t.byAddr.Values {
        var k :| k in t.byAddr && t.byAddr[k] == u;
        assert t.conns[u].addr == k;
      }
    }
  }

  lemma StampIsOwn(t: Table, u: Uid)
    requires Ok(t) && u in t.conns
    ensures t.conns[u].ts != 0 && KeyOf(t.conns[u]) in t.byTs ==> t.byTs[KeyOf(t.conns[u])] == u
  {
  }

  /** A connection that has not been looked at is still in the table as it was. */
  lemma StillThere(t: Table, gone: set<Uid>, done: set<Uid>, u: Uid, p: Uid -> bool)
    requires Ok(t) && gone == Select(done, p) && u !in done && u in t.byAddr.Values
    ensures var a := Forget(t, gone); u in a.conns && a.conns == t.conns && HasAddress(a, u)
    ensures forall now, after :: Expired(Forget(t, gone), u, now, after) == Expired(t, u, now, after)
  {
  }

  lemma LookedAtAll(t: Table, done: set<Uid>)
    requires Looking(t, t.byAddr.Values, done, {})
    ensures done == t.byAddr.Values
  {
  }

  lemma CountsAdd(t: Table, now: int)
    requires Ok(t)
    ensures var a := Forget(t, ExpiredByAddress(t, now));
      var g := GcClosed(t, now);
      && |Select(t.byAddr.Values, OpenIn(t))| == |Select(Tracked(g), OpenIn(g))|
      && |Select(t.byAddr.Values, OpenIn(t))| + |Select(t.byAddr.Values, ClosedIn(t, now))| + |Select(Superseded(a), NotExpiredIn(a, now))|
         == |Tracked(g)|
  {
    hide Ok, Select, Tracked, GcClosed, Superseded, Forget, ExpiredByAddress, OpenIn, ClosedIn, NotExpiredIn;
    var a := Forget(t, ExpiredByAddress(t, now));
    var g := GcClosed(t, now);
    var x, y := Select(t.byAddr.Values, OpenIn(t)), Select(t.byAddr.Values, ClosedIn(t, now));
    var z := Select(Superseded(a), NotExpiredIn(a, now));
    var w := Tracked(g);
    forall u
      ensures (u in x ==> u !in y) && (u in x + y ==> u !in z) && (u in x + y + z <==> u in w)
      ensures u in x <==> u in Select(w, OpenIn(g))
    {
      Which(t, now, u);
    }
    ThreeParts(x, y, z, w);
    assert x == Select(w, OpenIn(g));
  }

  lemma ThreeParts(x: set<Uid>, y: set<Uid>, z: set<Uid>, w: set<Uid>)
    requires forall u :: (u in x ==> u !in y) && (u in x + y ==> u !in z) && (u in x + y + z <==> u in w)
    ensures |x| + |y| + |z| == |w|
  {
    assert x + y + z == w;
    assert |x + y| == |x| + |y|;
  }

  /** Where one connection goes. */
  lemma Which(t: Table, now: int, u: Uid)
    requires Ok(t)
    ensures var a := Forget(t, ExpiredByAddress(t, now));
      var g := GcClosed(t, now);
      var x, y := Select(t.byAddr.Values, OpenIn(t)), Select(t.byAddr.Values, ClosedIn(t, now));
    var z := Select(Superseded(a), NotExpiredIn(a, now));
      && (u in x ==> u !in y) && (u in x + y ==> u !in z)
      && (u in x + y + z <==> u in Tracked(g))
      && (u in x <==> u in Select(Tracked(g), OpenIn(g)))
  {
    LeftIs(t, now, u);
    OpenLeftIs(t, now, u);
    LostIs(t, now, u);
    hide Ok, GcClosed, Superseded, Forget, ExpiredByAddress, Tracked, HasAddress;
  }

  lemma Addressed(t: Table, u: Uid)
    requires Ok(t)
    ensures u in t.byAddr.Values <==> HasAddress(t, u)
    ensures u in Tracked(t) ==> u in t.conns
  {
  }

  lemma LeftIs(t: Table, now: int, u: Uid)
    requires Ok(t)
    ensures u in Tracked(GcClosed(t, now)) <==> u in Tracked(t) && !Expired(t, u, now, GRACE)
    ensures u in Tracked(t) ==> u in t.conns
    ensures u in Tracked(t) <==> u in t.byAddr.Values || u in t.byTs.Values
  {
    Addressed(t, u);
    GcForgetsExactlyTheExpired(t, now);
    hide Ok, GcClosed, Without;
    WithoutValues(t.byAddr, ToForget(t, now), u);
    WithoutValues(t.byTs, ToForget(t, now), u);
  }

  /** What is open afterwards is what was open and still has its address. */
  lemma OpenLeftIs(t: Table, now: int, u: Uid)
    requires Ok(t)
    ensures u in Tracked(GcClosed(t, now)) ==> (IsOpen(GcClosed(t, now), u) <==> IsOpen(t, u) && u in t.byAddr.Values)
  {
    hide Ok, GcClosed, Tracked, HasAddress;
    Addressed(t, u);
    LeftIs(t, now, u);
    GcAddress(t, now, u);
    if u in Tracked(t) && !Expired(t, u, now, GRACE) {
      NothingExpiredIsLeft(t, now, u);
      OpenStaysOpen(t, now, u);
    }
  }

  lemma OpenStaysOpen(t: Table, now: int, u: Uid)
    requires Ok(t) && u in t.conns && !Expired(t, u, now, GRACE)
    ensures IsOpen(GcClosed(t, now), u) ==> IsOpen(t, u)
    ensures HasAddress(t, u) && IsOpen(t, u) ==> IsOpen(GcClosed(t, now), u)
  {
    TheRestStays(t, now, u);
    hide Ok, GcClosed, HasAddress;
  }

  lemma GcAddress(t: Table, now: int, u: Uid)
    requires Ok(t)
    ensures HasAddress(GcClosed(t, now), u) ==> HasAddress(t, u)
  {
    GcForgetsExactlyTheExpired(t, now);
    hide GcClosed;
  }

  lemma LostIs(t: Table, now: int, u: Uid)
    requires Ok(t)
    ensures var a := Forget(t, ExpiredByAddress(t, now));
      u in Superseded(a) && !Expired(a, u, now, GRACE) <==> u in t.byTs.Values && u !in t.byAddr.Values && !Expired(t, u, now, GRACE)
  {
    Addressed(t, u);
    WithoutValues(t.byTs, ExpiredByAddress(t, now), u);
    hide Ok;
  }

  function NotExpiredIn(t: Table, now: int): Uid -> bool {
    (u: Uid) => !Expired(t, u, now, GRACE)
  }

  function LostAndExpired(t: Table, now: int): Uid -> bool {
    (u: Uid) => !HasAddress(t, u) && Expired(t, u, now, GRACE)
  }

  function LostAndKept(t: Table, now: int): Uid -> bool {
    (u: Uid) => !HasAddress(t, u) && !Expired(t, u, now, GRACE)
  }

  /** What happens to one connection in the second pass, and what it adds to the count. */
  function LookAgain(t: Table, u: Uid, now: int): (Table, nat) {
    if HasAddress(t, u) then (t, 0)
    else if Expired(t, u, now, GRACE) then (Forget(t, {u}), 0)
    else (CloseAll(t, {u}, now), 1)
  }

  /** The table and the count when these connections have been looked at a second time. */
  ghost function Lost(t: Table, done: set<Uid>, now: int): (Table, nat) {
    (Forget(CloseAll(t, Select(done, LostAndKept(t, now)), now), Select(done, LostAndExpired(t, now))), |Select(done, LostAndKept(t, now))|)
  }

  lemma CloseOne(t: Table, u: Uid, now: int)
    requires u in t.conns
    ensures CloseAll(t, {u}, now) == if t.conns[u].closed.None? then t.(conns := t.conns[u := t.conns[u].(closed := Some(now))]) else t
  {
  }

  lemma LostNone(t: Table, now: int)
    ensures Lost(t, {}, now) == (t, 0)
  {
    SelectNone(LostAndExpired(t, now));
    SelectNone(LostAndKept(t, now));
    ForgetNone(t);
    assert CloseAll(t, {}, now) == t;
  }

  lemma CloseMore(t: Table, us: set<Uid>, u: Uid, now: int, gone: set<Uid>)
    ensures CloseAll(Forget(CloseAll(t, us, now), gone), {u}, now) == Forget(CloseAll(t, us + {u}, now), gone)
  {
    hide Without;
  }

  /** Looking at some of them changes nothing for another. */
  lemma LostStays(t: Table, done: set<Uid>, u: Uid, now: int)
    requires Ok(t) && u !in done && u in t.conns
    ensures var a := Lost(t, done, now).0;
      u in a.conns && HasAddress(a, u) == HasAddress(t, u) && Expired(a, u, now, GRACE) == Expired(t, u, now, GRACE)
  {
  }

  lemma LostNext(t: Table, done: set<Uid>, u: Uid, now: int)
    requires Ok(t) && u !in done && u in t.conns
    ensures var (a, c) := Lost(t, done, now);
      u in a.conns && Lost(t, done + {u}, now) == (LookAgain(a, u, now).0, c + LookAgain(a, u, now).1)
  {
    hide Ok, Select, Forget, CloseAll, HasAddress, Expired;
    LostStays(t, done, u, now);
    var kept, gone := Select(done, LostAndKept(t, now)), Select(done, LostAndExpired(t, now));
    if HasAddress(t, u) {
      SelectSkips(done, LostAndKept(t, now), u);
      SelectSkips(done, LostAndExpired(t, now), u);
    } else if Expired(t, u, now, GRACE) {
      SelectSkips(done, LostAndKept(t, now), u);
      SelectAdds(done, LostAndExpired(t, now), u);
      ForgetMore(CloseAll(t, kept, now), gone, u);
    } else {
      SelectAdds(done, LostAndKept(t, now), u);
      SelectSkips(done, LostAndExpired(t, now), u);
      CloseMore(t, kept, u, now, gone);
    }
  }

  lemma AllLost(t: Table, now: int, done: set<Uid>)
    requires Looking(t, t.byTs.Values, done, {})
    ensures var b := CloseAll(t, Superseded(t), now);
      Lost(t, done, now) == (Forget(b, ExpiredAmong(b, Superseded(t), now)), |Select(Superseded(t), NotExpiredIn(t, now))|)
  {
    assert done == t.byTs.Values;
    var s := Superseded(t);
    var b := CloseAll(t, s, now);
    assert Select(done, LostAndKept(t, now)) == Select(s, NotExpiredIn(t, now));
    assert Select(done, LostAndExpired(t, now)) == ExpiredAmong(b, s, now);
    assert b.conns == CloseAll(t, Select(s, NotExpiredIn(t, now)), now).conns;
  }

  /** Some of these connections have been looked at, the others are still to do. */
  ghost predicate Looking(t: Table, all: set<Uid>, done: set<Uid>, todo: set<Uid>) {
    all <= t.conns.Keys && done !! todo && done + todo == all
  }

  lemma StartLooking(t: Table, all: set<Uid>)
    requires Ok(t) && all <= Tracked(t)
    ensures Looking(t, all, {}, all)
  {
    KnownUids(t);
  }

  lemma LookAt(t: Table, all: set<Uid>, done: set<Uid>, todo: set<Uid>, u: Uid)
    requires Looking(t, all, done, todo) && u in todo
    ensures u !in done && u in all && u in t.conns && Looking(t, all, done + {u}, todo - {u})
  {
  }

  lemma AllLooked(t: Table, now: int, done: set<Uid>)
    requires Looking(t, t.byAddr.Values, done, {})
    ensures Progress(t, done, now) ==
      (Forget(t, ExpiredByAddress(t, now)), |Select(t.byAddr.Values, OpenIn(t))|, |Select(t.byAddr.Values, ClosedIn(t, now))|)
  {
    assert done == t.byAddr.Values;
    assert ExpiredByAddress(t, now) == Select(done, ExpiredIn(t, now));
  }

  /** What happens to one connection in the first pass, and what it adds to the counts. */
  function Look(t: Table, u: Uid, now: int): (Table, nat, nat) {
    if IsOpen(t, u) then (t, 1, 0) else if Expired(t, u, now, GRACE) then (Forget(t, {u}), 0, 0) else (t, 0, 1)
  }

  /** The table and the two counts when these connections have been looked at. */
  ghost function Progress(t: Table, done: set<Uid>, now: int): (Table, nat, nat) {
    (Forget(t, Select(done, ExpiredIn(t, now))), |Select(done, OpenIn(t))|, |Select(done, ClosedIn(t, now))|)
  }

  lemma ProgressNone(t: Table, now: int)
    ensures Progress(t, {}, now) == (t, 0, 0)
  {
    SelectNone(OpenIn(t));
    SelectNone(ClosedIn(t, now));
    SelectNone(ExpiredIn(t, now));
    ForgetNone(t);
  }

  lemma ProgressNext(t: Table, done: set<Uid>, u: Uid, now: int)
    requires u !in done
    ensures var (a, o, c) := Progress(t, done, now);
      a.conns == t.conns && Progress(t, done + {u}, now) == (Look(a, u, now).0, o + Look(a, u, now).1, c + Look(a, u, now).2)
  {
    hide Select, Forget;
    SameStore(t, Select(done, ExpiredIn(t, now)), u, now);
    if IsOpen(t, u) {
      SelectAdds(done, OpenIn(t), u);
      SelectSkips(done, ClosedIn(t, now), u);
      SelectSkips(done, ExpiredIn(t, now), u);
    } else if Expired(t, u, now, GRACE) {
      SelectSkips(done, OpenIn(t), u);
      SelectSkips(done, ClosedIn(t, now), u);
      SelectAdds(done, ExpiredIn(t, now), u);
      ForgetMore(t, Select(done, ExpiredIn(t, now)), u);
    } else {
      SelectSkips(done, OpenIn(t), u);
      SelectAdds(done, ClosedIn(t, now), u);
      SelectSkips(done, ExpiredIn(t, now), u);
    }
  }

  lemma SameStore(t: Table, us: set<Uid>, u: Uid, now: int)
    ensures var a := Forget(t, us);
      a.conns == t.conns && IsOpen(a, u) == IsOpen(t, u) && Expired(a, u, now, GRACE) == Expired(t, u, now, GRACE)
  {
  }

  lemma ForgetNone(t: Table)
    ensures Forget(t, {}) == t
  {
  }

  lemma ForgetMore(t: Table, us: set<Uid>, u: Uid)
    ensures Forget(Forget(t, us), {u}) == Forget(t, us + {u})
  {
    WithoutTwice(t.byAddr, us, {u});
    WithoutTwice(t.byPidFd, us, {u});
    WithoutTwice(t.byTs, us, {u});
  }

  lemma KnownUids(t: Table)
    requires Ok(t)
    ensures t.byAddr.Values <= t.conns.Keys && t.byTs.Values <= t.conns.Keys
  {
  }

  /** A connection is in an index at most under its own key. */
  lemma OwnKeys(t: Table, u: Uid)
    requires Ok(t) && u in t.conns
    ensures forall k :: k in t.byAddr && t.byAddr[k] == u ==> k == t.conns[u].addr
    ensures forall k :: k in t.byPidFd && t.byPidFd[k] == u ==> k == t.conns[u].at
    ensures forall k :: k in t.byTs && t.byTs[k] == u ==> k == KeyOf(t.conns[u]) && t.conns[u].ts != 0
  {
  }

  lemma RemoveOwn<K>(m: map<K, Uid>, key: K, u: Uid)
    requires forall k :: k in m && m[k] == u ==> k == key
    ensures Without(m, {u}) == if key in m && m[key] == u then m - {key} else m
  {
  }
}
