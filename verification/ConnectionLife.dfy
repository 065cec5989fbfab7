/**
When a connection counts as closed, and when it is forgotten, said by the events alone: for every run of
opens, closes and collections with distinct stamps, without looking into the indexes.
*/
module ConnectionLife {
  import opened Connections
  import opened Wrappers

  // ---------------------------------------------------------------------------
  // The life of the connection opened by event i, by the events before n
  // ---------------------------------------------------------------------------

  /** Its process has opened another connection on its fd. */
  ghost predicate Reused(es: seq<Event>, i: nat, n: nat)
    requires i < |es| && es[i].Opened? && n <= |es|
  {
    exists j :: i < j < n && es[j].Opened? && es[j].at == es[i].at
  }

  /** Another connection between its addresses was opened. */
  ghost predicate Taken(es: seq<Event>, i: nat, n: nat)
    requires i < |es| && es[i].Opened? && n <= |es|
  {
    exists j :: i < j < n && es[j].Opened? && es[j].addr == es[i].addr
  }

  /** The event j ends it: its fd is used again; it is closed under its own process, fd and stamp, or
      under any stamp if it has none; or it has one, and a collection finds its addresses taken. */
  ghost predicate Ends(es: seq<Event>, i: nat, j: nat)
    requires i < |es| && es[i].Opened? && j < |es|
  {
    match es[j]
    case Opened(_, at, _, _) => at == es[i].at
    case Closed(at, ts, _) => at == es[i].at && !Reused(es, i, j) && (es[i].ts == 0 || ts == es[i].ts)
    case Collected(_) => es[i].ts != 0 && Taken(es, i, j)
    case Swept(_, _, _) => false
  }

  /** When it was closed: at the first event that ends it; but the first other connection on its fd closes
      it again. */
  ghost function ClosedAt(es: seq<Event>, i: nat, n: nat): Option<int>
    requires i < n <= |es| && es[i].Opened?
  {
    if n == i + 1 then None
    else
      var was := ClosedAt(es, i, n - 1);
      if !Ends(es, i, n - 1) then was
      else if was.None? || (es[n - 1].Opened? && !Reused(es, i, n - 1)) then Some(es[n - 1].now)
      else was
  }

  /** It is open if and only if nothing ended it. */
  lemma {:induction false} OpenIffNothingEndedIt(es: seq<Event>, i: nat, n: nat)
    requires i < n <= |es| && es[i].Opened?
    ensures ClosedAt(es, i, n).None? <==> forall j :: i < j < n ==> !Ends(es, i, j)
  {
    hide Ends;
    if n > i + 1 { OpenIffNothingEndedIt(es, i, n - 1); }
  }

  /** The time is that of the first event that ended it, if its fd was not used again, and else that of
      the first open that did. */
  lemma {:induction false} ClosedAtTheFirst(es: seq<Event>, i: nat, n: nat, j: nat)
    requires i < j < n <= |es| && es[i].Opened? && Ends(es, i, j)
    requires if Reused(es, i, n) then es[j].Opened? && !Reused(es, i, j) else forall k :: i < k < j ==> !Ends(es, i, k)
    ensures ClosedAt(es, i, n) == Some(es[j].now)
  {
    if n == j + 1 {
      OpenIffNothingEndedIt(es, i, j);
    } else {
      ClosedAtTheFirst(es, i, n - 1, j);
    }
  }

  /** Such a run: a connection is closed, its fd is used again, and its closing time is the later one. */
  lemma ReopenClosesAgain(addr: Addr, other: Addr, at: PidFd, closed: int, reopened: int) returns (es: seq<Event>, ts: seq<Table>)
    ensures IsRun(es, ts) && es == [Opened(addr, at, 0, closed), Closed(at, 0, closed), Opened(other, at, 0, reopened)]
    ensures 0 in ts[2].conns && ts[2].conns[0].closed == Some(closed)
    ensures 0 in ts[3].conns && ts[3].conns[0].closed == Some(reopened)
  {
    es := [Opened(addr, at, 0, closed), Closed(at, 0, closed), Opened(other, at, 0, reopened)];
    var a := Step(EMPTY, es[0]);
    var b := Step(a, es[1]);
    ts := [EMPTY, a, b, Step(b, es[2])];
    assert a == Table(map[0 := Conn(addr, at, 0, None)], map[addr := 0], map[at := 0], map[], 1);
  }

  lemma ReusedIsClosed(es: seq<Event>, i: nat, n: nat)
    requires i < n <= |es| && es[i].Opened? && Reused(es, i, n)
    ensures ClosedAt(es, i, n).Some?
  {
    OpenIffNothingEndedIt(es, i, n);
    var j :| i < j < n && es[j].Opened? && es[j].at == es[i].at;
    assert Ends(es, i, j);
  }

  /** The event n forgets it: a collection more than five seconds after it was closed, unless it has no
      stamp and its addresses were taken; or a sweep, while it has its addresses, that finds them not
      established or it closed for longer than the interval. */
  ghost predicate Drops(es: seq<Event>, i: nat, n: nat)
    requires i < n < |es| && es[i].Opened?
  {
    var closed := ClosedAt(es, i, n);
    match es[n]
    case Opened(_, _, _, _) => false
    case Closed(_, _, _) => false
    case Collected(now) => closed.Some? && now - closed.value > 5_000_000_000 && (es[i].ts != 0 || !Taken(es, i, n))
    case Swept(now, interval, established) =>
      !Taken(es, i, n) && (es[i].addr !in established || (closed.Some? && now - closed.value > interval))
  }

  ghost predicate NoneDrops(es: seq<Event>, i: nat, n: nat)
    requires i < n <= |es| && es[i].Opened?
  {
    forall j :: i < j < n ==> !Drops(es, i, j)
  }

  // ---------------------------------------------------------------------------
  // The tables keep to it
  // ---------------------------------------------------------------------------

  ghost predicate OwnsItsFd(t: Table, u: Uid, at: PidFd) {
    at in t.byPidFd && t.byPidFd[at] == u
  }

  ghost predicate InStep(t: Table, es: seq<Event>, i: nat, n: nat, u: Uid)
    requires i < n <= |es| && es[i].Opened?
  {
    && Has(t, u, PidFdTs(es[i].at, es[i].ts)) && (es[i].ts != 0 ==> Found(t, u, PidFdTs(es[i].at, es[i].ts)))
    && t.conns[u].addr == es[i].addr && t.conns[u].closed == ClosedAt(es, i, n)
    && (OwnsItsFd(t, u, es[i].at) <==> !Reused(es, i, n))
    && (HasAddress(t, u) <==> !Taken(es, i, n))
  }

  lemma JustOpenedIsInStep(t: Table, es: seq<Event>, i: nat)
    requires Ok(t) && i < |es| && es[i].Opened?
    ensures InStep(Step(t, es[i]), es, i, i + 1, t.next)
  {
    hide Stamped, OneEach;
  }

  lemma OneMore(es: seq<Event>, i: nat, n: nat)
    requires i < n < |es| && es[i].Opened?
    ensures Reused(es, i, n + 1) <==> Reused(es, i, n) || (es[n].Opened? && es[n].at == es[i].at)
    ensures Taken(es, i, n + 1) <==> Taken(es, i, n) || (es[n].Opened? && es[n].addr == es[i].addr)
  {
  }

  /** What an open does to a connection that was there. */
  lemma OpenLeaves(t: Table, e: Event, u: Uid, key: PidFdTs)
    requires Ok(t) && e.Opened? && Allowed(t, e) && Has(t, u, key)
    ensures var n := Step(t, e);
      && Has(n, u, key) && (key.ts != 0 && Found(t, u, key) ==> Found(n, u, key))
      && n.conns[u] == (if OwnsItsFd(t, u, e.at) then t.conns[u].(closed := Some(e.now)) else t.conns[u])
      && (OwnsItsFd(n, u, key.at) <==> OwnsItsFd(t, u, key.at) && key.at != e.at)
      && (HasAddress(n, u) <==> HasAddress(t, u) && t.conns[u].addr != e.addr)
  {
    hide Stamped, OneEach;
    assert u != t.next;
  }

  lemma OpenedInStep(t: Table, es: seq<Event>, i: nat, n: nat, u: Uid)
    requires Ok(t) && i < n < |es| && es[i].Opened? && InStep(t, es, i, n, u) && es[n].Opened? && Allowed(t, es[n])
    ensures InStep(Step(t, es[n]), es, i, n + 1, u)
  {
    OneMore(es, i, n);
    if Reused(es, i, n) { ReusedIsClosed(es, i, n); }
    if OwnsItsFd(t, u, es[n].at) { OwnerIsAt(t, u, es[n].at); }
    hide Ok, Step, Reused, Taken, Found, HasAddress, OwnsItsFd, Allowed;
    OpenLeaves(t, es[n], u, PidFdTs(es[i].at, es[i].ts));
  }

  lemma OwnerIsAt(t: Table, u: Uid, at: PidFd)
    requires Ok(t) && OwnsItsFd(t, u, at)
    ensures u in t.conns && t.conns[u].at == at
  {
  }

  lemma ClosedInStep(t: Table, es: seq<Event>, i: nat, n: nat, u: Uid)
    requires Ok(t) && i < n < |es| && es[i].Opened? && InStep(t, es, i, n, u) && es[n].Closed?
    ensures InStep(Step(t, es[n]), es, i, n + 1, u)
  {
    OneMore(es, i, n);
    hide Reused, Taken;
  }

  lemma TrackedIff(t: Table, u: Uid, key: PidFdTs)
    requires Ok(t) && Has(t, u, key) && (key.ts != 0 ==> Found(t, u, key))
    ensures u in t.byAddr.Values <==> HasAddress(t, u)
    ensures u in t.byTs.Values <==> key.ts != 0
  {
  }

  /** What a collection does to a connection it does not forget. */
  lemma CollectionLeaves(t: Table, now: int, u: Uid, key: PidFdTs)
    requires Ok(t) && Has(t, u, key) && (key.ts != 0 ==> Found(t, u, key)) && u !in ToForget(t, now)
    ensures var g := GcClosed(t, now);
      && Has(g, u, key) && (key.ts != 0 ==> Found(g, u, key))
      && g.conns[u] ==
        (if t.conns[u].closed.None? && key.ts != 0 && !HasAddress(t, u) then t.conns[u].(closed := Some(now)) else t.conns[u])
      && (OwnsItsFd(g, u, key.at) <==> OwnsItsFd(t, u, key.at)) && (HasAddress(g, u) <==> HasAddress(t, u))
  {
    hide Stamped, OneEach;
    var first := ExpiredByAddress(t, now);
    TrackedIff(t, u, key);
    GcForgetsExactlyTheExpired(t, now);
    WithoutValues(t.byTs, first, u);
    hide GcClosed;
    assert u !in first;
    assert HasAddress(Forget(t, first), u) <==> HasAddress(t, u);
  }

  lemma CollectedInStep(t: Table, es: seq<Event>, i: nat, n: nat, u: Uid)
    requires Ok(t) && i < n < |es| && es[i].Opened? && InStep(t, es, i, n, u) && es[n].Collected? && !Drops(es, i, n)
    ensures InStep(Step(t, es[n]), es, i, n + 1, u)
  {
    var key := PidFdTs(es[i].at, es[i].ts);
    OneMore(es, i, n);
    TrackedIff(t, u, key);
    CollectedStep(t, es[n].now);
    assert u !in ToForget(t, es[n].now);
    hide Ok, Step, GcClosed, Reused, Taken, Found, HasAddress, OwnsItsFd, ToForget;
    CollectionLeaves(t, es[n].now, u, key);
  }

  /** What a sweep does to a connection that is not stale. */
  lemma SweepLeaves(t: Table, e: Event, u: Uid, key: PidFdTs)
    requires Ok(t) && e.Swept? && Has(t, u, key) && (key.ts != 0 ==> Found(t, u, key))
    requires u !in Stale(t, e.now, e.interval, e.established)
    ensures var g := Step(t, e);
      && Has(g, u, key) && (key.ts != 0 ==> Found(g, u, key)) && g.conns == t.conns
      && (OwnsItsFd(g, u, key.at) <==> OwnsItsFd(t, u, key.at)) && (HasAddress(g, u) <==> HasAddress(t, u))
  {
    GcIsForget(t, e.now, e.interval, e.established);
    hide Gc, Stale;
  }

  lemma StaleIff(t: Table, e: Event, u: Uid, key: PidFdTs)
    requires Ok(t) && e.Swept? && Has(t, u, key)
    ensures u in Stale(t, e.now, e.interval, e.established) <==>
      HasAddress(t, u) && (t.conns[u].addr !in e.established || Expired(t, u, e.now, e.interval))
  {
  }

  lemma SweptInStep(t: Table, es: seq<Event>, i: nat, n: nat, u: Uid)
    requires Ok(t) && i < n < |es| && es[i].Opened? && InStep(t, es, i, n, u) && es[n].Swept? && !Drops(es, i, n)
    ensures InStep(Step(t, es[n]), es, i, n + 1, u)
  {
    var key := PidFdTs(es[i].at, es[i].ts);
    OneMore(es, i, n);
    StaleIff(t, es[n], u, key);
    hide Ok, Step, Reused, Taken, Found, HasAddress, OwnsItsFd, Stale;
    SweepLeaves(t, es[n], u, key);
  }

  /** In every run: as long as no event drops the connection opened by event i, it is closed since the time
      the events say, or open if they say so; it owns its fd until that is used again and its addresses
      until they are taken, and it is found by its stamp if it has one. */
  lemma {:induction false} ClosedAsTheEventsSay(es: seq<Event>, ts: seq<Table>, i: nat, n: nat)
    requires IsRun(es, ts) && i < n <= |es| && es[i].Opened? && NoneDrops(es, i, n)
    ensures InStep(ts[n], es, i, n, ts[i].next)
    decreases n
  {
    hide IsRun, Ok, Step, Allowed, InStep, Drops;
    RunStep(es, ts, n - 1);
    EveryRunIsOk(es, ts, n - 1);
    var u, t := ts[i].next, ts[n - 1];
    if n == i + 1 {
      JustOpenedIsInStep(ts[i], es, i);
    } else {
      ClosedAsTheEventsSay(es, ts, i, n - 1);
      match es[n - 1]
      case Opened(_, _, _, _) => OpenedInStep(t, es, i, n - 1, u);
      case Closed(_, _, _) => ClosedInStep(t, es, i, n - 1, u);
      case Collected(_) => CollectedInStep(t, es, i, n - 1, u);
      case Swept(_, _, _) => SweptInStep(t, es, i, n - 1, u);
    }
  }

  // ---------------------------------------------------------------------------
  // Until when it is found
  // ---------------------------------------------------------------------------

  lemma DropsIsForgets(t: Table, es: seq<Event>, i: nat, n: nat, u: Uid)
    requires Ok(t) && i < n < |es| && es[i].Opened? && es[i].ts != 0 && InStep(t, es, i, n, u)
    ensures Forgets(t, es[n], u) <==> Drops(es, i, n)
  {
    if es[n].Swept? { StaleIff(t, es[n], u, PidFdTs(es[i].at, es[i].ts)); }
    hide Taken, Reused, ClosedAt, Stale;
  }

  lemma {:induction false} KeptIffNoneDrops(es: seq<Event>, ts: seq<Table>, i: nat, n: nat)
    requires IsRun(es, ts) && i < n <= |es| && es[i].Opened? && es[i].ts != 0
    ensures Kept(es, ts, i, n, ts[i].next) <==> NoneDrops(es, i, n)
    decreases n
  {
    hide IsRun, Ok, Forgets, InStep, Drops;
    RunStep(es, ts, n - 1);
    var u := ts[i].next;
    KeptNext(es, ts, i, n, u);
    if n > i + 1 {
      KeptIffNoneDrops(es, ts, i, n - 1);
      if NoneDrops(es, i, n - 1) {
        ClosedAsTheEventsSay(es, ts, i, n - 1);
        EveryRunIsOk(es, ts, n - 1);
        DropsIsForgets(ts[n - 1], es, i, n - 1, u);
      }
    }
  }

  /** In every run, by the events alone: an event with the stamp of a connection finds it until the first
      event that drops it, and nothing afterwards. */
  lemma FoundUntilDropped(es: seq<Event>, ts: seq<Table>, i: nat, n: nat)
    requires IsRun(es, ts) && i < n <= |es| && es[i].Opened? && es[i].ts != 0
    ensures Lookup(ts[n], es[i].at, es[i].ts) == if NoneDrops(es, i, n) then Some(ts[i].next) else None
  {
    hide IsRun, Kept, NoneDrops, Lookup;
    KeptIffNoneDrops(es, ts, i, n);
    FoundUntilForgotten(es, ts, i, n);
  }

  /** An event without a stamp finds a connection that is not dropped if and only if its fd was not used
      again. */
  lemma FoundByItsFd(es: seq<Event>, ts: seq<Table>, i: nat, n: nat)
    requires IsRun(es, ts) && i < n <= |es| && es[i].Opened? && NoneDrops(es, i, n)
    ensures Lookup(ts[n], es[i].at, 0) == Some(ts[i].next) <==> !Reused(es, i, n)
  {
    hide IsRun, NoneDrops, Reused, Taken, ClosedAt;
    ClosedAsTheEventsSay(es, ts, i, n);
  }
}
