/**
The order in which the buffers of a request and of its response are walked does not matter to the
parser, as long as what is left of the request when the response starts is only content: a request
may be answered before it is fully sent.
*/
module Http1Order {
  import opened Bytes
  import opened Http1Walk
  import opened Http1Pairing
  import opened Wrappers
  import P = Http1Parser

  /** The logs of all buffers of one direction. */
  function AllLog(logs: seq<seq<Piece>>): seq<Piece> {
    if logs == [] then [] else AllLog(logs[..|logs| - 1]) + logs[|logs| - 1]
  }

  lemma AllLogInit(logs: seq<seq<Piece>>)
    requires logs != []
    ensures AllLog(logs) == AllLog(logs[..|logs| - 1]) + logs[|logs| - 1]
  {
  }

  // ---------------------------------------------------------------------------
  // The two directions
  // ---------------------------------------------------------------------------

  /** No request is read from these events of the client, when the header buffer holds c before. */
  ghost predicate Silent(c: bytes, log: seq<Piece>) {
    SeeAll(View(c, [], None), log).0.pending.None?
  }

  lemma SilentEvent(v: View, w: View, e: Event)
    requires OfDirection(true, e) && w.client == v.client && See(w, e).0.pending.None?
    ensures w.pending.None? && See(v, e) == (v.(client := See(w, e).0.client), [])
    ensures See(w, e) == (w.(client := See(w, e).0.client), [])
  {
    hide P.ParseRequestLine, P.Complete, P.Incoming;
  }

  /** Events of the client see the client's buffer only, and change nothing else if they are silent. */
  lemma {:induction false} SilentRun(v: View, log: seq<Piece>)
    requires LogOk(true, log) && Silent(v.client, log)
    ensures var w := View(v.client, [], None);
      var c := SeeAll(w, log).0.client;
      SeeAll(v, log) == (v.(client := c), []) && SeeAll(w, log) == (w.(client := c), [])
  {
    var w := View(v.client, [], None);
    if log == [] {
      SeeAllEmpty(v);
      SeeAllEmpty(w);
    } else {
      var n := |log| - 1;
      LogOkPrefix(true, log, n);
      LogOkAt(true, log, n);
      assert log == log[..n] + [log[n]];
      hide SeeAll, LogOk, See, OfDirection;
      SeeAllSnoc(w, log[..n], log[n]);
      SeeAllSnoc(v, log[..n], log[n]);
      if log[n].Sent? {
        SilentEvent(SeeAll(w, log[..n]).0, SeeAll(w, log[..n]).0, log[n].e);
      }
      SilentRun(v, log[..n]);
      if log[n].Sent? {
        SilentEvent(SeeAll(v, log[..n]).0, SeeAll(w, log[..n]).0, log[n].e);
      }
    }
  }

  lemma SilentConcat(c: bytes, a: seq<Piece>, b: seq<Piece>)
    requires LogOk(true, a + b) && Silent(c, a + b)
    ensures LogOk(true, a) && LogOk(true, b) && Silent(c, a)
    ensures Silent(SeeAll(View(c, [], None), a).0.client, b)
  {
    assert (a + b)[..|a|] == a && (a + b)[|a|..] == b;
    LogOkPrefix(true, a + b, |a|);
    hide SeeAll, LogOk;
    var w := View(c, [], None);
    SeeAllConcat(w, a, b);
    if SeeAll(w, a).0.pending.Some? { ClientKeepsWaiting(SeeAll(w, a).0, b); }
    SilentRun(w, a);
  }

  /** A request that waits is not forgotten by events of the client. */
  lemma {:induction false} ClientKeepsWaiting(v: View, log: seq<Piece>)
    requires LogOk(true, log) && v.pending.Some?
    ensures SeeAll(v, log).0.pending.Some?
  {
    if log == [] {
      SeeAllEmpty(v);
    } else {
      var n := |log| - 1;
      LogOkPrefix(true, log, n);
      LogOkAt(true, log, n);
      assert log == log[..n] + [log[n]];
      hide SeeAll, LogOk, P.ParseRequestLine, P.Complete, P.Incoming;
      ClientKeepsWaiting(v, log[..n]);
      SeeAllSnoc(v, log[..n], log[n]);
    }
  }

  /** Events of the server do not see the client's buffer. */
  ghost predicate SameButClient(r: (View, seq<Answer>), s: (View, seq<Answer>), c: bytes) {
    r == (s.0.(client := c), s.1)
  }

  lemma {:induction false} ServerPayloadFrame(v: View, payload: bytes, c: bytes)
    ensures SameButClient(ServerPayload(v.(client := c), payload), ServerPayload(v, payload), c)
    decreases |payload|
  {
    hide P.BlockEnd, P.ParseStatusLine, P.Complete, P.Incoming;
    if v.pending.Some? && v.server == [] && P.RESPONSE_PREFIX <= payload {
      var end := P.BlockEnd(payload);
      if end != -1 && end != |payload| {
        ServerPayloadFrame(ServerBytes(v, payload[..end]).0, payload[end..], c);
      }
    }
  }

  lemma ServerFrame(v: View, e: Event, c: bytes)
    requires OfDirection(false, e)
    ensures SameButClient(See(v.(client := c), e), See(v, e), c)
  {
    hide P.ParseStatusLine, P.Complete, P.Incoming, ServerPayload;
    ServerPayloadFrame(v, e.payload, c);
  }

  lemma {:induction false} ServerRun(v: View, log: seq<Piece>, c: bytes)
    requires LogOk(false, log)
    ensures SameButClient(SeeAll(v.(client := c), log), SeeAll(v, log), c) && SeeAll(v, log).0.client == v.client
  {
    if log == [] {
      SeeAllEmpty(v);
      SeeAllEmpty(v.(client := c));
    } else {
      var n := |log| - 1;
      LogOkPrefix(false, log, n);
      LogOkAt(false, log, n);
      assert log == log[..n] + [log[n]];
      hide SeeAll, LogOk, See, OfDirection;
      ServerRun(v, log[..n], c);
      SeeAllSnoc(v, log[..n], log[n]);
      SeeAllSnoc(v.(client := c), log[..n], log[n]);
      if log[n].Sent? {
        var u := SeeAll(v, log[..n]).0;
        ServerFrame(u, log[n].e, c);
        ServerFrame(u, log[n].e, u.client);
        assert u.(client := u.client) == u;
      }
    }
  }

  /** Silent events of the client and events of the server can change places. */
  lemma Commute(v: View, x: seq<Piece>, y: seq<Piece>)
    requires LogOk(true, x) && LogOk(false, y) && Silent(v.client, x)
    ensures SeeAll(v, y + x) == SeeAll(v, x + y)
  {
    hide SeeAll, LogOk, Silent;
    SeeAllConcat(v, x, y);
    SeeAllConcat(v, y, x);
    SilentRun(v, x);
    var c := SeeAll(View(v.client, [], None), x).0.client;
    ServerRun(v, y, c);
    SilentRun(SeeAll(v, y).0, x);
    assert SeeAll(v, y).1 + [] == SeeAll(v, y).1 && [] + SeeAll(v, y).1 == SeeAll(v, y).1;
  }

  // ---------------------------------------------------------------------------
  // Buffers in turns
  // ---------------------------------------------------------------------------

  /** How many of the buffers are of the request. */
  function Writes(order: seq<bool>): nat {
    if order == [] then 0 else Writes(order[..|order| - 1]) + if order[|order| - 1] then 1 else 0
  }

  /** The logs of the two directions in the order of their buffers: true is one of the request. */
  function Mixed(order: seq<bool>, xs: seq<seq<Piece>>, ys: seq<seq<Piece>>): seq<Piece> {
    if order == [] then []
    else
      var n := |order| - 1;
      if order[n] then
        if xs == [] then [] else Mixed(order[..n], xs[..|xs| - 1], ys) + xs[|xs| - 1]
      else
        if ys == [] then [] else Mixed(order[..n], xs, ys[..|ys| - 1]) + ys[|ys| - 1]
  }

  ghost predicate Fits(order: seq<bool>, xs: seq<seq<Piece>>, ys: seq<seq<Piece>>) {
    Writes(order) == |xs| && |order| == |xs| + |ys|
  }

  /** Every buffer of the request that comes after one of the response is silent. */
  ghost predicate SilentWhenMixed(v: View, order: seq<bool>, xs: seq<seq<Piece>>) {
    forall m {:trigger order[m]} :: 0 <= m < |order| && order[m] && Writes(order[..m]) < m ==>
      var i := Writes(order[..m]);
      i < |xs| && Silent(SeeAll(v, AllLog(xs[..i])).0.client, xs[i])
  }

  lemma SilentInit(v: View, order: seq<bool>, xs: seq<seq<Piece>>, xs': seq<seq<Piece>>)
    requires order != [] && SilentWhenMixed(v, order, xs)
    requires xs' <= xs && Writes(order[..|order| - 1]) <= |xs'|
    ensures SilentWhenMixed(v, order[..|order| - 1], xs')
  {
    hide Silent, SeeAll, AllLog;
    var n := |order| - 1;
    var init := order[..n];
    forall m | 0 <= m < n && init[m] && Writes(init[..m]) < m
      ensures var i := Writes(init[..m]); i < |xs'| && Silent(SeeAll(v, AllLog(xs'[..i])).0.client, xs'[i])
    {
      assert init[..m] == order[..m] && init[m] == order[m];
      var i := Writes(order[..m]);
      WritesGrow(init, m);
      assert xs'[..i] == xs[..i] && xs'[i] == xs[i];
    }
  }

  lemma {:induction false} WritesGrow(order: seq<bool>, m: nat)
    requires m < |order| && order[m]
    ensures Writes(order[..m]) < Writes(order)
    decreases |order|
  {
    var n := |order| - 1;
    if m < n {
      WritesGrow(order[..n], m);
      assert order[..n][..m] == order[..m];
    }
  }

  lemma {:induction false} WritesPrefix(order: seq<bool>, m: nat)
    requires m <= |order|
    ensures Writes(order[..m]) <= Writes(order)
    decreases |order|
  {
    if m < |order| {
      var n := |order| - 1;
      WritesPrefix(order[..n], m);
      assert order[..n][..m] == order[..m];
    } else {
      assert order[..m] == order;
    }
  }

  lemma {:induction false} WritesFit(order: seq<bool>)
    ensures Writes(order) <= |order|
  {
    if order != [] { WritesFit(order[..|order| - 1]); }
  }

  /** The last buffer is of the response. */
  lemma MixedAnswer(v: View, mixed: seq<Piece>, x: seq<Piece>, y: seq<Piece>, last: seq<Piece>)
    requires SeeAll(v, mixed) == SeeAll(v, x + y)
    ensures SeeAll(v, mixed + last) == SeeAll(v, x + (y + last))
  {
    hide SeeAll;
    SeeAllConcat(v, mixed, last);
    SeeAllConcat(v, x + y, last);
    Concats(x, y, last);
  }

  /** The last buffer is of the request. */
  lemma MixedRequest(v: View, mixed: seq<Piece>, x: seq<Piece>, y: seq<Piece>, last: seq<Piece>)
    requires SeeAll(v, mixed) == SeeAll(v, x + y) && LogOk(true, last) && LogOk(false, y)
    requires y == [] || Silent(SeeAll(v, x).0.client, last)
    ensures SeeAll(v, mixed + last) == SeeAll(v, (x + last) + y)
  {
    hide SeeAll, Silent, LogOk;
    MixedAnswer(v, mixed, x, y, last);
    Concats(x, last, y);
    if y != [] {
      Commute(SeeAll(v, x).0, last, y);
      SeeAllConcat(v, x, y + last);
      SeeAllConcat(v, x, last + y);
    }
  }

  lemma SplitAt<T>(s: seq<T>, i: nat)
    requires i < |s|
    ensures s[..i + 1] == s[..i] + [s[i]] && s == s[..i + 1] + s[i + 1..]
  {
  }

  lemma Concats<T>(x: seq<T>, y: seq<T>, z: seq<T>)
    ensures x + (y + z) == (x + y) + z && (z == [] ==> x + (z + y) == (x + y) + z)
  {
  }

  lemma LogOkInit(isReq: bool, logs: seq<seq<Piece>>)
    requires LogOk(isReq, AllLog(logs)) && logs != []
    ensures LogOk(isReq, AllLog(logs[..|logs| - 1])) && LogOk(isReq, logs[|logs| - 1])
  {
    hide LogOk;
    var a, b := AllLog(logs[..|logs| - 1]), logs[|logs| - 1];
    assert AllLog(logs)[..|a|] == a && AllLog(logs)[|a|..] == b;
    LogOkPrefix(isReq, AllLog(logs), |a|);
  }

  /** In whatever order the buffers come, the parser sees the request and then the response. */
  lemma {:induction false} OrderDoesNotMatter(v: View, order: seq<bool>, xs: seq<seq<Piece>>, ys: seq<seq<Piece>>)
    requires Fits(order, xs, ys) && LogOk(true, AllLog(xs)) && LogOk(false, AllLog(ys)) && SilentWhenMixed(v, order, xs)
    ensures SeeAll(v, Mixed(order, xs, ys)) == SeeAll(v, AllLog(xs) + AllLog(ys))
    decreases |order|
  {
    hide SeeAll, LogOk, AllLog, SilentWhenMixed;
    if order == [] {
      NothingMixed();
    } else {
      var n := |order| - 1;
      var init := order[..n];
      WritesFit(init);
      if order[n] {
        var xs', last := xs[..|xs| - 1], xs[|xs| - 1];
        SilentInit(v, order, xs, xs');
        LogOkInit(true, xs);
        OrderDoesNotMatter(v, init, xs', ys);
        if ys != [] {
          LastIsSilent(v, order, xs);
        } else {
          NothingMixed();
        }
        MixedRequest(v, Mixed(init, xs', ys), AllLog(xs'), AllLog(ys), last);
        AllLogInit(xs);
      } else {
        var ys', last := ys[..|ys| - 1], ys[|ys| - 1];
        SilentInit(v, order, xs, xs);
        LogOkInit(false, ys);
        OrderDoesNotMatter(v, init, xs, ys');
        MixedAnswer(v, Mixed(init, xs, ys'), AllLog(xs), AllLog(ys'), last);
        AllLogInit(ys);
      }
    }
  }

  lemma LastIsSilent(v: View, order: seq<bool>, xs: seq<seq<Piece>>)
    requires order != [] && order[|order| - 1] && Writes(order) == |xs| && |order| > |xs| && SilentWhenMixed(v, order, xs)
    ensures |xs| > 0 && Silent(SeeAll(v, AllLog(xs[..|xs| - 1])).0.client, xs[|xs| - 1])
  {
    hide SeeAll, Silent, AllLog;
    assert order[|order| - 1];
  }

  lemma NothingMixed()
    ensures AllLog([]) == [] && AllLog([]) + AllLog([]) == Mixed([], [], [])
  {
  }
}
