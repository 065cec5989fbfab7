/**
The HTTP/2 parser of one connection as the object it is: maps and fields updated in place, frame by
frame. Its methods are proved against the functions of Http2Streams, about which the results on
whole runs are stated. The entries of a map are visited in an order that is not determined.
*/
module Http2Connection {
  import opened Bytes
  import F = Http2Frames
  import P = Http1Parser
  import opened Http2Streams
  import opened Wrappers

  lemma StatusFirst(env: Env, l: Local, id: nat)
    ensures WithStatus(env, l, id, []) == if id in l.statuses then l else l.(statuses := l.statuses[id := 0])
  {
  }

  lemma StatusNext(env: Env, l: Local, id: nat, fs: seq<Field>)
    requires fs != []
    ensures var f := fs[|fs| - 1];
      var m := WithStatus(env, l, id, fs[..|fs| - 1]);
      WithStatus(env, l, id, fs) ==
        if f.name == Ascii(":status") then m.(statuses := m.statuses[id := env.number(f.value)])
        else if f.name == Ascii("grpc-status") then m.(grpc := m.grpc[id := env.number(f.value)])
        else m
  {
    assert Ascii(":status") != Ascii("grpc-status");
  }

  class Parser {
    const env: Env
    var clientParts: F.Parts
    var serverParts: F.Parts
    var owners: Owners
    var decs: Decoders
    var store: map<Uid, Stream>
    var active: map<nat, Uid>
    var held: map<nat, Uid>
    var next: Uid
    var lastGc: nat

    /** The streams returned so far. */
    ghost var gone: set<Uid>

    function InFlight(): Streams
      reads this
    {
      Streams(store, active, held, next)
    }

    ghost function View(): Http2Streams.Parser
      reads this
    {
      Http2Streams.Parser(Frames(F.Meaning(clientParts), F.Meaning(serverParts)), owners, decs, InFlight(), lastGc)
    }

    ghost function Now(local: Local): Mid
      reads this
    {
      Mid(InFlight(), owners, decs, local)
    }

    ghost predicate Valid()
      reads this
    {
      && F.Valid(env.o.enabled, clientParts) && F.Valid(env.o.enabled, serverParts)
      && ParserOk(env.o.enabled, View(), gone)
    }

    constructor (env: Env)
      ensures Valid() && View() == EMPTY && gone == {} && this.env == env
    {
      this.env := env;
      clientParts, serverParts := F.NOTHING, F.NOTHING;
      owners, decs := Owners(None, None), Decoders([], []);
      store, active, held, next, lastGc := map[], map[], map[], 0, 0;
      gone := {};
    }

    method ReadRequest(was: Stream, fs: seq<Field>) returns (st: Stream)
      ensures st == OnRequestFields(env, was, fs)
    {
      hide OnInfo, RecordBodyHeader;
      st := was;
      for i := 0 to |fs|
        invariant st == OnRequestFields(env, was, fs[..i])
      {
        assert fs[..i + 1][..i] == fs[..i];
        st := st.(info := OnInfo(st.info, fs[i]));
        if env.o.enabled {
          st := st.(req := st.req.(hdr := RecordBodyHeader(env, st.req.hdr, fs[i])));
        }
      }
      assert fs[..|fs|] == fs;
    }

    /** The fields of a response: the status counts for the event, the header fields for the stream. */
    method ReadResponse(id: nat, was: Option<Stream>, fs: seq<Field>, local: Local) returns (st: Option<Stream>, l: Local)
      ensures st == if Notes(was) then Some(OnResponseFields(env, was.value, fs)) else was
      ensures l == WithStatus(env, local, id, fs)
    {
      hide RecordBodyHeader, WithStatus;
      StatusFirst(env, local, id);
      st, l := was, local;
      if id !in l.statuses {
        l := l.(statuses := l.statuses[id := 0]);
      }
      for i := 0 to |fs|
        invariant st == if Notes(was) then Some(OnResponseFields(env, was.value, fs[..i])) else was
        invariant Notes(st) == Notes(was)
        invariant l == WithStatus(env, local, id, fs[..i])
      {
        assert fs[..i + 1][..i] == fs[..i];
        StatusNext(env, local, id, fs[..i + 1]);
        if Notes(st) {
          st := Some(st.value.(resp := st.value.resp.(hdr := RecordBodyHeader(env, st.value.resp.hdr, fs[i]))));
        }
        if fs[i].name == Ascii(":status") {
          l := l.(statuses := l.statuses[id := env.number(fs[i].value)]);
        } else if fs[i].name == Ascii("grpc-status") {
          l := l.(grpc := l.grpc[id := env.number(fs[i].value)]);
        }
      }
      assert fs[..|fs|] == fs;
    }

    /** Whether the header fields of a response are kept. */
    predicate Notes(st: Option<Stream>) {
      env.o.enabled && st.Some? && !st.value.life.haveResp
    }

    method HandleHeaders(dir: Dir, h: F.Header, body: bytes, time: nat, local: Local) returns (l: Local)
      requires Known(InFlight())
      modifies this`decs, this`store, this`active, this`next
      ensures Known(InFlight()) && Now(l) == OnBlock(env, dir, old(Now(local)), h, body, time)
    {
      ApplyKnown(env, dir, Now(local), F.Block(h, body), time, 0);
      hide OnRequestFields, OnResponseFields, LastField, NewStream;
      l := local;
      decs := Write(decs, dir, Wrote(body));
      var fs := env.hpack(History(decs, dir));
      var id := h.streamId;
      if dir.Client? {
        if id !in active {
          store := store[next := NewStream(env, id, time)];
          active := active[id := next];
          next := next + 1;
        }
        var st := ReadRequest(store[active[id]], fs);
        store := store[active[id] := st];
        return;
      }
      var own := if id in active then Some(store[active[id]]) else None;
      own, l := ReadResponse(id, own, fs, local);
      if env.o.enabled && own.Some? {
        var st := own.value;
        if Ends(h) {
          st := EndResponse(st);
          l := l.(touched := l.touched + {id});
        }
        store := store[active[id] := st];
      }
    }

    method ApplyAct(dir: Dir, a: F.Act, time: nat, now: int, local: Local) returns (l: Local)
      requires Known(InFlight())
      modifies this`decs, this`store, this`active, this`next, this`owners
      ensures Known(InFlight()) && Now(l) == Apply(env, dir, old(Now(local)), a, time, now)
    {
      ApplyKnown(env, dir, Now(local), a, time, now);
      hide Append, OnBlock;
      l := local;
      match a
      case Block(h, body) => l := HandleHeaders(dir, h, body, time, local);
      case Open(h) =>
        owners := WithOwner(owners, dir, Lookup(InFlight(), h.streamId));
        AppendBytes(dir, h, [], now, local);
      case Data(h, b) => AppendBytes(dir, h, b, now, local);
      case Close(h) =>
        var o := OwnerOf(owners, dir);
        if o.Some? && o.value in store && Ends(h) && dir.Server? {
          store := store[o.value := EndResponse(store[o.value])];
          l := l.(touched := l.touched + {store[o.value].id});
        }
        owners := WithOwner(owners, dir, None);
    }

    method AppendBytes(dir: Dir, h: F.Header, b: bytes, now: int, ghost local: Local)
      modifies this`store
      ensures Now(local) == AppendData(dir, old(Now(local)), h, b, now)
    {
      hide P.Add;
      var o := OwnerOf(owners, dir);
      if o.Some? && o.value in store {
        var st := store[o.value];
        if b != [] || Padded(h) {
          match dir
          case Client =>
            st := st.(req := if Padded(h) then st.req.(skipped := true) else st.req.(body := P.Add(st.req.body, b)));
          case Server =>
            st := st.(life := st.life.(lastEvent := now),
                      resp := if Padded(h) then st.resp.(skipped := true) else st.resp.(body := P.Add(st.resp.body, b)));
        }
        store := store[o.value := st];
      }
    }

    method TakeAnswer(id: nat, local: Local, was: set<nat>, time: nat, now: int) returns (touched: set<nat>)
      requires id in local.statuses && (id in active ==> active[id] in store && store[active[id]].id == id)
      modifies this`store, this`held
      ensures store == if id in active then old(store)[active[id] := Answered(old(store[active[id]]), local, time, now)] else old(store)
      ensures if id in active && !old(store[active[id]]).life.haveResp && !IsInterim(local.statuses[id])
        then held == old(held)[id := active[id]] && touched == was + {id}
        else held == old(held) && touched == was
    {
      touched := was;
      if id in active {
        var u := active[id];
        var r := store[u];
        if r.life.haveResp {
          if id in local.grpc {
            r := r.(answer := r.answer.(grpc := local.grpc[id]));
          }
        } else if !IsInterim(local.statuses[id]) {
          r := r.(answer := Answer(local.statuses[id], GrpcOf(local, id, -1), P.Elapsed(time, r.time)),
                  life := r.life.(haveResp := true, at := now, lastEvent := now));
          held := held[id := u];
          touched := touched + {id};
        }
        store := store[u := r];
      }
    }

    /** Notes the answers that came with this event. */
    method TakeAnswers(local: Local, time: nat, now: int) returns (touched: set<nat>)
      requires Consistent(InFlight())
      modifies this`store, this`held
      ensures InFlight() == AnswerAll(old(InFlight()), local, time, now)
      ensures touched == local.touched + Fresh(old(InFlight()), local)
    {
      hide Answered, StoreBut, HeldBut, AnswerAll, Fresh, Consistent;
      ghost var s := InFlight();
      ConsistentKnown(s);
      AllLeft(s, local, time, now);
      NoneLeft(s, local, time, now);
      touched := local.touched;
      var todo := local.statuses.Keys;
      while todo != {}
        invariant todo <= local.statuses.Keys
        invariant store == StoreBut(s, local, todo, time, now) && held == HeldBut(s, local, todo)
        invariant touched == local.touched + (Fresh(s, local) - todo)
      {
        var id :| id in todo;
        StoreNext(s, local, todo, id, time, now);
        HeldNext(s, local, todo, id);
        FreshNext(s, local, todo, id);
        touched := TakeAnswer(id, local, touched, time, now);
        todo := todo - {id};
      }
    }

    /** Returns these streams and takes them out of flight. */
    method FinishAll(ids: set<nat>, make: Stream -> Request) returns (out: seq<Result>)
      requires Consistent(InFlight()) && ids <= active.Keys
      modifies this`active, this`held
      ensures InFlight() == Remove(old(InFlight()), ids)
      ensures AsSet(out) == Results(old(InFlight()), ids, make) && Unique(out)
    {
      ghost var s := InFlight();
      assert s.active - {} == s.active && s.held - {} == s.held;
      assert Results(s, {}, make) == {};
      hide Results, AsSet, Unique;
      out := [];
      assert AsSet(out) == {} && Unique(out) by { NoneYet(); }
      var todo := ids;
      while todo != {}
        invariant todo <= ids
        invariant active == s.active - (ids - todo) && held == s.held - (ids - todo)
        invariant AsSet(out) == Results(s, ids - todo, make) && Unique(out)
      {
        var id :| id in todo;
        var r := Result(active[id], make(store[active[id]]));
        OneMore(out, r, s, ids - todo, id, make);
        assert ids - (todo - {id}) == (ids - todo) + {id};
        out := out + [r];
        active := active - {id};
        held := held - {id};
        todo := todo - {id};
      }
      assert ids - todo == ids;
    }

    method Complete(local: Local, time: nat, now: int) returns (out: seq<Result>)
      requires MidOk(Now(local), gone)
      modifies this`store, this`active, this`held
      ensures (InFlight(), AsSet(out)) == CompleteStreams(env, old(InFlight()), local, time, now) && Unique(out)
    {
      AnswerAllKeeps(Now(local), gone, time, now);
      hide AnswerAll, Fresh, Results, Remove;
      var touched := TakeAnswers(local, time, now);
      var ids := set id | id in active && id in touched && store[active[id]].life.haveResp && store[active[id]].life.respEnded;
      out := FinishAll(ids, Finisher(env.o));
    }

    /** Without bodies, a stream is returned with its response headers. */
    method ReplyNow(local: Local, time: nat) returns (out: seq<Result>)
      requires Consistent(InFlight())
      modifies this`active, this`held
      ensures (InFlight(), AsSet(out)) == Reply(old(InFlight()), local, time) && Unique(out)
    {
      hide Results, Remove;
      var ids := set id | id in active && id in local.statuses;
      out := FinishAll(ids, Replier(local, time));
    }

    method CollectOld(time: nat)
      requires Known(InFlight())
      modifies this`active, this`held, this`lastGc
      ensures (InFlight(), lastGc) == Gc(old(InFlight()), old(lastGc), time)
    {
      if Old(time, lastGc) {
        if lastGc > 0 {
          var ids := set id | id in active && Old(time, store[active[id]].time);
          active := active - ids;
          held := held - ids;
        }
        lastGc := time;
      }
    }

    method Flush(now: int) returns (out: seq<Result>)
      requires Valid()
      modifies this`active, this`held, this`gone
      ensures Valid() && (View(), AsSet(out)) == Http2Streams.Flush(env, old(View()), now)
      ensures Unique(out) && gone == old(gone) + Uids(AsSet(out)) && old(gone) !! Uids(AsSet(out))
    {
      FlushKeeps(env, View(), now, gone);
      var due := serverParts.data.Some?;
      var ids := set id | id in held && !(due && owners.server == Some(held[id])) &&
        (now - store[held[id]].life.lastEvent >= env.o.wait || now - store[held[id]].life.at >= HOLD_MAX);
      assert ids == Quiet(env, View(), now);
      ghost var s := InFlight();
      assert Http2Streams.Flush(env, View(), now).1 == Results(s, ids, Finisher(env.o));
      hide Results, Remove, ParserOk;
      out := FinishAll(ids, Finisher(env.o));
      gone := gone + Uids(AsSet(out));
    }

    /** Everything the frames of one event do to the streams. */
    method ApplyActs(dir: Dir, acts: seq<F.Act>, time: nat, now: int) returns (local: Local)
      requires Known(InFlight())
      modifies this`decs, this`store, this`active, this`next, this`owners
      ensures Known(InFlight()) && Now(local) == ApplyAll(env, dir, old(Now(NONE)), acts, time, now)
    {
      hide Apply;
      local := NONE;
      for i := 0 to |acts|
        invariant Known(InFlight()) && Now(local) == ApplyAll(env, dir, old(Now(NONE)), acts[..i], time, now)
      {
        assert acts[..i + 1][..i] == acts[..i];
        local := ApplyAct(dir, acts[i], time, now, local);
      }
      assert acts[..|acts|] == acts;
    }

    /** The state of one direction between events. */
    method Frame(dir: Dir, b: bytes) returns (acts: seq<F.Act>, early: bool)
      requires Valid() && b != []
      modifies this`clientParts, this`serverParts
      ensures F.Valid(env.o.enabled, clientParts) && F.Valid(env.o.enabled, serverParts) && F.Brings(acts)
      ensures var st := FrameState(old(View()).frames, dir);
        var (t, out) := F.Feed(env.o.enabled, st, b);
        F.Flat(acts) == out && View().frames == WithFrameState(old(View()).frames, dir, F.Left(t)) && early == StaysPartial(st, b)
    {
      hide F.Feed, F.Flat, F.Brings, F.Left, ParserOk;
      var parts: F.Parts := if dir.Client? then clientParts else serverParts;
      parts, acts, early := F.ParseFrames(env.o.enabled, parts, b);
      if dir.Client? {
        clientParts := parts;
      } else {
        serverParts := parts;
      }
    }

    method Proceed(dir: Dir, acts: seq<F.Act>, time: nat, now: int) returns (out: seq<Result>)
      requires MidOk(Now(NONE), gone) && F.Brings(acts)
      modifies this`decs, this`store, this`active, this`held, this`next, this`owners, this`lastGc
      ensures (View(), AsSet(out)) == Http2Streams.Proceed(env, old(View()), dir, F.Flat(acts), time, now) && Unique(out)
    {
      hide F.Flat, F.Brings, ApplyAll, CompleteStreams, Reply, Gc, AsSet, Unique, F.Valid, F.Meaning, MidOk;
      MidIs(Now(NONE), gone);
      ApplyFlat(env, dir, Now(NONE), acts, time, now);
      ApplyAllKeeps(env, dir, Now(NONE), acts, time, now, gone);
      var local := ApplyActs(dir, acts, time, now);
      CompletedKnown(env, InFlight(), local, time, now);
      if env.o.enabled {
        out := Complete(local, time, now);
      } else {
        assert Consistent(InFlight()) by { MidConsistent(Now(local), gone); }
        out := ReplyNow(local, time);
      }
      CollectOld(time);
      decs := Write(decs, dir, Closed);
    }

    method ParseAt(dir: Dir, payload: bytes, time: nat, now: int) returns (out: seq<Result>)
      requires Valid()
      modifies this
      ensures Valid() && (View(), AsSet(out)) == Http2Streams.ParseAt(env, old(View()), dir, payload, time, now)
      ensures Unique(out) && gone == old(gone) + Uids(AsSet(out)) && old(gone) !! Uids(AsSet(out))
    {
      ghost var p := View();
      assert Known(p.s) && ParserOk(env.o.enabled, p, gone);
      NoneYet();
      assert gone + Uids({}) == gone;
      hide F.Feed, F.Flat, F.Brings, F.Left, F.Strip, F.Valid, F.Meaning, Http2Streams.Proceed, AsSet, Uids, Unique, MidOk,
        ParserOk, Known, Distinct;
      MidStarts(env.o.enabled, p, gone);
      ParseKeeps(env, p, dir, payload, time, now, gone);
      var b := F.Strip(dir.Client?, payload);
      out := [];
      if b == [] {
        return;
      }
      var acts, early := Frame(dir, b);
      assert (FrameState(View().frames, dir), F.Flat(acts)) == F.Framed(env.o.enabled, dir.Client?, FrameState(p.frames, dir), payload);
      if early {
        decs := Write(decs, dir, Closed);
        return;
      }
      out := Proceed(dir, acts, time, now);
      gone := gone + Uids(AsSet(out));
    }
  }

  lemma MidConsistent(m: Mid, gone: set<Uid>)
    requires MidOk(m, gone)
    ensures Consistent(m.s)
  {
  }

  ghost function AsSet(out: seq<Result>): set<Result> {
    set r | r in out
  }

  ghost predicate Unique(out: seq<Result>) {
    forall i, j :: 0 <= i < j < |out| ==> out[i].uid != out[j].uid
  }

  lemma NoneYet()
    ensures AsSet([]) == {} && Unique([])
  {
  }

  lemma OneMore(out: seq<Result>, r: Result, s: Streams, ids: set<nat>, id: nat, make: Stream -> Request)
    requires Consistent(s) && ids <= s.active.Keys && id in s.active && id !in ids
    requires r == Result(s.active[id], make(s.store[s.active[id]]))
    requires AsSet(out) == Results(s, ids, make) && Unique(out)
    ensures AsSet(out + [r]) == Results(s, ids + {id}, make) && Unique(out + [r])
  {
    forall i | 0 <= i < |out|
      ensures out[i].uid != r.uid
    {
      assert out[i] in AsSet(out);
    }
    assert AsSet(out + [r]) == AsSet(out) + {r};
    assert Results(s, ids + {id}, make) == Results(s, ids, make) + {r};
  }

  /** The stream gets an answer, and it is not still to be looked at. */
  predicate Ripe(s: Streams, l: Local, todo: set<nat>, u: Uid) {
    IsActive(s, u) && s.store[u].id in l.statuses && s.store[u].id !in todo
  }

  lemma RipeNext(s: Streams, l: Local, todo: set<nat>, id: nat, u: Uid)
    requires Consistent(s) && id in todo && id in l.statuses
    ensures Ripe(s, l, todo - {id}, u) == (Ripe(s, l, todo, u) || (id in s.active && u == s.active[id]))
    ensures id in s.active && u == s.active[id] ==> u in s.store && s.store[u].id == id && !Ripe(s, l, todo, u)
  {
  }

  ghost function StoreBut(s: Streams, l: Local, todo: set<nat>, time: nat, now: int): map<Uid, Stream> {
    map u | u in s.store :: if Ripe(s, l, todo, u) then Answered(s.store[u], l, time, now) else s.store[u]
  }

  ghost function Also(held: map<nat, Uid>, active: map<nat, Uid>, ids: set<nat>): map<nat, Uid>
    requires ids <= active.Keys
  {
    held + map id | id in ids :: active[id]
  }

  lemma AlsoOne(held: map<nat, Uid>, active: map<nat, Uid>, ids: set<nat>, id: nat)
    requires ids + {id} <= active.Keys
    ensures Also(held, active, ids + {id}) == Also(held, active, ids)[id := active[id]]
  {
  }

  ghost function HeldBut(s: Streams, l: Local, todo: set<nat>): map<nat, Uid>
    requires Known(s)
  {
    Also(s.held, s.active, Fresh(s, l) - todo)
  }

  lemma StoreNext(s: Streams, l: Local, todo: set<nat>, id: nat, time: nat, now: int)
    requires Consistent(s) && id in todo && id in l.statuses
    ensures var t := StoreBut(s, l, todo, time, now);
      StoreBut(s, l, todo - {id}, time, now) ==
        if id in s.active then
          assert s.store[s.active[id]].id == id;
          t[s.active[id] := Answered(s.store[s.active[id]], l, time, now)]
        else t
    ensures id in s.active ==> s.active[id] in s.store && s.active[id] in StoreBut(s, l, todo, time, now)
    ensures id in s.active ==> StoreBut(s, l, todo, time, now)[s.active[id]] == s.store[s.active[id]]
    ensures id in s.active ==> s.store[s.active[id]].id == id
  {
    forall u | u in s.store
      ensures Ripe(s, l, todo - {id}, u) == (Ripe(s, l, todo, u) || (id in s.active && u == s.active[id]))
      ensures id in s.active && u == s.active[id] ==> s.store[u].id == id && !Ripe(s, l, todo, u)
    {
      RipeNext(s, l, todo, id, u);
    }
    hide Answered, Ripe;
  }

  lemma FreshNext(s: Streams, l: Local, todo: set<nat>, id: nat)
    requires Known(s) && id in todo && id in l.statuses
    ensures id in Fresh(s, l) <==> id in s.active && !s.store[s.active[id]].life.haveResp && !IsInterim(l.statuses[id])
    ensures l.touched + (Fresh(s, l) - (todo - {id})) == l.touched + (Fresh(s, l) - todo) + if id in Fresh(s, l) then {id} else {}
  {
    var answered := Fresh(s, l);
    assert id in answered <==> id in s.active && !s.store[s.active[id]].life.haveResp && !IsInterim(l.statuses[id]);
    hide Fresh;
  }

  lemma HeldNext(s: Streams, l: Local, todo: set<nat>, id: nat)
    requires Known(s) && id in todo
    ensures HeldBut(s, l, todo - {id}) == if id in Fresh(s, l) then HeldBut(s, l, todo)[id := s.active[id]] else HeldBut(s, l, todo)
  {
    var ids := Fresh(s, l);
    assert ids <= s.active.Keys;
    hide Fresh, Also;
    if id in ids {
      assert ids - (todo - {id}) == (ids - todo) + {id};
      AlsoOne(s.held, s.active, ids - todo, id);
    } else {
      assert ids - (todo - {id}) == ids - todo;
    }
  }

  lemma NoneLeft(s: Streams, l: Local, time: nat, now: int)
    requires Known(s)
    ensures s.(store := StoreBut(s, l, {}, time, now), held := HeldBut(s, l, {})) == AnswerAll(s, l, time, now)
  {
    hide Answered;
    assert Fresh(s, l) - {} == Fresh(s, l);
  }

  lemma AllLeft(s: Streams, l: Local, time: nat, now: int)
    requires Known(s)
    ensures StoreBut(s, l, l.statuses.Keys, time, now) == s.store && HeldBut(s, l, l.statuses.Keys) == s.held
    ensures Fresh(s, l) - l.statuses.Keys == {}
  {
    hide Answered;
  }
}
