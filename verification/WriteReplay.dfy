/**
Writes that are tried again (ebpftracer/ebpf/l7/l7.c). The bytes of a write are walked when the
system call is entered; when the call turns out short, or would block, the rest will be offered
again, and must not be walked a second time. One thread writing to one connection in plain text.
*/
module WriteReplay {
  import opened Bytes
  import opened Wrappers

  const MAX_AGE: nat := 30_000_000_000
  const EAGAIN: int := -11

  /** The part of a write that was walked and not sent. `iovlen` is 0 for a plain buffer. */
  datatype Replay = Replay(ptr: nat, len: nat, iovlen: nat, ts: nat)

  /** A system call: what is offered, from which address, when it is entered and left, and what it
      returns. The data of a vectored write is that of its buffers in order. */
  datatype Call = Call(ptr: nat, iovlen: nat, data: bytes, enter: nat, ret: int, exit: nat)

  datatype State = State(replay: Option<Replay>, walked: bytes)

  /** The entry left by the call before is about a call at that address, soon enough after it. */
  predicate Matches(r: Option<Replay>, ptr: nat, iovlen: nat, now: nat) {
    r.Some? && 0 <= now - r.value.ts < MAX_AGE && ptr == r.value.ptr && iovlen == r.value.iovlen
  }

  /** What is walked when a call is entered. */
  function Walks(r: Option<Replay>, ptr: nat, iovlen: nat, data: bytes, now: nat): bytes {
    if !Matches(r, ptr, iovlen, now) then data
    else if iovlen > 0 || |data| <= r.value.len then []
    else data[r.value.len..]
  }

  /** The size the exit takes the call to have had. */
  function SizeOf(r: Option<Replay>, ptr: nat, iovlen: nat, data: bytes, now: nat): nat {
    if Matches(r, ptr, iovlen, now) && iovlen > 0 then r.value.len else |data|
  }

  /** The entry a call leaves behind. */
  function Leaves(ptr: nat, iovlen: nat, size: nat, ret: int, now: nat): Option<Replay> {
    var sent := if ret > 0 then ret else 0;
    if (ret <= 0 && ret != EAGAIN) || sent >= size then None
    else if iovlen == 0 then Some(Replay(ptr + sent, size - sent, 0, now))
    else if sent > 0 then None
    else Some(Replay(ptr, size, iovlen, now))
  }

  function Write(s: State, c: Call): State {
    State(Leaves(c.ptr, c.iovlen, SizeOf(s.replay, c.ptr, c.iovlen, c.data, c.enter), c.ret, c.exit),
          s.walked + Walks(s.replay, c.ptr, c.iovlen, c.data, c.enter))
  }

  // ---------------------------------------------------------------------------
  // Every byte once
  // ---------------------------------------------------------------------------

  /** The stream as the application sees it: what is done with, because it was sent or given up, what was
      offered last and is left of it, where that lies and as how many buffers, and when the call ended. */
  datatype Stream = Stream(done: bytes, tail: bytes, at: nat, iovlen: nat, since: nat)

  /** What is done with after a call: a call that would block (-11) leaves everything, one that fails
      otherwise is not tried again. */
  function Settled(c: Call): nat {
    if c.ret > 0 then c.ret else if c.ret == -11 then 0 else |c.data|
  }

  /** A call does not send more than it was offered. */
  predicate Returns(c: Call) {
    c.ret <= |c.data|
  }

  function Offer(t: Stream, c: Call): Stream
    requires Returns(c)
  {
    Stream(t.done + c.data[..Settled(c)], c.data[Settled(c)..], c.ptr + Settled(c), c.iovlen, c.exit)
  }

  /** The entry is exactly what was walked and is not done with: its place, its length and its time. */
  ghost predicate Tracks(s: State, t: Stream) {
    && s.walked == t.done + t.tail
    && s.replay == if t.tail == [] then None else Some(Replay(t.at, |t.tail|, t.iovlen, t.since))
  }

  /** What the code relies on: what is left is offered again, from where it lies, less than 30 s after the
      call, and with at least as much of it; a vectored write is repeated as it was. */
  predicate Retries(t: Stream, c: Call) {
    || t.tail == []
    || (&& c.ptr == t.at && c.iovlen == t.iovlen && 0 <= c.enter - t.since < 30_000_000_000
        && if c.iovlen == 0 then t.tail <= c.data else t.tail == c.data)
  }

  /** A call is walked exactly once if and only if it retries like that. */
  lemma WalkedOnceIffRetried(s: State, t: Stream, c: Call)
    requires Tracks(s, t)
    ensures Write(s, c).walked == t.done + c.data <==> Retries(t, c)
  {
    var w := Write(s, c).walked;
    if s.replay.None? {
      assert w == t.done + c.data;
    } else if !Matches(s.replay, c.ptr, c.iovlen, c.enter) {
      assert w == t.done + t.tail + c.data && |w| != |t.done + c.data|;
    } else if c.iovlen > 0 || |c.data| <= |t.tail| {
      assert w == t.done + t.tail;
      Cancel(t.done, t.tail, c.data);
    } else {
      assert w == t.done + (t.tail + c.data[|t.tail|..]);
      Cancel(t.done, t.tail + c.data[|t.tail|..], c.data);
      if t.tail + c.data[|t.tail|..] == c.data {
        assert c.data[..|t.tail|] == t.tail;
      }
      if t.tail <= c.data {
        assert t.tail + c.data[|t.tail|..] == c.data;
      }
    }
  }

  lemma Cancel(a: bytes, b: bytes, c: bytes)
    ensures a + b == a + c <==> b == c
  {
    if a + b == a + c {
      assert b == (a + b)[|a|..] == (a + c)[|a|..] == c;
    }
  }

  /** The entry is right again after the call, except after a short vectored write. */
  lemma TracksAgainIff(s: State, t: Stream, c: Call)
    requires Tracks(s, t) && Retries(t, c) && Returns(c)
    ensures Tracks(Write(s, c), Offer(t, c)) <==> !(c.iovlen > 0 && 0 < c.ret < |c.data|)
    ensures Write(s, c).walked == Offer(t, c).done + Offer(t, c).tail
  {
    WalkedOnceIffRetried(s, t, c);
    LeavesTheTailIff(c);
    OfferSplits(t, c);
    assert SizeOf(s.replay, c.ptr, c.iovlen, c.data, c.enter) == |c.data|;
    hide Walks, SizeOf, Matches, Leaves, Retries;
  }

  lemma LeavesTheTailIff(c: Call)
    requires Returns(c)
    ensures var n := |c.data| - Settled(c);
      var rest := if n == 0 then None else Some(Replay(c.ptr + Settled(c), n, c.iovlen, c.exit));
      Leaves(c.ptr, c.iovlen, |c.data|, c.ret, c.exit) == rest <==> !(c.iovlen > 0 && 0 < c.ret < |c.data|)
  {
  }

  /** After a short vectored write whatever comes next is walked in full, the rest of it included. */
  lemma ShortVectoredIsWalkedAgain(s: State, t: Stream, c: Call, next: Call)
    requires Tracks(s, t) && Retries(t, c) && c.iovlen > 0 && 0 < c.ret < |c.data|
    ensures var u := Offer(t, c); u.tail != [] && Write(Write(s, c), next).walked == u.done + u.tail + next.data
  {
    TracksAgainIff(s, t, c);
    assert Write(s, c).replay.None?;
  }

  lemma OfferSplits(t: Stream, c: Call)
    requires Returns(c)
    ensures var u := Offer(t, c); u.done + u.tail == t.done + c.data && |u.tail| == |c.data| - Settled(c)
  {
    assert c.data == c.data[..Settled(c)] + c.data[Settled(c)..];
  }

  ghost predicate IsRun(calls: seq<Call>, states: seq<State>, streams: seq<Stream>) {
    && |states| == |streams| == |calls| + 1
    && states[0] == State(None, []) && streams[0] == Stream([], [], 0, 0, 0)
    && forall i {:trigger calls[i]} :: 0 <= i < |calls| ==>
         Returns(calls[i]) && Retries(streams[i], calls[i])
         && !(calls[i].iovlen > 0 && 0 < calls[i].ret < |calls[i].data|)
         && states[i + 1] == Write(states[i], calls[i]) && streams[i + 1] == Offer(streams[i], calls[i])
  }

  /** Over every run of full, short, blocked and failed writes the bytes walked are the bytes done with
      followed by those still to be sent, each once and in order. */
  lemma {:induction false} EveryByteIsWalkedOnce(calls: seq<Call>, states: seq<State>, streams: seq<Stream>)
    requires IsRun(calls, states, streams)
    ensures Tracks(states[|calls|], streams[|calls|])
    decreases |calls|
  {
    if calls != [] {
      var n := |calls| - 1;
      EveryByteIsWalkedOnce(calls[..n], states[..n + 1], streams[..n + 1]);
      assert states[..n + 1][n] == states[n] && streams[..n + 1][n] == streams[n];
      assert Returns(calls[n]) && Retries(streams[n], calls[n]);
      TracksAgainIff(states[n], streams[n], calls[n]);
    }
  }

  // ---------------------------------------------------------------------------
  // The code
  // ---------------------------------------------------------------------------

  class Tracer {
    /** The call that is under way: the entry in last_write. */
    var valid: bool
    var ptr: nat
    var size: nat
    var iovlen: nat
    var replay: Option<Replay>
    /** Everything handed to the walker, in order. */
    var walked: bytes

    constructor ()
      ensures replay == None && walked == [] && !valid
    {
      valid, ptr, size, iovlen, replay, walked := false, 0, 0, 0, None, [];
    }

    function View(): State
      reads this
    {
      State(replay, walked)
    }

    method EnterWrite(buf: nat, data: bytes, iovs: nat, now: nat)
      modifies this
      ensures valid && ptr == buf && iovlen == iovs && replay == None
      ensures size == SizeOf(old(replay), buf, iovs, data, now) && walked == old(walked) + Walks(old(replay), buf, iovs, data, now)
    {
      valid, ptr, size, iovlen := true, buf, |data|, iovs;
      var rp := replay;
      replay := None;
      var skip := 0;
      if rp.Some? {
        var r := rp.value;
        if 0 <= now - r.ts < MAX_AGE {
          if iovs == 0 && r.iovlen == 0 && buf == r.ptr {
            if |data| <= r.len {
              assert walked == walked + [];
              return;
            }
            skip := r.len;
          } else if iovs > 0 && r.iovlen > 0 && buf == r.ptr && iovs == r.iovlen {
            size := r.len;
            assert walked == walked + [];
            return;
          }
        }
      }
      assert data[0..] == data;
      walked := walked + data[skip..];
    }

    method ExitWrite(ret: int, now: nat)
      modifies this`valid, this`replay
      ensures !valid
      ensures var left := Leaves(ptr, iovlen, size, ret, now); replay == if old(valid) && left.Some? then left else old(replay)
    {
      if !valid {
        return;
      }
      valid := false;
      var sent := 0;
      if ret > 0 {
        sent := ret;
      } else if ret != EAGAIN {
        return;
      }
      if sent >= size {
        return;
      }
      if iovlen > 0 {
        if sent > 0 {
          return;
        }
        replay := Some(Replay(ptr, size, iovlen, now));
      } else {
        replay := Some(Replay(ptr + sent, size - sent, 0, now));
      }
    }

    /** Both ends of a system call. */
    method Trace(c: Call)
      modifies this
      ensures View() == Write(old(View()), c)
    {
      EnterWrite(c.ptr, c.data, c.iovlen, c.enter);
      ExitWrite(c.ret, c.exit);
    }
  }
}
