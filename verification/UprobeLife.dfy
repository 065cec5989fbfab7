/**
When uprobes are attached and detached, and which keys a process has, said by the steps of a run.
*/
module UprobeLife {
  import opened Uprobes

  // ---------------------------------------------------------------------------
  // What a process has
  // ---------------------------------------------------------------------------

  /** The keys given to a process in the first n steps. */
  function Given(steps: seq<Step>, pid: Pid, n: nat): seq<Key>
    requires n <= |steps|
  {
    if n == 0 then []
    else Given(steps, pid, n - 1) + if steps[n - 1].DoAdd? && steps[n - 1].pid == pid then [steps[n - 1].k] else []
  }

  ghost predicate ShutBefore(steps: seq<Step>, pid: Pid, n: nat)
    requires n <= |steps|
  {
    exists i :: 0 <= i < n && steps[i] == DoClose(pid)
  }

  ghost predicate HasWhatItWasGiven(s: System, steps: seq<Step>, n: nat)
    requires n <= |steps|
  {
    forall pid :: 0 <= pid < |s.procs| ==>
      s.procs[pid] == if ShutBefore(steps, pid, n) then Owner([], true) else Owner(Given(steps, pid, n), false)
  }

  /** No step names a process that is not there yet. */
  ghost predicate NoneForLater(s: System, steps: seq<Step>, n: nat)
    requires n <= |steps|
  {
    forall i :: 0 <= i < n ==> match steps[i] case DoAdd(_, pid) => pid < |s.procs| case DoClose(pid) => pid < |s.procs| case _ => true
  }

  lemma {:induction false} NothingGiven(steps: seq<Step>, pid: Pid, n: nat)
    requires n <= |steps| && forall i :: 0 <= i < n ==> !(steps[i].DoAdd? && steps[i].pid == pid)
    ensures Given(steps, pid, n) == []
  {
    if n > 0 { NothingGiven(steps, pid, n - 1); }
  }

  lemma ProcessStep(s: System, steps: seq<Step>, n: nat, now: int)
    requires n < |steps| && HasWhatItWasGiven(s, steps, n) && NoneForLater(s, steps, n) && Enabled(s, steps[n])
    ensures HasWhatItWasGiven(Next(s, steps[n], now), steps, n + 1) && NoneForLater(Next(s, steps[n], now), steps, n + 1)
  {
    hide Acquire, Release;
    var t := Next(s, steps[n], now);
    forall pid | 0 <= pid < |t.procs|
      ensures t.procs[pid] == if ShutBefore(steps, pid, n + 1) then Owner([], true) else Owner(Given(steps, pid, n + 1), false)
    {
      assert ShutBefore(steps, pid, n + 1) <==> ShutBefore(steps, pid, n) || steps[n] == DoClose(pid);
      if pid == |s.procs| { NothingGiven(steps, pid, n); }
    }
  }

  /** In every run a process that was not closed has exactly the keys it was given, in order, and one that
      was closed has none. */
  lemma {:induction false} ProcessesHaveWhatTheyWereGiven(ss: seq<System>, steps: seq<Step>, times: seq<int>, n: nat)
    requires IsRun(ss, steps, times) && n <= |steps|
    ensures |ss| == |steps| + 1 && HasWhatItWasGiven(ss[n], steps, n) && NoneForLater(ss[n], steps, n)
  {
    hide Next, HasWhatItWasGiven, NoneForLater, Enabled;
    if n == 0 {
      NobodyThere(ss, steps, times);
    } else {
      ProcessesHaveWhatTheyWereGiven(ss, steps, times, n - 1);
      RunTakes(ss, steps, times, n - 1);
      ProcessStep(ss[n - 1], steps, n - 1, times[n - 1]);
    }
  }

  lemma NobodyThere(ss: seq<System>, steps: seq<Step>, times: seq<int>)
    requires IsRun(ss, steps, times)
    ensures HasWhatItWasGiven(ss[0], steps, 0) && NoneForLater(ss[0], steps, 0)
  {
  }

  /** Closing a process sends exactly what it was given on its way back; a key given to it later follows at
      once. */
  lemma ClosingGivesBack(ss: seq<System>, steps: seq<Step>, times: seq<int>, n: nat)
    requires IsRun(ss, steps, times) && n < |steps|
    ensures |ss| == |steps| + 1
    ensures steps[n].DoClose? && !ShutBefore(steps, steps[n].pid, n) ==>
      ss[n + 1].leaving == Queued(ss[n].leaving, Given(steps, steps[n].pid, n))
    ensures steps[n].DoAdd? && ShutBefore(steps, steps[n].pid, n) ==> ss[n + 1].leaving == ss[n].leaving + [[steps[n].k]]
    ensures steps[n].DoAdd? && !ShutBefore(steps, steps[n].pid, n) ==> ss[n + 1].leaving == ss[n].leaving
  {
    ProcessesHaveWhatTheyWereGiven(ss, steps, times, n);
    RunTakes(ss, steps, times, n);
    hide IsRun, NoneForLater, Acquire, Release;
  }

  // ---------------------------------------------------------------------------
  // When a uprobe is attached
  // ---------------------------------------------------------------------------

  /** A uprobe is there if it is used, or can be attached, or was used less than five minutes ago. */
  lemma AcquireSucceedsIff(s: System, k: Key, attaches: bool, now: int)
    requires Ok(s)
    ensures k in Next(s, DoAcquire(k, attaches), now).hands - s.hands <==>
      attaches || Out(s)[k] > 0 || (k in s.t.probes && now - s.t.probes[k].unusedSince < 300_000_000_000)
  {
    hide LinksOk, ClosedAreEmpty;
    assert Refcount(s.t, k) == Out(s)[k];
    assert s.hands + multiset{k} - s.hands == multiset{k} && s.hands - s.hands == multiset{};
  }

  /** A uprobe that nobody uses was last used when a key of it was released. */
  ghost predicate UnusedFrom(t: Tracer, times: seq<int>, n: nat)
    requires n <= |times|
  {
    forall k :: k in t.probes && t.probes[k].refcount <= 0 ==> exists m :: 0 <= m < n && t.probes[k].unusedSince == times[m]
  }

  lemma {:induction false} ReleasedAt(t: Tracer, ks: seq<Key>, times: seq<int>, n: nat)
    requires n < |times| && UnusedFrom(t, times, n)
    ensures UnusedFrom(ReleaseEach(t, ks, times[n]), times, n + 1)
    decreases |ks|
  {
    if ks != [] { ReleasedAt(t, ks[..|ks| - 1], times, n); }
  }

  lemma UnusedStep(s: System, st: Step, times: seq<int>, n: nat)
    requires Enabled(s, st) && n < |times| && UnusedFrom(s.t, times, n)
    ensures UnusedFrom(Next(s, st, times[n]).t, times, n + 1)
  {
    if st.DoRelease? { ReleasedAt(s.t, s.leaving[st.batch], times, n); }
  }

  lemma {:induction false} EveryRunUnused(ss: seq<System>, steps: seq<Step>, times: seq<int>, n: nat)
    requires IsRun(ss, steps, times) && n <= |steps|
    ensures |ss| == |steps| + 1 && |times| == |steps| && UnusedFrom(ss[n].t, times, n)
  {
    hide Next, Enabled, UnusedFrom;
    if n == 0 {
      assert UnusedFrom(EMPTY.t, times, 0) by { NoneUnused(times); }
    } else {
      EveryRunUnused(ss, steps, times, n - 1);
      RunTakes(ss, steps, times, n - 1);
      UnusedStep(ss[n - 1], steps[n - 1], times, n - 1);
    }
  }

  lemma NoneUnused(times: seq<int>)
    ensures UnusedFrom(EMPTY.t, times, 0)
  {
  }

  /** The uprobe is attached, unused, and was unused at that time. */
  ghost predicate UnusedSince(t: Tracer, k: Key, since: int) {
    k in t.probes ==> t.probes[k].refcount <= 0 && t.probes[k].unusedSince <= since
  }

  lemma {:induction false} StaysUnused(ss: seq<System>, steps: seq<Step>, times: seq<int>, i: nat, j: nat, k: Key)
    requires IsRun(ss, steps, times) && 0 < i <= j <= |steps| == |times| && |ss| == |steps| + 1
    requires forall m :: i <= m <= j ==> Out(ss[m])[k] == 0
    ensures UnusedSince(ss[j].t, k, times[i - 1])
    decreases j
  {
    hide IsRun, Ok, Out, UnusedSince, Next, Enabled;
    NotCounted(ss, steps, times, j, k);
    if i == j {
      UnusedNow(ss, steps, times, i, k);
    } else {
      StaysUnused(ss, steps, times, i, j - 1, k);
      RunTakes(ss, steps, times, j - 1);
      StillUnused(ss[j - 1], steps[j - 1], times[j - 1], k, times[i - 1]);
    }
  }

  lemma NotCounted(ss: seq<System>, steps: seq<Step>, times: seq<int>, j: nat, k: Key)
    requires IsRun(ss, steps, times) && j <= |steps| && |ss| == |steps| + 1 && Out(ss[j])[k] == 0
    ensures Refcount(ss[j].t, k) == 0
  {
    hide IsRun, Ok, Out, Refcount;
    EveryRunKeeps(ss, steps, times, j);
    CountIsOut(ss[j], k);
  }

  lemma UnusedNow(ss: seq<System>, steps: seq<Step>, times: seq<int>, i: nat, k: Key)
    requires IsRun(ss, steps, times) && 0 < i <= |steps| == |times| && |ss| == |steps| + 1 && Refcount(ss[i].t, k) == 0
    ensures UnusedSince(ss[i].t, k, times[i - 1])
  {
    EveryRunUnused(ss, steps, times, i);
    assert forall m :: 0 <= m < i ==> times[m] <= times[i - 1];
    hide IsRun, Takes;
  }

  lemma {:induction false} ReleaseUnused(t: Tracer, ks: seq<Key>, now: int, k: Key)
    requires k in t.probes && t.probes[k].refcount <= 0
    ensures k in ReleaseEach(t, ks, now).probes && ReleaseEach(t, ks, now).probes[k] == t.probes[k]
    decreases |ks|
  {
    if ks != [] { ReleaseUnused(t, ks[..|ks| - 1], now, k); }
  }

  lemma {:induction false} ReleaseAttachesNothing(t: Tracer, ks: seq<Key>, now: int)
    ensures ReleaseEach(t, ks, now).probes.Keys == t.probes.Keys
    decreases |ks|
  {
    if ks != [] { ReleaseAttachesNothing(t, ks[..|ks| - 1], now); }
  }

  /** A step that does not make it used leaves it as it is, or detaches it. */
  lemma StillUnused(s: System, st: Step, now: int, k: Key, since: int)
    requires Enabled(s, st) && UnusedSince(s.t, k, since) && Refcount(Next(s, st, now).t, k) <= 0
    ensures UnusedSince(Next(s, st, now).t, k, since)
  {
    if st.DoRelease? {
      ReleaseAttachesNothing(s.t, s.leaving[st.batch], now);
      if k in s.t.probes { ReleaseUnused(s.t, s.leaving[st.batch], now, k); }
    }
  }

  /** In every run: a uprobe nobody has used since the end of step i - 1 is detached, and its link closed,
      by the next acquire or release that comes five minutes later or more. */
  lemma IdleIsDetached(ss: seq<System>, steps: seq<Step>, times: seq<int>, i: nat, j: nat, k: Key)
    requires IsRun(ss, steps, times) && 0 < i <= j < |steps| == |times| && |ss| == |steps| + 1
    requires forall m :: i <= m <= j ==> Out(ss[m])[k] == 0
    requires (steps[j].DoAcquire? || steps[j].DoRelease?) && times[j] - times[i - 1] >= 300_000_000_000
    ensures var t, u := ss[j].t, ss[j + 1].t;
      && (k in u.probes ==> steps[j].DoAcquire? && steps[j].k == k)
      && (k in t.probes ==> u.closed[t.probes[k].link] == 1 && (k in u.probes ==> u.probes[k].link != t.probes[k].link))
  {
    StaysUnused(ss, steps, times, i, j, k);
    RunTakes(ss, steps, times, j);
    EveryRunKeeps(ss, steps, times, j);
    EveryRunKeeps(ss, steps, times, j + 1);
    hide IsRun, Out, Counted, ClosedAreEmpty;
    Detached(ss[j], steps[j], times[j], k);
  }

  lemma Detached(s: System, st: Step, now: int, k: Key)
    requires Enabled(s, st) && (st.DoAcquire? || st.DoRelease?) && LinksOk(s.t)
    requires k in s.t.probes ==> s.t.probes[k].refcount <= 0 && now - s.t.probes[k].unusedSince >= 300_000_000_000
    ensures var u := Next(s, st, now).t;
      && (k in u.probes ==> st.DoAcquire? && st.k == k)
      && (k in s.t.probes ==> u.closed[s.t.probes[k].link] == 1 && (k in u.probes ==> u.probes[k].link != s.t.probes[k].link))
  {
    var t := if st.DoRelease? then ReleaseEach(s.t, s.leaving[st.batch], now) else s.t;
    if st.DoRelease? {
      ReleaseAttachesNothing(s.t, s.leaving[st.batch], now);
      ReleaseEachKeepsLinks(s.t, s.leaving[st.batch], now);
      if k in s.t.probes { ReleaseUnused(s.t, s.leaving[st.batch], now, k); }
    }
    if k in t.probes {
      assert k in Idle(t, now);
      assert t.probes[k].link in LinksOf(t, Idle(t, now));
    }
  }

  lemma {:induction false} ReleaseEachKeepsLinks(t: Tracer, ks: seq<Key>, now: int)
    requires LinksOk(t)
    ensures LinksOk(ReleaseEach(t, ks, now)) && ReleaseEach(t, ks, now).closed == t.closed && ReleaseEach(t, ks, now).next == t.next
    decreases |ks|
  {
    hide LinksOk;
    if ks != [] {
      ReleaseEachKeepsLinks(t, ks[..|ks| - 1], now);
      ReleaseKeepsLinks(ReleaseEach(t, ks[..|ks| - 1], now), ks[|ks| - 1], now);
    }
  }
}
