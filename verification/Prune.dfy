/**
Profile pruning (profiling/prune.go): frames that carry too little of a profile are cut off at the
leaf side of their stacks, samples whose stacks became equal are merged, and locations and functions
nobody uses any more are dropped.

Stacks are leaf first, so the root side of a stack is a suffix of it, and a node of the call tree is
the suffix that leads to it. This module says what pruning means and what it promises; PruneCode is
the code.
*/
module Prune {

  datatype Location = Location(id: nat, functions: seq<nat>)

  datatype Sample = Sample(stack: seq<Location>, values: seq<int>, labels: seq<nat>)

  datatype Profile = Profile(dims: nat, samples: seq<Sample>, locations: seq<Location>, functions: seq<nat>)

  /** A fraction of a total: `of` stands for the product of floats, truncated. */
  datatype Fraction = Fraction(positive: bool, of: int -> int)

  function Ids(stack: seq<Location>): (ids: seq<nat>)
    ensures |ids| == |stack| && forall i :: 0 <= i < |ids| ==> ids[i] == stack[i].id
  {
    seq(|stack|, i requires 0 <= i < |stack| => stack[i].id)
  }

  function Value(s: Sample, j: nat): int {
    if j < |s.values| then s.values[j] else 0
  }

  predicate EndsWith(x: seq<nat>, suffix: seq<nat>) {
    |suffix| <= |x| && x[|x| - |suffix|..] == suffix
  }

  // ---------------------------------------------------------------------------
  // What counts
  // ---------------------------------------------------------------------------

  /** What the samples below a node add up to. */
  function Weight(ss: seq<Sample>, node: seq<nat>, j: nat): int {
    if ss == [] then 0
    else
      var s := ss[|ss| - 1];
      Weight(ss[..|ss| - 1], node, j) + if EndsWith(Ids(s.stack), node) then Value(s, j) else 0
  }

  function Positive(v: int): int {
    if v > 0 then v else 0
  }

  function PositiveTotal(ss: seq<Sample>, j: nat): int {
    if ss == [] then 0 else PositiveTotal(ss[..|ss| - 1], j) + Positive(Value(ss[|ss| - 1], j))
  }

  function Thresholds(ss: seq<Sample>, dims: nat, f: Fraction): (t: seq<int>)
    ensures |t| == dims
  {
    seq(dims, j requires 0 <= j < dims => f.of(PositiveTotal(ss, j)))
  }

  predicate Prunable(thr: seq<int>) {
    exists j :: 0 <= j < |thr| && thr[j] > 0
  }

  predicate Significant(ss: seq<Sample>, thr: seq<int>, node: seq<nat>) {
    exists j :: 0 <= j < |thr| && thr[j] > 0 && Weight(ss, node, j) >= thr[j]
  }

  /** How much of a stack is kept, from its root: as long as the nodes are significant. */
  function Keep(ss: seq<Sample>, thr: seq<int>, ids: seq<nat>, k: nat): (n: nat)
    requires k <= |ids|
    ensures k <= n <= |ids|
    decreases |ids| - k
  {
    if k < |ids| && Significant(ss, thr, ids[|ids| - k - 1..]) then Keep(ss, thr, ids, k + 1) else k
  }

  function Cut(ss: seq<Sample>, thr: seq<int>, s: Sample): Sample {
    s.(stack := s.stack[|s.stack| - Keep(ss, thr, Ids(s.stack), 0)..])
  }

  function CutAll(ss: seq<Sample>, thr: seq<int>, todo: seq<Sample>): (cut: seq<Sample>)
    ensures |cut| == |todo|
  {
    seq(|todo|, i requires 0 <= i < |todo| => Cut(ss, thr, todo[i]))
  }

  // ---------------------------------------------------------------------------
  // Merging
  // ---------------------------------------------------------------------------

  predicate Twin(s: Sample, t: Sample) {
    s.labels == [] && t.labels == [] && Ids(s.stack) == Ids(t.stack)
  }

  /** Where a sample without labels with that stack is, |out| when there is none. */
  function Find(out: seq<Sample>, s: Sample): (i: nat)
    ensures i <= |out| && (i < |out| ==> Twin(out[i], s))
    ensures forall k :: 0 <= k < i ==> !Twin(out[k], s)
  {
    if out == [] then 0
    else if Find(out[..|out| - 1], s) < |out| - 1 then Find(out[..|out| - 1], s)
    else if Twin(out[|out| - 1], s) then |out| - 1
    else |out|
  }

  function AddValues(a: seq<int>, b: seq<int>): (r: seq<int>)
    ensures |r| == |a|
  {
    seq(|a|, i requires 0 <= i < |a| => a[i] + if i < |b| then b[i] else 0)
  }

  function MergeOne(out: seq<Sample>, s: Sample): seq<Sample> {
    var i := Find(out, s);
    if s.labels == [] && i < |out| then out[i := out[i].(values := AddValues(out[i].values, s.values))] else out + [s]
  }

  function Merge(ss: seq<Sample>): seq<Sample> {
    if ss == [] then [] else MergeOne(Merge(ss[..|ss| - 1]), ss[|ss| - 1])
  }

  // ---------------------------------------------------------------------------
  // The tables
  // ---------------------------------------------------------------------------

  function AsSet(stack: seq<Location>): set<Location> {
    set l | l in stack
  }

  /** The locations some stack has. */
  function Locations(ss: seq<Sample>): set<Location> {
    if ss == [] then {} else Locations(ss[..|ss| - 1]) + AsSet(ss[|ss| - 1].stack)
  }

  function IdsOf(ls: set<Location>): set<nat> {
    set l | l in ls :: l.id
  }

  function FunctionsOf(ls: set<Location>): set<nat> {
    set l, f | l in ls && f in l.functions :: f
  }

  function Filter<T>(xs: seq<T>, keep: T -> bool): seq<T> {
    if xs == [] then [] else Filter(xs[..|xs| - 1], keep) + if keep(xs[|xs| - 1]) then [xs[|xs| - 1]] else []
  }

  function IsIn(ids: set<nat>): nat -> bool {
    (id: nat) => id in ids
  }

  function HasIdIn(ids: set<nat>): Location -> bool {
    (l: Location) => l.id in ids
  }

  function Tidy(p: Profile): Profile {
    var ids := IdsOf(Locations(p.samples));
    if |ids| == |p.locations| then p
    else p.(locations := Filter(p.locations, HasIdIn(ids)), functions := Filter(p.functions, IsIn(FunctionsOf(Locations(p.samples)))))
  }

  function Pruned(p: Profile, f: Fraction): Profile {
    var thr := Thresholds(p.samples, p.dims, f);
    if !f.positive || p.samples == [] || p.dims == 0 || !Prunable(thr) then p
    else Tidy(p.(samples := Merge(CutAll(p.samples, thr, p.samples))))
  }

  // ---------------------------------------------------------------------------
  // The cut
  // ---------------------------------------------------------------------------

  function Root(ids: seq<nat>, k: nat): seq<nat>
    requires k <= |ids|
  {
    ids[|ids| - k..]
  }

  /** The cut is the longest part of the stack, from its root, whose nodes all count. */
  lemma {:induction false} CutIsLongest(ss: seq<Sample>, thr: seq<int>, ids: seq<nat>, from: nat, k: nat)
    requires from <= k <= |ids|
    ensures k <= Keep(ss, thr, ids, from) <==> forall i :: from < i <= k ==> Significant(ss, thr, Root(ids, i))
    decreases |ids| - from
  {
    hide Significant;
    if from < |ids| {
      assert Root(ids, from + 1) == ids[|ids| - from - 1..];
      if from < k && Significant(ss, thr, Root(ids, from + 1)) {
        CutIsLongest(ss, thr, ids, from + 1, k);
      }
    }
  }

  ghost predicate NonNegative(ss: seq<Sample>) {
    forall i, j :: 0 <= i < |ss| && 0 <= j < |ss[i].values| ==> ss[i].values[j] >= 0
  }

  ghost predicate FullWidth(ss: seq<Sample>, dims: nat) {
    forall i :: 0 <= i < |ss| ==> |ss[i].values| == dims
  }

  /** Nearer to the root there is at least as much. */
  lemma {:induction false} WeightGrows(ss: seq<Sample>, ids: seq<nat>, i: nat, k: nat, j: nat)
    requires NonNegative(ss) && i <= k <= |ids|
    ensures Weight(ss, Root(ids, k), j) <= Weight(ss, Root(ids, i), j)
    ensures 0 <= Weight(ss, Root(ids, k), j)
    decreases |ss|
  {
    if ss != [] {
      var n := |ss| - 1;
      WeightGrows(ss[..n], ids, i, k, j);
      var x := Ids(ss[n].stack);
      if EndsWith(x, Root(ids, k)) {
        assert Root(ids, i) == Root(Root(ids, k), i) == x[|x| - i..];
      }
    }
  }

  /** With values that are not negative it is the longest part that ends in a node that counts. */
  lemma CutEndsAtTheLastThatCounts(ss: seq<Sample>, thr: seq<int>, ids: seq<nat>, k: nat)
    requires NonNegative(ss) && 0 < k <= |ids|
    ensures Significant(ss, thr, Root(ids, k)) <==> k <= Keep(ss, thr, ids, 0)
  {
    CutIsLongest(ss, thr, ids, 0, k);
    if Significant(ss, thr, Root(ids, k)) {
      forall i | 0 < i <= k
        ensures Significant(ss, thr, Root(ids, i))
      {
        var j :| 0 <= j < |thr| && thr[j] > 0 && Weight(ss, Root(ids, k), j) >= thr[j];
        WeightGrows(ss, ids, i, k, j);
      }
    }
  }

  // ---------------------------------------------------------------------------
  // Nothing is lost
  // ---------------------------------------------------------------------------

  function Share(s: Sample, node: seq<nat>, j: nat): int {
    if EndsWith(Ids(s.stack), node) then Value(s, j) else 0
  }

  lemma WeightSnoc(ss: seq<Sample>, s: Sample, node: seq<nat>, j: nat)
    ensures Weight(ss + [s], node, j) == Weight(ss, node, j) + Share(s, node, j)
  {
    assert (ss + [s])[..|ss|] == ss;
  }

  lemma {:induction false} WeightUpdate(ss: seq<Sample>, i: nat, s: Sample, node: seq<nat>, j: nat)
    requires i < |ss|
    ensures Weight(ss[i := s], node, j) == Weight(ss, node, j) - Share(ss[i], node, j) + Share(s, node, j)
  {
    hide EndsWith, Value;
    var n := |ss| - 1;
    if i == n {
      assert ss[i := s][..n] == ss[..n];
    } else {
      assert ss[i := s][..n] == ss[..n][i := s];
      WeightUpdate(ss[..n], i, s, node, j);
    }
  }

  lemma MergeOneWeighs(out: seq<Sample>, s: Sample, dims: nat, node: seq<nat>, j: nat)
    requires FullWidth(out, dims) && |s.values| == dims
    ensures FullWidth(MergeOne(out, s), dims)
    ensures Weight(MergeOne(out, s), node, j) == Weight(out, node, j) + Share(s, node, j)
  {
    hide Weight, EndsWith;
    var i := Find(out, s);
    if s.labels == [] && i < |out| {
      WeightUpdate(out, i, out[i].(values := AddValues(out[i].values, s.values)), node, j);
    } else {
      WeightSnoc(out, s, node, j);
    }
  }

  /** Merging changes no node's weight. */
  lemma {:induction false} MergeWeighs(ss: seq<Sample>, dims: nat, node: seq<nat>, j: nat)
    requires FullWidth(ss, dims)
    ensures FullWidth(Merge(ss), dims) && Weight(Merge(ss), node, j) == Weight(ss, node, j)
  {
    hide MergeOne, EndsWith, Value;
    if ss != [] {
      var n := |ss| - 1;
      MergeWeighs(ss[..n], dims, node, j);
      MergeOneWeighs(Merge(ss[..n]), ss[n], dims, node, j);
    }
  }

  /** Every node on the way to this one counts. */
  ghost predicate Reached(ss: seq<Sample>, thr: seq<int>, node: seq<nat>) {
    forall i :: 0 < i <= |node| ==> Significant(ss, thr, Root(node, i))
  }

  lemma CutEndsAlike(ss: seq<Sample>, thr: seq<int>, s: Sample, node: seq<nat>)
    requires Reached(ss, thr, node)
    ensures EndsWith(Ids(Cut(ss, thr, s).stack), node) == EndsWith(Ids(s.stack), node)
  {
    hide Significant;
    var ids := Ids(s.stack);
    var k := Keep(ss, thr, ids, 0);
    var cut := Ids(Cut(ss, thr, s).stack);
    assert cut == Root(ids, k);
    if EndsWith(ids, node) {
      forall i | 0 < i <= |node|
        ensures Significant(ss, thr, Root(ids, i))
      {
        assert Root(ids, i) == Root(node, i);
      }
      CutIsLongest(ss, thr, ids, 0, |node|);
      assert Root(cut, |node|) == Root(ids, |node|);
    }
    if EndsWith(cut, node) {
      assert Root(ids, |node|) == Root(cut, |node|);
    }
  }

  /** Cutting changes the weight of no node that counts, nor the total. */
  lemma {:induction false} CutWeighs(ss: seq<Sample>, thr: seq<int>, todo: seq<Sample>, node: seq<nat>, j: nat)
    requires Reached(ss, thr, node)
    ensures Weight(CutAll(ss, thr, todo), node, j) == Weight(todo, node, j)
    decreases |todo|
  {
    hide Reached, Cut, EndsWith;
    if todo != [] {
      var n := |todo| - 1;
      CutWeighs(ss, thr, todo[..n], node, j);
      assert CutAll(ss, thr, todo)[..n] == CutAll(ss, thr, todo[..n]);
      CutEndsAlike(ss, thr, todo[n], node);
      CutKeepsValues(ss, thr, todo[n]);
    }
  }

  lemma CutKeepsValues(ss: seq<Sample>, thr: seq<int>, s: Sample)
    ensures Cut(ss, thr, s).values == s.values && Cut(ss, thr, s).labels == s.labels
  {
  }

  lemma CutIsFullWidth(ss: seq<Sample>, thr: seq<int>, dims: nat)
    requires FullWidth(ss, dims)
    ensures FullWidth(CutAll(ss, thr, ss), dims)
  {
  }

  lemma TidyKeepsSamples(p: Profile)
    ensures Tidy(p).samples == p.samples && Tidy(p).dims == p.dims
  {
  }

  /** Every total is what it was. */
  lemma PruningConserves(p: Profile, f: Fraction, j: nat)
    requires FullWidth(p.samples, p.dims)
    ensures Weight(Pruned(p, f).samples, [], j) == Weight(p.samples, [], j)
    ensures FullWidth(Pruned(p, f).samples, p.dims)
  {
    var thr := Thresholds(p.samples, p.dims, f);
    var cut := CutAll(p.samples, thr, p.samples);
    TidyKeepsSamples(p.(samples := Merge(cut)));
    CutIsFullWidth(p.samples, thr, p.dims);
    assert Reached(p.samples, thr, []);
    hide Tidy, Weight, Merge, CutAll, Reached;
    CutWeighs(p.samples, thr, p.samples, [], j);
    MergeWeighs(cut, p.dims, [], j);
  }

  // ---------------------------------------------------------------------------
  // What is merged
  // ---------------------------------------------------------------------------

  /** The samples without labels and with that stack, added up. */
  function GroupSum(ss: seq<Sample>, ids: seq<nat>, j: nat): int {
    if ss == [] then 0
    else
      var s := ss[|ss| - 1];
      GroupSum(ss[..|ss| - 1], ids, j) + if s.labels == [] && Ids(s.stack) == ids then Value(s, j) else 0
  }

  function Labelled(ss: seq<Sample>): seq<Sample> {
    if ss == [] then [] else Labelled(ss[..|ss| - 1]) + if ss[|ss| - 1].labels != [] then [ss[|ss| - 1]] else []
  }

  ghost predicate NoTwins(ss: seq<Sample>) {
    forall i, k :: 0 <= i < k < |ss| ==> !Twin(ss[i], ss[k])
  }

  ghost predicate Has(ss: seq<Sample>, ids: seq<nat>) {
    exists i :: 0 <= i < |ss| && ss[i].labels == [] && Ids(ss[i].stack) == ids
  }

  ghost predicate Sums(ss: seq<Sample>, t: Sample, dims: nat) {
    t.labels == [] ==> forall j :: 0 <= j < dims ==> Value(t, j) == GroupSum(ss, Ids(t.stack), j)
  }

  /** Each stack has at most one sample without labels, and that is the sum of all there were. */
  ghost predicate Grouped(ss: seq<Sample>, out: seq<Sample>, dims: nat) {
    && NoTwins(out)
    && (forall ids :: Has(out, ids) <==> Has(ss, ids))
    && (forall i :: 0 <= i < |out| ==> Sums(ss, out[i], dims))
    && Labelled(out) == Labelled(ss)
  }

  lemma GroupSumSnoc(ss: seq<Sample>, s: Sample, ids: seq<nat>, j: nat)
    ensures GroupSum(ss + [s], ids, j) == GroupSum(ss, ids, j) + if s.labels == [] && Ids(s.stack) == ids then Value(s, j) else 0
  {
    assert (ss + [s])[..|ss|] == ss;
  }

  lemma LabelledSnoc(ss: seq<Sample>, s: Sample)
    ensures Labelled(ss + [s]) == Labelled(ss) + if s.labels != [] then [s] else []
  {
    assert (ss + [s])[..|ss|] == ss;
  }

  lemma {:induction false} LabelledUpdate(ss: seq<Sample>, i: nat, s: Sample)
    requires i < |ss| && ss[i].labels == [] && s.labels == []
    ensures Labelled(ss[i := s]) == Labelled(ss)
  {
    var n := |ss| - 1;
    if i == n {
      assert ss[i := s][..n] == ss[..n];
    } else {
      assert ss[i := s][..n] == ss[..n][i := s];
      LabelledUpdate(ss[..n], i, s);
    }
  }

  lemma HasSnoc(ss: seq<Sample>, s: Sample, ids: seq<nat>)
    ensures Has(ss + [s], ids) <==> Has(ss, ids) || (s.labels == [] && Ids(s.stack) == ids)
  {
    var t := ss + [s];
    assert t[|ss|] == s;
    assert forall i :: 0 <= i < |ss| ==> t[i] == ss[i];
  }

  lemma HasUpdate(ss: seq<Sample>, i: nat, s: Sample, ids: seq<nat>)
    requires i < |ss| && s.labels == ss[i].labels && s.stack == ss[i].stack
    ensures Has(ss[i := s], ids) <==> Has(ss, ids)
  {
    var t := ss[i := s];
    assert forall k :: 0 <= k < |ss| ==> t[k].labels == ss[k].labels && t[k].stack == ss[k].stack;
    hide Ids;
    if Has(ss, ids) {
      var k :| 0 <= k < |ss| && ss[k].labels == [] && Ids(ss[k].stack) == ids;
      assert t[k].labels == [];
    }
  }

  lemma {:induction false} NoGroup(ss: seq<Sample>, ids: seq<nat>, j: nat)
    requires !Has(ss, ids)
    ensures GroupSum(ss, ids, j) == 0
  {
    if ss != [] {
      var n := |ss| - 1;
      assert ss == ss[..n] + [ss[n]];
      HasSnoc(ss[..n], ss[n], ids);
      NoGroup(ss[..n], ids, j);
    }
  }

  lemma SumsAfter(ss: seq<Sample>, s: Sample, t: Sample, dims: nat)
    requires Sums(ss, t, dims) && !Twin(t, s)
    ensures Sums(ss + [s], t, dims)
  {
    hide GroupSum, Value;
    forall j | 0 <= j < dims
      ensures t.labels == [] ==> Value(t, j) == GroupSum(ss + [s], Ids(t.stack), j)
    {
      GroupSumSnoc(ss, s, Ids(t.stack), j);
    }
  }

  lemma SumsTwin(ss: seq<Sample>, s: Sample, t: Sample, dims: nat)
    requires Sums(ss, t, dims) && Twin(t, s) && |t.values| == |s.values| == dims
    ensures Sums(ss + [s], t.(values := AddValues(t.values, s.values)), dims)
  {
    hide GroupSum, Ids;
    forall j | 0 <= j < dims
      ensures AddValues(t.values, s.values)[j] == GroupSum(ss + [s], Ids(t.stack), j)
    {
      assert Value(t, j) == GroupSum(ss, Ids(t.stack), j);
      GroupSumSnoc(ss, s, Ids(t.stack), j);
    }
  }

  lemma SumsFirst(ss: seq<Sample>, s: Sample, dims: nat)
    requires s.labels == [] ==> !Has(ss, Ids(s.stack))
    ensures Sums(ss + [s], s, dims)
  {
    hide GroupSum, Ids, Value;
    if s.labels == [] {
      forall j | 0 <= j < dims
        ensures Value(s, j) == GroupSum(ss + [s], Ids(s.stack), j)
      {
        NoGroup(ss, Ids(s.stack), j);
        GroupSumSnoc(ss, s, Ids(s.stack), j);
      }
    }
  }

  lemma NotFound(out: seq<Sample>, s: Sample)
    requires s.labels == [] && Find(out, s) == |out|
    ensures !Has(out, Ids(s.stack))
  {
    assert forall i :: 0 <= i < |out| ==> !Twin(out[i], s);
  }

  lemma MergeOneGroups(ss: seq<Sample>, out: seq<Sample>, s: Sample, dims: nat)
    requires Grouped(ss, out, dims) && FullWidth(out, dims) && |s.values| == dims
    ensures Grouped(ss + [s], MergeOne(out, s), dims)
  {
    hide Labelled, Sums, Ids;
    LabelledSnoc(ss, s);
    var i := Find(out, s);
    var out' := MergeOne(out, s);
    forall ids
      ensures Has(out', ids) <==> Has(ss + [s], ids)
    {
      HasSnoc(ss, s, ids);
      if s.labels == [] && i < |out| {
        HasUpdate(out, i, out'[i], ids);
        assert Ids(s.stack) == ids ==> Has(out, ids);
      } else {
        HasSnoc(out, s, ids);
      }
    }
    hide Has;
    forall k | 0 <= k < |out'|
      ensures Sums(ss + [s], out'[k], dims)
    {
      if s.labels == [] && i < |out| && k == i {
        SumsTwin(ss, s, out[i], dims);
      } else if k < |out| {
        NoOtherTwin(out, s, k);
        SumsAfter(ss, s, out[k], dims);
      } else {
        if s.labels == [] { NotFound(out, s); }
        SumsFirst(ss, s, dims);
      }
    }
    if s.labels == [] && i < |out| {
      LabelledUpdate(out, i, out'[i]);
      StillNoTwins(out, i, out'[i]);
    } else {
      LabelledSnoc(out, s);
    }
  }

  lemma NoOtherTwin(out: seq<Sample>, s: Sample, k: nat)
    requires NoTwins(out) && k < |out| && !(s.labels == [] && k == Find(out, s))
    ensures !Twin(out[k], s)
  {
    hide Ids;
    var i := Find(out, s);
    if i < k { assert !Twin(out[i], out[k]); }
  }

  lemma StillNoTwins(out: seq<Sample>, i: nat, s: Sample)
    requires NoTwins(out) && i < |out| && s.labels == out[i].labels && s.stack == out[i].stack
    ensures NoTwins(out[i := s])
  {
    hide Ids;
    var t := out[i := s];
    forall a, b | 0 <= a < b < |t|
      ensures !Twin(t[a], t[b])
    {
      assert !Twin(out[a], out[b]);
    }
  }

  /** Samples without labels are merged exactly when their stacks are the same, labelled ones never. */
  lemma {:induction false} MergeGroups(ss: seq<Sample>, dims: nat)
    requires FullWidth(ss, dims)
    ensures Grouped(ss, Merge(ss), dims)
  {
    hide MergeOne;
    if ss != [] {
      var n := |ss| - 1;
      MergeGroups(ss[..n], dims);
      MergeWeighs(ss[..n], dims, [], 0);
      MergeOneGroups(ss[..n], Merge(ss[..n]), ss[n], dims);
      assert ss == ss[..n] + [ss[n]];
    }
  }

  // ---------------------------------------------------------------------------
  // Pruning twice
  // ---------------------------------------------------------------------------

  lemma {:induction false} TotalIsWeight(ss: seq<Sample>, j: nat)
    requires NonNegative(ss)
    ensures PositiveTotal(ss, j) == Weight(ss, [], j)
  {
    if ss != [] {
      var n := |ss| - 1;
      assert ss[..n] + [ss[n]] == ss;
      TotalIsWeight(ss[..n], j);
    }
  }

  /** What is known of every sample is known of every merged one. */
  lemma {:induction false} MergeStays(ss: seq<Sample>, all: seq<Sample>, thr: seq<int>)
    requires NonNegative(ss)
    requires forall i :: 0 <= i < |ss| ==> Reached(all, thr, Ids(ss[i].stack))
    ensures NonNegative(Merge(ss))
    ensures forall i :: 0 <= i < |Merge(ss)| ==> Reached(all, thr, Ids(Merge(ss)[i].stack))
  {
    hide Reached, Ids, Find;
    if ss != [] {
      var n := |ss| - 1;
      MergeStays(ss[..n], all, thr);
    }
  }

  lemma CutIsReached(ss: seq<Sample>, thr: seq<int>, s: Sample)
    ensures Reached(ss, thr, Ids(Cut(ss, thr, s).stack))
  {
    hide Significant;
    var ids := Ids(s.stack);
    var k := Keep(ss, thr, ids, 0);
    var cut := Ids(Cut(ss, thr, s).stack);
    assert cut == Root(ids, k);
    CutIsLongest(ss, thr, ids, 0, k);
    forall i | 0 < i <= |cut|
      ensures Significant(ss, thr, Root(cut, i))
    {
      assert Root(cut, i) == Root(ids, i);
    }
  }

  lemma {:induction false} MergeNoTwins(ss: seq<Sample>)
    requires NoTwins(ss)
    ensures Merge(ss) == ss
  {
    hide Ids;
    if ss != [] {
      var n := |ss| - 1;
      var init, s := ss[..n], ss[n];
      MergeNoTwins(init);
      assert ss == init + [s];
      assert forall i :: 0 <= i < n ==> !Twin(init[i], s);
      assert s.labels == [] ==> Find(init, s) == n;
    }
  }

  lemma ReachedStays(ss: seq<Sample>, out: seq<Sample>, thr: seq<int>, node: seq<nat>)
    requires Reached(ss, thr, node)
    requires forall at: seq<nat>, j: nat :: Reached(ss, thr, at) ==> Weight(out, at, j) == Weight(ss, at, j)
    ensures Keep(out, thr, node, 0) == |node|
  {
    forall i | 0 < i <= |node|
      ensures Significant(out, thr, Root(node, i))
    {
      assert Significant(ss, thr, Root(node, i));
      forall k | 0 < k <= i
        ensures Significant(ss, thr, Root(Root(node, i), k))
      {
        assert Root(Root(node, i), k) == Root(node, k);
      }
      assert Reached(ss, thr, Root(node, i));
    }
    CutIsLongest(out, thr, node, 0, |node|);
  }

  lemma CutNothing(ss: seq<Sample>, thr: seq<int>)
    requires forall i :: 0 <= i < |ss| ==> Keep(ss, thr, Ids(ss[i].stack), 0) == |ss[i].stack|
    ensures CutAll(ss, thr, ss) == ss
  {
    forall i | 0 <= i < |ss|
      ensures CutAll(ss, thr, ss)[i] == ss[i]
    {
      assert ss[i].stack[0..] == ss[i].stack;
    }
  }

  lemma {:induction false} FilterTwice<T>(xs: seq<T>, keep: T -> bool)
    ensures Filter(Filter(xs, keep), keep) == Filter(xs, keep)
  {
    if xs != [] {
      var n := |xs| - 1;
      FilterTwice(xs[..n], keep);
      var c := Filter(xs[..n], keep);
      if keep(xs[n]) { assert (c + [xs[n]])[..|c|] == c; } else { assert c + [] == c; }
    }
  }

  lemma TidyTwice(p: Profile)
    ensures Tidy(Tidy(p)) == Tidy(p)
  {
    hide Locations, IdsOf, FunctionsOf;
    var ids := IdsOf(Locations(p.samples));
    if |ids| != |p.locations| {
      FilterTwice(p.locations, HasIdIn(ids));
      FilterTwice(p.functions, IsIn(FunctionsOf(Locations(p.samples))));
    }
  }

  /** Pruning what has been pruned changes nothing. */
  lemma PruningIsIdempotent(p: Profile, f: Fraction)
    requires NonNegative(p.samples) && FullWidth(p.samples, p.dims)
    ensures Pruned(Pruned(p, f), f) == Pruned(p, f)
  {
    var ss := p.samples;
    var thr := Thresholds(ss, p.dims, f);
    if f.positive && ss != [] && p.dims > 0 && Prunable(thr) {
      var cut := CutAll(ss, thr, ss);
      var out := Merge(cut);
      forall i | 0 <= i < |cut|
        ensures Reached(ss, thr, Ids(cut[i].stack))
      {
        CutIsReached(ss, thr, ss[i]);
      }
      CutIsFullWidth(ss, thr, p.dims);
      assert NonNegative(cut);
      MergeStays(cut, ss, thr);
      SameThresholds(p, f);
      forall at: seq<nat>, j: nat | Reached(ss, thr, at)
        ensures Weight(out, at, j) == Weight(ss, at, j)
      {
        CutWeighs(ss, thr, ss, at, j);
        MergeWeighs(cut, p.dims, at, j);
      }
      forall i | 0 <= i < |out|
        ensures Keep(out, thr, Ids(out[i].stack), 0) == |out[i].stack|
      {
        ReachedStays(ss, out, thr, Ids(out[i].stack));
      }
      hide Weight, Reached, Merge, Keep;
      CutNothing(out, thr);
      MergeGroups(cut, p.dims);
      MergeNoTwins(out);
      var q := p.(samples := out);
      TidyKeepsSamples(q);
      TidyTwice(q);
      assert Tidy(q).(samples := out) == Tidy(q);
    }
  }

  lemma SameThresholds(p: Profile, f: Fraction)
    requires NonNegative(p.samples) && FullWidth(p.samples, p.dims)
    ensures var thr := Thresholds(p.samples, p.dims, f);
      Thresholds(Merge(CutAll(p.samples, thr, p.samples)), p.dims, f) == thr
  {
    var ss := p.samples;
    var thr := Thresholds(ss, p.dims, f);
    var cut := CutAll(ss, thr, ss);
    var out := Merge(cut);
    CutIsFullWidth(ss, thr, p.dims);
    assert NonNegative(cut);
    assert NonNegative(out) by {
      forall i | 0 <= i < |cut|
        ensures Reached(ss, thr, Ids(cut[i].stack))
      {
        CutIsReached(ss, thr, ss[i]);
      }
      MergeStays(cut, ss, thr);
    }
    forall j | 0 <= j < p.dims
      ensures PositiveTotal(out, j) == PositiveTotal(ss, j)
    {
      TotalIsWeight(ss, j);
      TotalIsWeight(out, j);
      CutWeighs(ss, thr, ss, [], j);
      MergeWeighs(cut, p.dims, [], j);
    }
  }

  // ---------------------------------------------------------------------------
  // The tables
  // ---------------------------------------------------------------------------

  lemma {:induction false} InFilter<T>(xs: seq<T>, keep: T -> bool, x: T)
    ensures x in Filter(xs, keep) <==> x in xs && keep(x)
  {
    if xs != [] {
      InFilter(xs[..|xs| - 1], keep, x);
      assert xs == xs[..|xs| - 1] + [xs[|xs| - 1]];
    }
  }

  lemma {:induction false} InLocations(ss: seq<Sample>, i: nat, l: Location)
    requires i < |ss| && l in ss[i].stack
    ensures l in Locations(ss)
  {
    if i < |ss| - 1 {
      InLocations(ss[..|ss| - 1], i, l);
    }
  }

  /** Every location and every function of a stack that is left is still in its table. */
  lemma UsedEntriesStay(p: Profile, i: nat, l: Location)
    requires i < |p.samples| && l in p.samples[i].stack
    ensures l in p.locations ==> l in Tidy(p).locations
    ensures forall f :: f in l.functions && f in p.functions ==> f in Tidy(p).functions
  {
    var ids, fs := IdsOf(Locations(p.samples)), FunctionsOf(Locations(p.samples));
    InLocations(p.samples, i, l);
    assert l.id in ids;
    InFilter(p.locations, HasIdIn(ids), l);
    forall f | f in l.functions && f in p.functions
      ensures f in Filter(p.functions, IsIn(fs))
    {
      InFilter(p.functions, IsIn(fs), f);
    }
  }

  ghost predicate UniqueIds(ls: seq<Location>) {
    forall i, k :: 0 <= i < k < |ls| ==> ls[i].id != ls[k].id
  }

  function IdSet(ls: seq<Location>): set<nat> {
    set l | l in ls :: l.id
  }

  lemma {:induction false} IdCount(ls: seq<Location>)
    requires UniqueIds(ls)
    ensures |IdSet(ls)| == |ls|
  {
    if ls != [] {
      var n := |ls| - 1;
      IdCount(ls[..n]);
      assert ls == ls[..n] + [ls[n]];
      assert IdSet(ls) == IdSet(ls[..n]) + {ls[n].id};
    }
  }

  lemma {:induction false} FilterAll<T>(xs: seq<T>, keep: T -> bool)
    requires forall i :: 0 <= i < |xs| ==> keep(xs[i])
    ensures Filter(xs, keep) == xs
  {
    if xs != [] {
      FilterAll(xs[..|xs| - 1], keep);
      assert xs == xs[..|xs| - 1] + [xs[|xs| - 1]];
    }
  }

  /** What is left stays in order. */
  lemma {:induction false} FilterConcat<T>(a: seq<T>, b: seq<T>, keep: T -> bool)
    ensures Filter(a + b, keep) == Filter(a, keep) + Filter(b, keep)
  {
    if b == [] {
      assert a + b == a;
    } else {
      FilterConcat(a, b[..|b| - 1], keep);
      assert (a + b)[..|a + b| - 1] == a + b[..|b| - 1];
    }
  }

  /** Of functions, too, exactly the used ones are left, unless every location is used. */
  lemma TableIsTheUsedFunctions(p: Profile, f: nat)
    ensures f in Tidy(p).functions <==>
      f in p.functions && (|IdsOf(Locations(p.samples))| == |p.locations| || exists l :: l in Locations(p.samples) && f in l.functions)
  {
    InFilter(p.functions, IsIn(FunctionsOf(Locations(p.samples))), f);
  }

  lemma SubsetOfSameSize<T>(a: set<T>, b: set<T>)
    requires a <= b && |a| == |b|
    ensures a == b
  {
    assert b == a + (b - a);
    assert |b| == |a| + |b - a|;
  }

  /** With unique ids, the shortcut that compares two counts leaves out no work: the locations left are
      always exactly the used ones. */
  lemma TableIsTheUsedLocations(p: Profile)
    requires UniqueIds(p.locations) && IdsOf(Locations(p.samples)) <= IdSet(p.locations)
    ensures Tidy(p).locations == Filter(p.locations, HasIdIn(IdsOf(Locations(p.samples))))
  {
    var ids := IdsOf(Locations(p.samples));
    if |ids| == |p.locations| {
      IdCount(p.locations);
      SubsetOfSameSize(ids, IdSet(p.locations));
      FilterAll(p.locations, HasIdIn(ids));
    }
  }
}
