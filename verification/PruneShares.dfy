/**
Which nodes of a profile pruning keeps, said of the whole profile: those that, with every node on their
way from the root, carry their share of some dimension. Totals and weights are sums over all samples.
*/
module PruneShares {
  import opened Prune

  function Sum(ns: seq<int>): int {
    if ns == [] then 0 else ns[0] + Sum(ns[1..])
  }

  lemma {:induction false} SumSnoc(ns: seq<int>, n: int)
    ensures Sum(ns + [n]) == Sum(ns) + n
  {
    if ns == [] {
      assert ns + [n] == [n] && [n][1..] == [];
    } else {
      assert (ns + [n])[1..] == ns[1..] + [n];
      SumSnoc(ns[1..], n);
    }
  }

  /** What every sample gives to a dimension, negative values aside. */
  function Gains(ss: seq<Sample>, j: nat): (ns: seq<int>)
    ensures |ns| == |ss|
  {
    seq(|ss|, i requires 0 <= i < |ss| => if j < |ss[i].values| && ss[i].values[j] > 0 then ss[i].values[j] else 0)
  }

  /** What every sample gives to a node: its value if its stack passes through the node. */
  function Passing(ss: seq<Sample>, node: seq<nat>, j: nat): (ns: seq<int>)
    ensures |ns| == |ss|
  {
    seq(|ss|, i requires 0 <= i < |ss| => if PassesThrough(ss[i], node) && j < |ss[i].values| then ss[i].values[j] else 0)
  }

  /** The stack of a sample, leaf first, ends with the node and all it came through. */
  predicate PassesThrough(s: Sample, node: seq<nat>) {
    |node| <= |s.stack| && forall i :: 0 <= i < |node| ==> s.stack[|s.stack| - |node| + i].id == node[i]
  }

  /** In some dimension the node carries at least the fraction of the total, and that is not nothing. */
  ghost predicate CarriesItsShare(p: Profile, f: Fraction, node: seq<nat>) {
    exists j :: 0 <= j < p.dims && Carries(p, f, node, j)
  }

  predicate Carries(p: Profile, f: Fraction, node: seq<nat>, j: nat) {
    var share := f.of(Sum(Gains(p.samples, j)));
    share > 0 && Sum(Passing(p.samples, node, j)) >= share
  }

  /** Some dimension has a share at all. */
  ghost predicate HasShares(p: Profile, f: Fraction) {
    exists j {:trigger Gains(p.samples, j)} :: 0 <= j < p.dims && f.of(Sum(Gains(p.samples, j))) > 0
  }

  ghost predicate HasNode(ss: seq<Sample>, node: seq<nat>) {
    exists i :: 0 <= i < |ss| && PassesThrough(ss[i], node)
  }

  // ---------------------------------------------------------------------------
  // The sums
  // ---------------------------------------------------------------------------

  lemma {:induction false} TotalIsTheSum(ss: seq<Sample>, j: nat)
    ensures PositiveTotal(ss, j) == Sum(Gains(ss, j))
  {
    if ss != [] {
      var n := |ss| - 1;
      TotalIsTheSum(ss[..n], j);
      var g := Gains(ss, j);
      assert g == Gains(ss[..n], j) + [g[n]];
      SumSnoc(Gains(ss[..n], j), g[n]);
    }
  }

  lemma PassesIsEnds(s: Sample, node: seq<nat>)
    ensures PassesThrough(s, node) <==> EndsWith(Ids(s.stack), node)
  {
    var ids := Ids(s.stack);
    if |node| <= |ids| {
      var tail := ids[|ids| - |node|..];
      assert forall i :: 0 <= i < |node| ==> tail[i] == s.stack[|s.stack| - |node| + i].id;
    }
  }

  lemma {:induction false} WeightIsTheSum(ss: seq<Sample>, node: seq<nat>, j: nat)
    ensures Weight(ss, node, j) == Sum(Passing(ss, node, j))
  {
    hide PassesThrough, EndsWith;
    if ss != [] {
      var n := |ss| - 1;
      WeightIsTheSum(ss[..n], node, j);
      PassesIsEnds(ss[n], node);
      var g := Passing(ss, node, j);
      assert g == Passing(ss[..n], node, j) + [g[n]];
      SumSnoc(Passing(ss[..n], node, j), g[n]);
    }
  }

  lemma SignificantIsItsShare(p: Profile, f: Fraction, node: seq<nat>)
    ensures Significant(p.samples, Thresholds(p.samples, p.dims, f), node) <==> CarriesItsShare(p, f, node)
  {
    hide Weight, PositiveTotal, Sum, Gains, Passing;
    var thr := Thresholds(p.samples, p.dims, f);
    forall j | 0 <= j < p.dims
      ensures thr[j] > 0 && Weight(p.samples, node, j) >= thr[j] <==> Carries(p, f, node, j)
    {
      TotalIsTheSum(p.samples, j);
      WeightIsTheSum(p.samples, node, j);
    }
  }

  lemma PrunableIsShares(p: Profile, f: Fraction)
    ensures Prunable(Thresholds(p.samples, p.dims, f)) <==> HasShares(p, f)
  {
    hide PositiveTotal, Sum, Gains;
    var thr := Thresholds(p.samples, p.dims, f);
    forall j | 0 <= j < p.dims
      ensures thr[j] > 0 <==> f.of(Sum(Gains(p.samples, j))) > 0
    {
      TotalIsTheSum(p.samples, j);
    }
  }

  // ---------------------------------------------------------------------------
  // The nodes
  // ---------------------------------------------------------------------------

  lemma {:induction false} MergeHasNode(ss: seq<Sample>, node: seq<nat>)
    ensures HasNode(Merge(ss), node) <==> HasNode(ss, node)
  {
    if ss != [] {
      var n := |ss| - 1;
      MergeHasNode(ss[..n], node);
      var out, s := Merge(ss[..n]), ss[n];
      MergeOneHasNode(out, s, node);
      assert HasNode(ss, node) <==> HasNode(ss[..n], node) || PassesThrough(s, node);
    }
  }

  lemma SameStack(s: Sample, t: Sample, node: seq<nat>)
    requires Ids(s.stack) == Ids(t.stack)
    ensures PassesThrough(s, node) <==> PassesThrough(t, node)
  {
    PassesIsEnds(s, node);
    PassesIsEnds(t, node);
  }

  lemma MergeOneHasNode(out: seq<Sample>, s: Sample, node: seq<nat>)
    ensures HasNode(MergeOne(out, s), node) <==> HasNode(out, node) || PassesThrough(s, node)
  {
    var i, more := Find(out, s), MergeOne(out, s);
    if s.labels == [] && i < |out| {
      SameStack(out[i], s, node);
      SameStack(more[i], out[i], node);
      if k :| 0 <= k < |out| && PassesThrough(out[k], node) { assert PassesThrough(more[k], node); }
      if k :| 0 <= k < |more| && PassesThrough(more[k], node) { assert PassesThrough(out[k], node); }
      if PassesThrough(s, node) { assert PassesThrough(more[i], node); }
    } else {
      if k :| 0 <= k < |out| && PassesThrough(out[k], node) { assert PassesThrough(more[k], node); }
      if PassesThrough(s, node) { assert PassesThrough(more[|out|], node); }
      if k :| 0 <= k < |more| && PassesThrough(more[k], node) && k < |out| { assert PassesThrough(out[k], node); }
    }
  }

  /** What is left of a stack passes through a node if and only if the stack did and every node on the way
      counts. */
  lemma CutPassesIff(ss: seq<Sample>, thr: seq<int>, s: Sample, node: seq<nat>)
    ensures PassesThrough(Cut(ss, thr, s), node) <==> PassesThrough(s, node) && Reached(ss, thr, node)
  {
    PassesIsEnds(Cut(ss, thr, s), node);
    PassesIsEnds(s, node);
    var ids, cut := Ids(s.stack), Ids(Cut(ss, thr, s).stack);
    var k := Keep(ss, thr, ids, 0);
    assert cut == Root(ids, k);
    hide Significant;
    if EndsWith(cut, node) {
      CutIsLongest(ss, thr, ids, 0, k);
      forall i | 0 < i <= |node|
        ensures Significant(ss, thr, Root(node, i))
      {
        assert Root(node, i) == Root(ids, i);
      }
      assert Root(ids, |node|) == Root(cut, |node|);
    }
    if Reached(ss, thr, node) { CutEndsAlike(ss, thr, s, node); }
  }

  lemma CutHasNode(ss: seq<Sample>, thr: seq<int>, node: seq<nat>)
    ensures HasNode(CutAll(ss, thr, ss), node) <==> HasNode(ss, node) && Reached(ss, thr, node)
  {
    hide Reached, PassesThrough, Cut;
    var cut := CutAll(ss, thr, ss);
    forall i | 0 <= i < |ss|
      ensures PassesThrough(cut[i], node) <==> PassesThrough(ss[i], node) && Reached(ss, thr, node)
    {
      CutPassesIff(ss, thr, ss[i], node);
    }
    if i :| 0 <= i < |ss| && PassesThrough(ss[i], node) {
      assert Reached(ss, thr, node) ==> PassesThrough(cut[i], node);
    }
    if i :| 0 <= i < |cut| && PassesThrough(cut[i], node) {
      assert PassesThrough(ss[i], node);
    }
  }

  /** The whole of pruning, as far as nodes go: a profile is left alone if the fraction is not positive, or
      there are no samples, dimensions or shares; and else a node is in the pruned profile if and only if it
      was in the profile and it and all nodes on its way from the root carry their share. */
  lemma KeptIffItCarriesItsShare(p: Profile, f: Fraction, node: seq<nat>)
    ensures !f.positive || p.samples == [] || p.dims == 0 || !HasShares(p, f) ==> Pruned(p, f) == p
    ensures f.positive && p.samples != [] && p.dims > 0 && HasShares(p, f) ==>
      (HasNode(Pruned(p, f).samples, node) <==>
       HasNode(p.samples, node) && forall i :: 0 < i <= |node| ==> CarriesItsShare(p, f, Root(node, i)))
  {
    var thr := Thresholds(p.samples, p.dims, f);
    PrunableIsShares(p, f);
    forall i | 0 < i <= |node|
      ensures Significant(p.samples, thr, Root(node, i)) <==> CarriesItsShare(p, f, Root(node, i))
    {
      SignificantIsItsShare(p, f, Root(node, i));
    }
    CutHasNode(p.samples, thr, node);
    MergeHasNode(CutAll(p.samples, thr, p.samples), node);
    TidyKeepsSamples(p.(samples := Merge(CutAll(p.samples, thr, p.samples))));
    hide Significant, CarriesItsShare, HasNode, Merge, CutAll, Thresholds, Tidy, HasShares, Prunable;
  }

  // ---------------------------------------------------------------------------
  // The samples
  // ---------------------------------------------------------------------------

  lemma CutStackIs(ss: seq<Sample>, thr: seq<int>, s: Sample, node: seq<nat>)
    ensures Ids(Cut(ss, thr, s).stack) == node <==>
      && PassesThrough(s, node) && Reached(ss, thr, node)
      && (|s.stack| > |node| ==> !Significant(ss, thr, Root(Ids(s.stack), |node| + 1)))
  {
    hide Significant, Reached, PassesThrough;
    var ids, cut := Ids(s.stack), Ids(Cut(ss, thr, s).stack);
    var k := Keep(ss, thr, ids, 0);
    assert |cut| == k;
    PassesIsEnds(Cut(ss, thr, s), node);
    CutPassesIff(ss, thr, s, node);
    assert cut == node <==> EndsWith(cut, node) && |node| == k;
    if PassesThrough(s, node) && Reached(ss, thr, node) && |node| < |ids| {
      OneFurther(ss, thr, s, node);
    }
  }

  lemma OneFurther(ss: seq<Sample>, thr: seq<int>, s: Sample, node: seq<nat>)
    requires PassesThrough(s, node) && Reached(ss, thr, node) && |node| < |s.stack|
    ensures |node| < Keep(ss, thr, Ids(s.stack), 0) <==> Significant(ss, thr, Root(Ids(s.stack), |node| + 1))
  {
    hide Significant;
    var ids := Ids(s.stack);
    PassesIsEnds(s, node);
    CutIsLongest(ss, thr, ids, 0, |node| + 1);
    forall i | 0 < i <= |node|
      ensures Significant(ss, thr, Root(ids, i))
    {
      assert Root(ids, i) == Root(node, i);
    }
  }

  /** Where a stack is cut: at the first node, from the root, that does not carry its share. */
  lemma CutIs(p: Profile, f: Fraction, s: Sample, node: seq<nat>)
    ensures Ids(Cut(p.samples, Thresholds(p.samples, p.dims, f), s).stack) == node <==>
      && PassesThrough(s, node) && (forall i :: 0 < i <= |node| ==> CarriesItsShare(p, f, Root(node, i)))
      && (|s.stack| > |node| ==> !CarriesItsShare(p, f, Root(Ids(s.stack), |node| + 1)))
  {
    hide Significant, CarriesItsShare, Thresholds, PassesThrough, Cut;
    CutStackIs(p.samples, Thresholds(p.samples, p.dims, f), s, node);
    if |s.stack| > |node| { SignificantIsItsShare(p, f, Root(Ids(s.stack), |node| + 1)); }
    forall i | 0 < i <= |node|
      ensures Significant(p.samples, Thresholds(p.samples, p.dims, f), Root(node, i)) <==> CarriesItsShare(p, f, Root(node, i))
    {
      SignificantIsItsShare(p, f, Root(node, i));
    }
  }

  /** What is in the pruned profile besides its nodes: the cut samples, those without labels that have one
      stack merged into one whose values are their sums, those with labels as they were and in order. */
  lemma PrunedIsGrouped(p: Profile, f: Fraction)
    requires f.positive && p.samples != [] && p.dims > 0 && HasShares(p, f) && FullWidth(p.samples, p.dims)
    ensures Grouped(CutAll(p.samples, Thresholds(p.samples, p.dims, f), p.samples), Pruned(p, f).samples, p.dims)
  {
    var thr := Thresholds(p.samples, p.dims, f);
    PrunableIsShares(p, f);
    CutIsFullWidth(p.samples, thr, p.dims);
    hide Grouped, Merge, CutAll, Thresholds, Tidy, HasShares, Prunable, FullWidth;
    MergeGroups(CutAll(p.samples, thr, p.samples), p.dims);
    TidyKeepsSamples(p.(samples := Merge(CutAll(p.samples, thr, p.samples))));
  }

  /** The tables of the pruned profile: those of what is left. */
  lemma PrunedIsTidy(p: Profile, f: Fraction)
    requires f.positive && p.samples != [] && p.dims > 0 && HasShares(p, f)
    ensures var q := Pruned(p, f); q == Tidy(p.(samples := q.samples))
  {
    PrunableIsShares(p, f);
    hide Merge, CutAll, Thresholds, HasShares, Prunable, Locations;
  }
}
