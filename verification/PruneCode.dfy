/**
pruneProfile as it is coded: totals are added up in a trie of nodes, stacks are cut by walking down
from its root, and equal stacks are found by a key of concatenated varints. The nodes of the trie
are kept in a list and point to each other by their place in it.
*/
module PruneCode {
  import opened Bytes
  import opened Prune

  // ---------------------------------------------------------------------------
  // The key of a stack
  // ---------------------------------------------------------------------------

  function Uvarint(n: nat): (b: bytes)
    ensures b != []
  {
    if n < 128 then [n] else [n % 128 + 128] + Uvarint(n / 128)
  }

  method AppendUvarint(key: bytes, n: nat) returns (b: bytes)
    ensures b == key + Uvarint(n)
  {
    b := key;
    var x := n;
    while x >= 128
      invariant b + Uvarint(x) == key + Uvarint(n)
    {
      assert b + ([x % 128 + 128] + Uvarint(x / 128)) == (b + [x % 128 + 128]) + Uvarint(x / 128);
      b := b + [x % 128 + 128];
      x := x / 128;
    }
    b := b + [x];
  }

  function Key(ids: seq<nat>): bytes {
    if ids == [] then [] else Key(ids[..|ids| - 1]) + Uvarint(ids[|ids| - 1])
  }

  function KeyFront(ids: seq<nat>): bytes {
    if ids == [] then [] else Uvarint(ids[0]) + KeyFront(ids[1..])
  }

  lemma {:induction false} KeyFrontSnoc(ids: seq<nat>, id: nat)
    ensures KeyFront(ids + [id]) == KeyFront(ids) + Uvarint(id)
  {
    hide Uvarint;
    if ids == [] {
      assert [id][1..] == [] && Uvarint(id) + [] == Uvarint(id) && [] + Uvarint(id) == Uvarint(id);
    } else {
      KeyFrontSnoc(ids[1..], id);
      assert (ids + [id])[1..] == ids[1..] + [id];
      assert Uvarint(ids[0]) + (KeyFront(ids[1..]) + Uvarint(id)) == (Uvarint(ids[0]) + KeyFront(ids[1..])) + Uvarint(id);
    }
  }

  lemma {:induction false} KeyBothWays(ids: seq<nat>)
    ensures Key(ids) == KeyFront(ids)
  {
    hide Uvarint;
    if ids != [] {
      var n := |ids| - 1;
      KeyBothWays(ids[..n]);
      KeyFrontSnoc(ids[..n], ids[n]);
      assert ids[..n] + [ids[n]] == ids;
    }
  }

  /** A varint ends where it says it does. */
  lemma {:induction false} UvarintSplits(m: nat, x: bytes, n: nat, y: bytes)
    requires Uvarint(m) + x == Uvarint(n) + y
    ensures m == n && x == y
  {
    var s, t := Uvarint(m) + x, Uvarint(n) + y;
    assert s[0] == Uvarint(m)[0] && t[0] == Uvarint(n)[0];
    if m < 128 {
      assert s[1..] == x && t[1..] == y;
    } else {
      assert s[1..] == Uvarint(m / 128) + x && t[1..] == Uvarint(n / 128) + y;
      UvarintSplits(m / 128, x, n / 128, y);
    }
  }

  lemma {:induction false} KeyFrontIsInjective(a: seq<nat>, b: seq<nat>)
    requires KeyFront(a) == KeyFront(b)
    ensures a == b
    decreases |a| + |b|
  {
    if a != [] && b != [] {
      UvarintSplits(a[0], KeyFront(a[1..]), b[0], KeyFront(b[1..]));
      KeyFrontIsInjective(a[1..], b[1..]);
      assert a == [a[0]] + a[1..] && b == [b[0]] + b[1..];
    }
  }

  /** Two stacks have the same key only if they are the same. */
  lemma KeyIsInjective(a: seq<nat>, b: seq<nat>)
    requires Key(a) == Key(b)
    ensures a == b
  {
    KeyBothWays(a);
    KeyBothWays(b);
    KeyFrontIsInjective(a, b);
  }

  // ---------------------------------------------------------------------------
  // The trie
  // ---------------------------------------------------------------------------

  datatype Node = Node(children: map<nat, nat>, totals: seq<int>)

  ghost predicate AllDistinct(paths: seq<seq<nat>>) {
    forall i, k :: 0 <= i < k < |paths| ==> paths[i] != paths[k]
  }

  /** A child is one step further from the root than its parent. */
  ghost predicate Downwards(nodes: seq<Node>, paths: seq<seq<nat>>) {
    |nodes| == |paths| &&
    forall i, id :: 0 <= i < |nodes| && id in nodes[i].children ==>
      0 < nodes[i].children[id] < |nodes| && paths[nodes[i].children[id]] == [id] + paths[i]
  }

  /** Every node but the root has a parent, which has it for a child. */
  ghost predicate Upwards(nodes: seq<Node>, paths: seq<seq<nat>>) {
    |nodes| == |paths| && forall k {:trigger paths[k]} :: 0 < k < |nodes| ==> paths[k] != [] && HasParent(nodes, paths, k)
  }

  ghost predicate HasParent(nodes: seq<Node>, paths: seq<seq<nat>>, k: nat)
    requires k < |paths| == |nodes| && paths[k] != []
  {
    exists i :: 0 <= i < |nodes| && paths[i] == paths[k][1..] && paths[k][0] in nodes[i].children && nodes[i].children[paths[k][0]] == k
  }

  ghost predicate Linked(nodes: seq<Node>, paths: seq<seq<nat>>) {
    |nodes| == |paths| && |nodes| > 0 && paths[0] == [] && AllDistinct(paths) && Downwards(nodes, paths) && Upwards(nodes, paths)
  }

  /** A child that is there is found below its parent. */
  lemma ChildIsFound(nodes: seq<Node>, paths: seq<seq<nat>>, n: nat, id: nat)
    requires Linked(nodes, paths) && n < |nodes|
    ensures [id] + paths[n] in paths <==> id in nodes[n].children
    ensures id in nodes[n].children ==> 0 < nodes[n].children[id] < |paths| && paths[nodes[n].children[id]] == [id] + paths[n]
  {
    var q := [id] + paths[n];
    if q in paths {
      var k :| 0 <= k < |paths| && paths[k] == q;
      assert q[1..] == paths[n] && q[0] == id;
      var i :| 0 <= i < |nodes| && paths[i] == paths[k][1..] && paths[k][0] in nodes[i].children && nodes[i].children[paths[k][0]] == k;
      assert i == n;
    }
  }

  /** The nodes on the way of these samples are there. */
  ghost predicate Covered(ss: seq<Sample>, paths: seq<seq<nat>>) {
    forall i, k :: 0 <= i < |ss| && 0 <= k <= |ss[i].stack| ==> Root(Ids(ss[i].stack), k) in paths
  }

  /** What a node holds when the samples ss are in the trie and s is in it down to depth k. */
  function Held(ss: seq<Sample>, s: Sample, k: nat, node: seq<nat>, j: nat): int {
    Weight(ss, node, j) + if |node| <= k then Share(s, node, j) else 0
  }

  ghost predicate TotalsAre(nodes: seq<Node>, paths: seq<seq<nat>>, ss: seq<Sample>, s: Sample, k: nat, dims: nat) {
    |nodes| == |paths| && forall i {:trigger paths[i]} :: 0 < i < |nodes| ==> NodeHolds(nodes[i], paths[i], ss, s, k, dims)
  }

  ghost predicate NodeHolds(n: Node, path: seq<nat>, ss: seq<Sample>, s: Sample, k: nat, dims: nat) {
    |n.totals| == dims && forall j :: 0 <= j < dims ==> n.totals[j] == Held(ss, s, k, path, j)
  }

  lemma {:induction false} NoWeightOffTheTrie(ss: seq<Sample>, paths: seq<seq<nat>>, node: seq<nat>, j: nat)
    requires Covered(ss, paths) && node !in paths
    ensures Weight(ss, node, j) == 0
  {
    if ss != [] {
      var n := |ss| - 1;
      NoWeightOffTheTrie(ss[..n], paths, node, j);
      var ids := Ids(ss[n].stack);
      assert |node| <= |ids| ==> Root(ids, |node|) in paths;
    }
  }

  /** The totals of a child that is not there yet. */
  function Zeros(dims: nat): seq<int> {
    seq(dims, j => 0)
  }

  function WithChild(nodes: seq<Node>, n: nat, id: nat, dims: nat): seq<Node>
    requires n < |nodes|
  {
    nodes[n := nodes[n].(children := nodes[n].children[id := |nodes|])] + [Node(map[], Zeros(dims))]
  }

  lemma NewNode(nodes: seq<Node>, paths: seq<seq<nat>>, n: nat, id: nat, dims: nat)
    requires Linked(nodes, paths) && n < |nodes| && id !in nodes[n].children
    ensures [id] + paths[n] !in paths
    ensures Linked(WithChild(nodes, n, id, dims), paths + [[id] + paths[n]])
  {
    ChildIsFound(nodes, paths, n, id);
    hide Downwards, Upwards;
    NewDownwards(nodes, paths, n, id, dims);
    NewUpwards(nodes, paths, n, id, dims);
  }

  lemma NewDownwards(nodes: seq<Node>, paths: seq<seq<nat>>, n: nat, id: nat, dims: nat)
    requires Downwards(nodes, paths) && n < |nodes|
    ensures Downwards(WithChild(nodes, n, id, dims), paths + [[id] + paths[n]])
  {
  }

  lemma NewUpwards(nodes: seq<Node>, paths: seq<seq<nat>>, n: nat, id: nat, dims: nat)
    requires Upwards(nodes, paths) && n < |nodes| && id !in nodes[n].children
    ensures Upwards(WithChild(nodes, n, id, dims), paths + [[id] + paths[n]])
  {
    var nodes', paths' := WithChild(nodes, n, id, dims), paths + [[id] + paths[n]];
    forall k | 0 < k < |nodes'|
      ensures paths'[k] != [] && HasParent(nodes', paths', k)
    {
      if k < |nodes| {
        assert paths[k] != [] && HasParent(nodes, paths, k);
        var i :| 0 <= i < |nodes| && paths[i] == paths[k][1..] && paths[k][0] in nodes[i].children && nodes[i].children[paths[k][0]] == k;
        assert paths'[i] == paths'[k][1..] && paths'[k][0] in nodes'[i].children && nodes'[i].children[paths'[k][0]] == k;
      } else {
        assert paths'[n] == paths'[k][1..] && nodes'[n].children[paths'[k][0]] == k;
      }
    }
  }

  lemma CoveredMore(ss: seq<Sample>, paths: seq<seq<nat>>, q: seq<nat>)
    requires Covered(ss, paths)
    ensures Covered(ss, paths + [q])
  {
    hide Ids;
  }

  lemma TotalsWithNew(nodes: seq<Node>, paths: seq<seq<nat>>, ss: seq<Sample>, s: Sample, k: nat, dims: nat, n: nat, id: nat)
    requires Linked(nodes, paths) && Covered(ss, paths) && TotalsAre(nodes, paths, ss, s, k, dims) && n < |nodes|
    requires [id] + paths[n] !in paths && |paths[n]| == k
    ensures TotalsAre(WithChild(nodes, n, id, dims), paths + [[id] + paths[n]], ss, s, k, dims)
  {
    hide Weight, Share, Covered, Linked;
    var q := [id] + paths[n];
    var nodes', paths' := WithChild(nodes, n, id, dims), paths + [q];
    forall i | 0 < i < |nodes'|
      ensures NodeHolds(nodes'[i], paths'[i], ss, s, k, dims)
    {
      if i < |nodes| {
        assert NodeHolds(nodes[i], paths[i], ss, s, k, dims);
      } else {
        forall j | 0 <= j < dims
          ensures Held(ss, s, k, q, j) == 0
        {
          NoWeightOffTheTrie(ss, paths, q, j);
        }
      }
    }
  }

  /** The child of a node, made if need be. */
  method Child(nodes: seq<Node>, ghost paths: seq<seq<nat>>, n: nat, id: nat, dims: nat, ghost ss: seq<Sample>, ghost s: Sample)
    returns (nodes': seq<Node>, ghost paths': seq<seq<nat>>, c: nat)
    requires Linked(nodes, paths) && n < |nodes| && Covered(ss, paths) && TotalsAre(nodes, paths, ss, s, |paths[n]|, dims)
    ensures Linked(nodes', paths') && Covered(ss, paths') && TotalsAre(nodes', paths', ss, s, |paths[n]|, dims)
    ensures |nodes'| == |paths'| && 0 < c < |nodes'| && paths'[c] == [id] + paths[n] && paths <= paths'
  {
    hide TotalsAre, Covered;
    nodes', paths' := nodes, paths;
    if id in nodes[n].children {
      ChildIsFound(nodes, paths, n, id);
      c := nodes[n].children[id];
      return;
    }
    NewNode(nodes, paths, n, id, dims);
    CoveredMore(ss, paths, [id] + paths[n]);
    TotalsWithNew(nodes, paths, ss, s, |paths[n]|, dims, n, id);
    c := |nodes|;
    nodes' := nodes[n := nodes[n].(children := nodes[n].children[id := c])] + [Node(map[], Zeros(dims))];
    paths' := paths + [[id] + paths[n]];
  }

  method AddTo(was: seq<int>, s: Sample) returns (totals: seq<int>)
    ensures |totals| == |was| && forall j :: 0 <= j < |was| ==> totals[j] == was[j] + Value(s, j)
  {
    totals := was;
    var j := 0;
    while j < |was| && j < |s.values|
      invariant j <= |was| == |totals| && j <= |s.values|
      invariant forall i :: 0 <= i < |was| ==> totals[i] == was[i] + if i < j then s.values[i] else 0
    {
      totals := totals[j := totals[j] + s.values[j]];
      j := j + 1;
    }
  }

  lemma LinkedTotals(nodes: seq<Node>, paths: seq<seq<nat>>, c: nat, totals: seq<int>)
    requires Linked(nodes, paths) && c < |nodes|
    ensures Linked(nodes[c := nodes[c].(totals := totals)], paths)
  {
    var nodes' := nodes[c := nodes[c].(totals := totals)];
    assert forall i :: 0 <= i < |nodes| ==> nodes'[i].children == nodes[i].children;
    forall k | 0 < k < |nodes|
      ensures paths[k] != [] && HasParent(nodes', paths, k)
    {
      assert paths[k] != [] && HasParent(nodes, paths, k);
      var i :| 0 <= i < |nodes| && paths[i] == paths[k][1..] && paths[k][0] in nodes[i].children && nodes[i].children[paths[k][0]] == k;
      assert nodes'[i].children[paths[k][0]] == k;
    }
  }

  /** One node further down. */
  lemma TotalsDeeper(nodes: seq<Node>, paths: seq<seq<nat>>, ss: seq<Sample>, s: Sample, k: nat, dims: nat, c: nat, totals: seq<int>)
    requires TotalsAre(nodes, paths, ss, s, k, dims) && k < |s.stack| && 0 < c < |nodes|
    requires Linked(nodes, paths) && paths[c] == Root(Ids(s.stack), k + 1)
    requires |totals| == |nodes[c].totals| && forall j :: 0 <= j < |totals| ==> totals[j] == nodes[c].totals[j] + Value(s, j)
    ensures TotalsAre(nodes[c := nodes[c].(totals := totals)], paths, ss, s, k + 1, dims)
  {
    hide Weight, Value, Ids, Downwards, Upwards;
    var nodes' := nodes[c := nodes[c].(totals := totals)];
    forall i | 0 < i < |nodes'|
      ensures NodeHolds(nodes'[i], paths[i], ss, s, k + 1, dims)
    {
      assert NodeHolds(nodes[i], paths[i], ss, s, k, dims);
      assert i != c ==> paths[i] != paths[c];
    }
  }

  method Insert(nodes: seq<Node>, ghost paths: seq<seq<nat>>, ghost ss: seq<Sample>, s: Sample, dims: nat)
    returns (nodes': seq<Node>, ghost paths': seq<seq<nat>>)
    requires Linked(nodes, paths) && Covered(ss, paths) && TotalsAre(nodes, paths, ss, s, 0, dims)
    ensures Linked(nodes', paths') && Covered(ss + [s], paths') && TotalsAre(nodes', paths', ss, s, |s.stack|, dims)
  {
    hide TotalsAre, Covered, AllDistinct, Downwards, Upwards;
    nodes', paths' := nodes, paths;
    ghost var ids := Ids(s.stack);
    var n, k := 0, 0;
    assert forall m :: 0 <= m <= 0 ==> Root(ids, m) == paths[0];
    while k < |s.stack|
      invariant Linked(nodes', paths') && Covered(ss, paths') && k <= |s.stack| && n < |nodes'| && paths'[n] == Root(ids, k)
      invariant TotalsAre(nodes', paths', ss, s, k, dims)
      invariant forall m :: 0 <= m <= k ==> Root(ids, m) in paths'
    {
      var c: nat;
      assert [s.stack[|s.stack| - k - 1].id] + Root(ids, k) == Root(ids, k + 1);
      nodes', paths', c := Child(nodes', paths', n, s.stack[|s.stack| - k - 1].id, dims, ss, s);
      var totals := AddTo(nodes'[c].totals, s);
      TotalsDeeper(nodes', paths', ss, s, k, dims, c, totals);
      LinkedTotals(nodes', paths', c, totals);
      nodes' := nodes'[c := nodes'[c].(totals := totals)];
      n := c;
      k := k + 1;
    }
    CoveredSnoc(ss, s, paths');
  }

  lemma CoveredSnoc(ss: seq<Sample>, s: Sample, paths: seq<seq<nat>>)
    requires Covered(ss, paths) && forall m :: 0 <= m <= |s.stack| ==> Root(Ids(s.stack), m) in paths
    ensures Covered(ss + [s], paths)
  {
    hide Ids;
  }

  /** The trie holds what the samples weigh. */
  ghost predicate Weighs(nodes: seq<Node>, paths: seq<seq<nat>>, ss: seq<Sample>, dims: nat) {
    && |nodes| == |paths|
    && forall i {:trigger paths[i]} :: 0 < i < |nodes| ==>
         |nodes[i].totals| == dims && forall j :: 0 <= j < dims ==> nodes[i].totals[j] == Weight(ss, paths[i], j)
  }

  lemma BeforeInsert(nodes: seq<Node>, paths: seq<seq<nat>>, ss: seq<Sample>, s: Sample, dims: nat)
    requires Linked(nodes, paths) && Weighs(nodes, paths, ss, dims)
    ensures TotalsAre(nodes, paths, ss, s, 0, dims)
  {
    hide Weight, Downwards, AllDistinct, HasParent;
  }

  lemma AfterInsert(nodes: seq<Node>, paths: seq<seq<nat>>, ss: seq<Sample>, s: Sample, dims: nat)
    requires Linked(nodes, paths) && TotalsAre(nodes, paths, ss, s, |s.stack|, dims)
    ensures Weighs(nodes, paths, ss + [s], dims)
  {
    hide Weight, Downwards, AllDistinct, HasParent;
    forall i | 0 < i < |nodes|
      ensures |nodes[i].totals| == dims && forall j :: 0 <= j < dims ==> nodes[i].totals[j] == Weight(ss + [s], paths[i], j)
    {
      assert NodeHolds(nodes[i], paths[i], ss, s, |s.stack|, dims);
      forall j | 0 <= j < dims
        ensures Held(ss, s, |s.stack|, paths[i], j) == Weight(ss + [s], paths[i], j)
      {
        WeightSnoc(ss, s, paths[i], j);
      }
    }
  }

  method BuildTrie(ss: seq<Sample>, dims: nat) returns (nodes: seq<Node>, ghost paths: seq<seq<nat>>)
    ensures Linked(nodes, paths) && Covered(ss, paths) && Weighs(nodes, paths, ss, dims)
  {
    nodes, paths := [Node(map[], [])], [[]];
    for i := 0 to |ss|
      invariant Linked(nodes, paths) && Covered(ss[..i], paths) && Weighs(nodes, paths, ss[..i], dims)
    {
      hide Linked, Covered, Weighs, TotalsAre;
      BeforeInsert(nodes, paths, ss[..i], ss[i], dims);
      nodes, paths := Insert(nodes, paths, ss[..i], ss[i], dims);
      AfterInsert(nodes, paths, ss[..i], ss[i], dims);
      assert ss[..i] + [ss[i]] == ss[..i + 1];
    }
    assert ss[..|ss|] == ss;
  }

  method IsSignificant(totals: seq<int>, thr: seq<int>) returns (b: bool)
    requires |totals| == |thr|
    ensures b <==> exists j :: 0 <= j < |thr| && thr[j] > 0 && totals[j] >= thr[j]
  {
    for i := 0 to |totals|
      invariant forall j :: 0 <= j < i ==> !(thr[j] > 0 && totals[j] >= thr[j])
    {
      if thr[i] > 0 && totals[i] >= thr[i] {
        return true;
      }
    }
    b := false;
  }

  /** Walks down a stack from its root as long as the nodes count. */
  method KeepOf(nodes: seq<Node>, ghost paths: seq<seq<nat>>, ss: seq<Sample>, thr: seq<int>, s: Sample) returns (keep: nat)
    requires Linked(nodes, paths) && Covered(ss, paths) && Weighs(nodes, paths, ss, |thr|) && s in ss
    ensures keep == Keep(ss, thr, Ids(s.stack), 0)
  {
    hide Weight, AllDistinct, Downwards, Upwards, Ids;
    ghost var ids := Ids(s.stack);
    var n := 0;
    keep := 0;
    while keep < |s.stack|
      invariant keep <= |s.stack| && n < |nodes| && paths[n] == Root(ids, keep)
      invariant Keep(ss, thr, ids, 0) == Keep(ss, thr, ids, keep)
    {
      var id := s.stack[|s.stack| - keep - 1].id;
      ghost var q := Root(ids, keep + 1);
      assert [id] + paths[n] == q == ids[|ids| - keep - 1..];
      assert q in paths;
      ChildIsFound(nodes, paths, n, id);
      var c := nodes[n].children[id];
      var b := IsSignificant(nodes[c].totals, thr);
      assert b == Significant(ss, thr, q);
      if !b {
        break;
      }
      keep := keep + 1;
      n := c;
    }
  }

  method ComputeThresholds(ss: seq<Sample>, dims: nat, f: Fraction) returns (thr: seq<int>, prunable: bool)
    ensures thr == Thresholds(ss, dims, f) && prunable == Prunable(thr)
  {
    var totals := Zeros(dims);
    for i := 0 to |ss|
      invariant |totals| == dims && forall j :: 0 <= j < dims ==> totals[j] == PositiveTotal(ss[..i], j)
    {
      assert ss[..i + 1][..i] == ss[..i];
      totals := AddPositive(totals, ss[i]);
    }
    assert ss[..|ss|] == ss;
    thr, prunable := [], false;
    for j := 0 to dims
      invariant |thr| == j && forall i :: 0 <= i < j ==> thr[i] == f.of(totals[i])
      invariant prunable == exists i :: 0 <= i < j && thr[i] > 0
    {
      thr := thr + [f.of(totals[j])];
      if thr[j] > 0 {
        prunable := true;
      }
    }
  }

  method AddPositive(was: seq<int>, s: Sample) returns (totals: seq<int>)
    ensures |totals| == |was| && forall j :: 0 <= j < |was| ==> totals[j] == was[j] + Positive(Value(s, j))
  {
    totals := was;
    var j := 0;
    while j < |was| && j < |s.values|
      invariant j <= |was| == |totals| && j <= |s.values|
      invariant forall i :: 0 <= i < |was| ==> totals[i] == was[i] + if i < j then Positive(s.values[i]) else 0
    {
      if s.values[j] > 0 {
        totals := totals[j := totals[j] + s.values[j]];
      }
      j := j + 1;
    }
  }

  // ---------------------------------------------------------------------------
  // Merging
  // ---------------------------------------------------------------------------

  method KeyOf(stack: seq<Location>) returns (key: bytes)
    ensures key == Key(Ids(stack))
  {
    key := [];
    ghost var ids := Ids(stack);
    for i := 0 to |stack|
      invariant key == Key(ids[..i])
    {
      assert ids[..i + 1][..i] == ids[..i];
      key := AppendUvarint(key, stack[i].id);
    }
    assert ids[..|ids|] == ids;
  }

  method AddInto(was: seq<int>, more: seq<int>) returns (values: seq<int>)
    ensures values == AddValues(was, more)
  {
    values := was;
    var i := 0;
    while i < |was| && i < |more|
      invariant i <= |was| == |values| && i <= |more|
      invariant forall k :: 0 <= k < |was| ==> values[k] == was[k] + if k < i then more[k] else 0
    {
      values := values[i := values[i] + more[i]];
      i := i + 1;
    }
  }

  /** The map says where the sample without labels and with that stack is. */
  ghost predicate Indexed(merged: map<bytes, nat>, out: seq<Sample>) {
    && (forall key :: key in merged ==> merged[key] < |out| && out[merged[key]].labels == [] && Key(Ids(out[merged[key]].stack)) == key)
    && (forall i :: 0 <= i < |out| && out[i].labels == [] ==> Key(Ids(out[i].stack)) in merged)
  }

  lemma {:induction false} MergeHasNoTwins(ss: seq<Sample>)
    ensures NoTwins(Merge(ss))
  {
    if ss != [] {
      var n := |ss| - 1;
      var out, s := Merge(ss[..n]), ss[n];
      MergeHasNoTwins(ss[..n]);
      var i := Find(out, s);
      hide Ids;
      if s.labels == [] && i < |out| {
        StillNoTwins(out, i, MergeOne(out, s)[i]);
      }
    }
  }

  /** What the key says is what comparing stacks would say. */
  lemma KeyFinds(merged: map<bytes, nat>, out: seq<Sample>, s: Sample)
    requires Indexed(merged, out) && NoTwins(out) && s.labels == []
    ensures var key := Key(Ids(s.stack)); Find(out, s) == if key in merged then merged[key] else |out|
  {
    var key := Key(Ids(s.stack));
    var i := Find(out, s);
    if key in merged {
      var k := merged[key];
      KeyIsInjective(Ids(out[k].stack), Ids(s.stack));
      hide Key, Ids;
      assert Twin(out[k], s);
    }
  }

  lemma IndexedAfter(merged: map<bytes, nat>, out: seq<Sample>, s: Sample)
    requires Indexed(merged, out) && NoTwins(out)
    ensures Indexed(if s.labels == [] && Find(out, s) == |out| then merged[Key(Ids(s.stack)) := |out|] else merged, MergeOne(out, s))
  {
    if s.labels == [] { KeyFinds(merged, out, s); }
    hide Key, Ids, Find;
  }

  lemma CutSnoc(ss: seq<Sample>, thr: seq<int>, i: nat)
    requires i < |ss|
    ensures CutAll(ss, thr, ss[..i + 1]) == CutAll(ss, thr, ss[..i]) + [Cut(ss, thr, ss[i])]
  {
    hide Cut;
  }

  lemma MergeSnoc(ss: seq<Sample>, s: Sample)
    ensures Merge(ss + [s]) == MergeOne(Merge(ss), s)
  {
    hide MergeOne;
    assert (ss + [s])[..|ss|] == ss;
  }

  method MergeSamples(nodes: seq<Node>, ghost paths: seq<seq<nat>>, ss: seq<Sample>, thr: seq<int>) returns (out: seq<Sample>)
    requires Linked(nodes, paths) && Covered(ss, paths) && Weighs(nodes, paths, ss, |thr|)
    ensures out == Merge(CutAll(ss, thr, ss))
  {
    out := [];
    var merged: map<bytes, nat> := map[];
    for i := 0 to |ss|
      invariant out == Merge(CutAll(ss, thr, ss[..i])) && Indexed(merged, out)
    {
      hide Linked, Covered, Weighs, Keep, Indexed, Merge, CutAll, Key, Ids, Find;
      var keep := KeepOf(nodes, paths, ss, thr, ss[i]);
      var s := ss[i];
      if keep < |s.stack| {
        s := s.(stack := s.stack[|s.stack| - keep..]);
      }
      assert s == Cut(ss, thr, ss[i]);
      CutSnoc(ss, thr, i);
      MergeSnoc(CutAll(ss, thr, ss[..i]), s);
      MergeHasNoTwins(CutAll(ss, thr, ss[..i]));
      IndexedAfter(merged, out, s);
      if s.labels != [] {
        out := out + [s];
        continue;
      }
      KeyFinds(merged, out, s);
      var key := KeyOf(s.stack);
      if key in merged {
        var prev := merged[key];
        var values := AddInto(out[prev].values, s.values);
        out := out[prev := out[prev].(values := values)];
        continue;
      }
      merged := merged[key := |out|];
      out := out + [s];
    }
    assert ss[..|ss|] == ss;
  }

  // ---------------------------------------------------------------------------
  // The tables, and the whole
  // ---------------------------------------------------------------------------

  /** A location has an id of its own. */
  ghost predicate OwnIds(ls: set<Location>) {
    forall l, k :: l in ls && k in ls && l.id == k.id ==> l == k
  }

  method UseLocation(l: Location, wasLocs: set<nat>, wasFuncs: set<nat>, ghost seen: set<Location>)
    returns (locs: set<nat>, funcs: set<nat>)
    requires OwnIds(seen + {l}) && wasLocs == IdsOf(seen) && wasFuncs == FunctionsOf(seen)
    ensures locs == IdsOf(seen + {l}) && funcs == FunctionsOf(seen + {l})
  {
    locs, funcs := wasLocs, wasFuncs;
    if l.id in locs {
      assert seen + {l} == seen;
      return;
    }
    locs := locs + {l.id};
    for i := 0 to |l.functions|
      invariant funcs == FunctionsOf(seen) + set f | f in l.functions[..i]
    {
      assert l.functions[..i + 1] == l.functions[..i] + [l.functions[i]];
      funcs := funcs + {l.functions[i]};
    }
    assert l.functions[..|l.functions|] == l.functions;
  }

  method UsedTables(ss: seq<Sample>) returns (locs: set<nat>, funcs: set<nat>)
    requires OwnIds(Locations(ss))
    ensures locs == IdsOf(Locations(ss)) && funcs == FunctionsOf(Locations(ss))
  {
    locs, funcs := {}, {};
    for i := 0 to |ss|
      invariant locs == IdsOf(Locations(ss[..i])) && funcs == FunctionsOf(Locations(ss[..i]))
    {
      hide IdsOf, FunctionsOf;
      ghost var before := Locations(ss[..i]);
      var stack := ss[i].stack;
      assert ss[..i + 1][..i] == ss[..i];
      LocationsOfPrefix(ss, i + 1);
      for k := 0 to |stack|
        invariant locs == IdsOf(before + AsSet(stack[..k])) && funcs == FunctionsOf(before + AsSet(stack[..k]))
      {
        AsSetSnoc(stack, k);
        assert before + AsSet(stack[..k + 1]) == (before + AsSet(stack[..k])) + {stack[k]};
        locs, funcs := UseLocation(stack[k], locs, funcs, before + AsSet(stack[..k]));
      }
      assert stack[..|stack|] == stack;
    }
    assert ss[..|ss|] == ss;
  }

  lemma AsSetSnoc(stack: seq<Location>, k: nat)
    requires k < |stack|
    ensures AsSet(stack[..k + 1]) == AsSet(stack[..k]) + {stack[k]} && AsSet(stack[..k + 1]) <= AsSet(stack)
  {
    assert stack[..k + 1] == stack[..k] + [stack[k]];
  }

  lemma {:induction false} LocationsOfPrefix(ss: seq<Sample>, n: nat)
    requires n <= |ss|
    ensures Locations(ss[..n]) <= Locations(ss)
    decreases |ss|
  {
    if n < |ss| {
      LocationsOfPrefix(ss[..|ss| - 1], n);
      assert ss[..|ss| - 1][..n] == ss[..n];
    } else {
      assert ss[..n] == ss;
    }
  }

  method FilterBy<T>(xs: seq<T>, keep: T -> bool) returns (out: seq<T>)
    ensures out == Filter(xs, keep)
  {
    out := [];
    for i := 0 to |xs|
      invariant out == Filter(xs[..i], keep)
    {
      assert xs[..i + 1][..i] == xs[..i];
      if keep(xs[i]) {
        out := out + [xs[i]];
      }
    }
    assert xs[..|xs|] == xs;
  }

  /** pruneProfile computes what pruning means. */
  method PruneProfile(p: Profile, f: Fraction) returns (q: Profile)
    requires OwnIds(Locations(p.samples))
    ensures q == Pruned(p, f)
  {
    hide Locations, Weighs, Linked, Covered, IdsOf, FunctionsOf, Merge, CutAll, Prunable;
    if !f.positive || |p.samples| == 0 || p.dims == 0 {
      return p;
    }
    var thr, prunable := ComputeThresholds(p.samples, p.dims, f);
    if !prunable {
      return p;
    }
    var nodes; ghost var paths;
    nodes, paths := BuildTrie(p.samples, p.dims);
    var samples := MergeSamples(nodes, paths, p.samples, thr);
    MergedLocations(p.samples, thr);
    q := p.(samples := samples);
    var locs, funcs := UsedTables(samples);
    if |locs| == |p.locations| {
      return;
    }
    var locations := FilterBy(p.locations, HasIdIn(locs));
    var functions := FilterBy(p.functions, IsIn(funcs));
    q := q.(locations := locations, functions := functions);
  }

  /** No location comes in with the cut or the merge. */
  lemma MergedLocations(ss: seq<Sample>, thr: seq<int>)
    ensures Locations(Merge(CutAll(ss, thr, ss))) <= Locations(ss)
  {
    var cut := CutAll(ss, thr, ss);
    MergeLocations(cut);
    forall l | l in Locations(cut)
      ensures l in Locations(ss)
    {
      var i := WhereLocated(cut, l);
      assert l in ss[i].stack;
      InLocations(ss, i, l);
    }
  }

  lemma {:induction false} WhereLocated(ss: seq<Sample>, l: Location) returns (i: nat)
    requires l in Locations(ss)
    ensures i < |ss| && l in ss[i].stack
  {
    if l in AsSet(ss[|ss| - 1].stack) {
      i := |ss| - 1;
    } else {
      i := WhereLocated(ss[..|ss| - 1], l);
    }
  }

  lemma {:induction false} MergeLocations(ss: seq<Sample>)
    ensures Locations(Merge(ss)) <= Locations(ss)
  {
    if ss != [] {
      var n := |ss| - 1;
      MergeLocations(ss[..n]);
      var out := Merge(ss);
      hide Ids, Find;
      forall l | l in Locations(out)
        ensures l in Locations(ss)
      {
        var i := WhereLocated(out, l);
        var was := Merge(ss[..n]);
        if i < |was| {
          assert l in was[i].stack;
          InLocations(was, i, l);
        } else {
          InLocations(ss, n, l);
        }
      }
    }
  }
}
