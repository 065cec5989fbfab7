/** Machines that read a byte at a time and write something for some of the bytes. */
module Transducer {
  import opened Bytes

  /** The state after `input` and everything written on the way. */
  function Run<S, O>(step: (S, byte) -> (S, seq<O>), s: S, input: bytes): (S, seq<O>) {
    if input == [] then (s, [])
    else
      var r := Run(step, s, input[..|input| - 1]);
      var t := step(r.0, input[|input| - 1]);
      (t.0, r.1 + t.1)
  }

  lemma RunEmpty<S, O>(step: (S, byte) -> (S, seq<O>), s: S)
    ensures Run(step, s, []) == (s, [])
  {
  }

  lemma RunSnoc<S, O>(step: (S, byte) -> (S, seq<O>), s: S, input: bytes, b: byte)
    ensures var r := Run(step, s, input);
      var t := step(r.0, b);
      Run(step, s, input + [b]) == (t.0, r.1 + t.1)
  {
    assert (input + [b])[..|input|] == input;
  }

  lemma RunOne<S, O>(step: (S, byte) -> (S, seq<O>), s: S, b: byte)
    ensures Run(step, s, [b]) == step(s, b)
  {
    assert [b][..0] == [];
    var t := step(s, b);
    assert [] + t.1 == t.1;
  }

  /** Reading two inputs in a row is reading their concatenation, wherever the cut is. */
  lemma {:induction false} RunConcat<S, O>(step: (S, byte) -> (S, seq<O>), s: S, a: bytes, b: bytes)
    ensures var r := Run(step, s, a);
      var t := Run(step, r.0, b);
      Run(step, s, a + b) == (t.0, r.1 + t.1)
  {
    var r := Run(step, s, a);
    if b == [] {
      assert a + b == a;
      assert r.1 + [] == r.1;
    } else {
      var n := |b| - 1;
      RunConcat(step, s, a, b[..n]);
      var t := Run(step, r.0, b[..n]);
      assert (a + b)[..|a + b| - 1] == a + b[..n];
      var u := step(t.0, b[n]);
      assert (r.1 + t.1) + u.1 == r.1 + (t.1 + u.1);
    }
  }

  /** A property every step keeps is kept by every run. */
  lemma {:induction false} RunKeeps<S(!new), O>(step: (S, byte) -> (S, seq<O>), inv: S -> bool, s: S, input: bytes)
    requires inv(s) && forall x: S, b: byte :: inv(x) ==> inv(step(x, b).0)
    ensures inv(Run(step, s, input).0)
  {
    if input != [] { RunKeeps(step, inv, s, input[..|input| - 1]); }
  }

  /** The state of a machine that writes nothing. */
  function Fold<S>(step: (S, byte) -> S, s: S, input: bytes): S {
    if input == [] then s else step(Fold(step, s, input[..|input| - 1]), input[|input| - 1])
  }

  lemma FoldSnoc<S>(step: (S, byte) -> S, s: S, input: bytes, b: byte)
    ensures Fold(step, s, input + [b]) == step(Fold(step, s, input), b)
  {
    assert (input + [b])[..|input|] == input;
  }

  lemma {:induction false} FoldConcat<S>(step: (S, byte) -> S, s: S, a: bytes, b: bytes)
    ensures Fold(step, s, a + b) == Fold(step, Fold(step, s, a), b)
  {
    if b == [] {
      assert a + b == a;
    } else {
      FoldConcat(step, s, a, b[..|b| - 1]);
      assert (a + b)[..|a + b| - 1] == a + b[..|b| - 1];
    }
  }

  /** Bytes that change nothing. */
  lemma {:induction false} FoldStays<S>(step: (S, byte) -> S, s: S, input: bytes)
    requires forall i :: 0 <= i < |input| ==> step(s, input[i]) == s
    ensures Fold(step, s, input) == s
  {
    if input != [] { FoldStays(step, s, input[..|input| - 1]); }
  }
}
