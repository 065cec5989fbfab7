/** Bytes and the few operations on byte strings that several components share. */
module Bytes {

  type byte = b: int | 0 <= b < 256 witness 0
  type bytes = seq<byte>

  const CR: byte := 13
  const LF: byte := 10
  const SP: byte := 32
  const TAB: byte := 9
  const COLON: byte := 58
  const SEMICOLON: byte := 59
  const CRLF: bytes := [CR, LF]
  const HEADER_END: bytes := [CR, LF, CR, LF]

  predicate IsDigit(b: byte) {
    48 <= b <= 57
  }

  function Lower(b: byte): byte {
    if 65 <= b <= 90 then b + 32 else b
  }

  /** The bytes of an ASCII literal. */
  function Ascii(s: string): (r: bytes)
    requires forall i :: 0 <= i < |s| ==> s[i] < 128 as char
    ensures |r| == |s| && forall i :: 0 <= i < |s| ==> r[i] == s[i] as int
  {
    seq(|s|, i requires 0 <= i < |s| => s[i] as int)
  }

  function Min(a: nat, b: nat): nat {
    if a < b then a else b
  }

  /** The first n bytes, or all of them. */
  function Take(b: bytes, n: nat): bytes {
    b[..Min(n, |b|)]
  }

  /** All pieces, one after the other. */
  function Join(pieces: seq<bytes>): bytes {
    if pieces == [] then [] else pieces[0] + Join(pieces[1..])
  }

  lemma {:induction false} JoinConcat(a: seq<bytes>, b: seq<bytes>)
    ensures Join(a + b) == Join(a) + Join(b)
  {
    if a == [] {
      assert a + b == b;
    } else {
      JoinConcat(a[1..], b);
      assert (a + b)[1..] == a[1..] + b;
      assert a[0] + (Join(a[1..]) + Join(b)) == a[0] + Join(a[1..]) + Join(b);
    }
  }

  lemma JoinSnoc(pieces: seq<bytes>, last: bytes)
    ensures Join(pieces + [last]) == Join(pieces) + last
  {
    JoinConcat(pieces, [last]);
    assert [last][1..] == [];
  }

  lemma JoinInit(pieces: seq<bytes>)
    requires pieces != []
    ensures Join(pieces) == Join(pieces[..|pieces| - 1]) + pieces[|pieces| - 1]
  {
    JoinSnoc(pieces[..|pieces| - 1], pieces[|pieces| - 1]);
    assert pieces[..|pieces| - 1] + [pieces[|pieces| - 1]] == pieces;
  }
}
