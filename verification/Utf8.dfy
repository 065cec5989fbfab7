/**
Cutting captured bodies on UTF-8 boundaries (cutUTF8 and trimIncompleteRune in
ebpftracer/l7/bodies.go). Well-formed sequences are those of section 4 of RFC 3629; FullRune and
RuneStart are those of Go's unicode/utf8.
*/
module Utf8 {
  import opened Bytes

  predicate IsCont(b: byte) {
    0x80 <= b <= 0xBF
  }

  /** How many bytes a sequence that starts with b has; 0 when none starts with it. */
  function Width(b: byte): nat {
    if b < 0x80 then 1
    else if 0xC2 <= b <= 0xDF then 2
    else if 0xE0 <= b <= 0xEF then 3
    else if 0xF0 <= b <= 0xF4 then 4
    else 0
  }

  /** Whether `second` may follow `first` in a sequence of two bytes or more. */
  predicate SecondFits(first: byte, second: byte) {
    && IsCont(second)
    && (first == 0xE0 ==> second >= 0xA0) && (first == 0xED ==> second <= 0x9F)
    && (first == 0xF0 ==> second >= 0x90) && (first == 0xF4 ==> second <= 0x8F)
  }

  /** The length of the well-formed sequence b starts with, 0 if it starts with none. */
  function RuneLen(b: bytes): nat {
    if b == [] then 0
    else
      var n := Width(b[0]);
      if n == 0 || |b| < n then 0
      else if n >= 2 && !SecondFits(b[0], b[1]) then 0
      else if n >= 3 && !IsCont(b[2]) then 0
      else if n >= 4 && !IsCont(b[3]) then 0
      else n
  }

  /** A character: a code point that is no surrogate. */
  predicate IsScalar(c: nat) {
    c < 0x11_0000 && !(0xD800 <= c < 0xE000)
  }

  /** Its bytes, section 3 of RFC 3629. */
  function EncodeRune(c: nat): bytes
    requires IsScalar(c)
  {
    if c < 0x80 then [c]
    else if c < 0x800 then [0xC0 + c / 64, 0x80 + c % 64]
    else if c < 0x1_0000 then [0xE0 + c / 4096, 0x80 + c / 64 % 64, 0x80 + c % 64]
    else [0xF0 + c / 262144, 0x80 + c / 4096 % 64, 0x80 + c / 64 % 64, 0x80 + c % 64]
  }

  /** The bytes of every character are a well-formed sequence. */
  lemma RuneOfScalar(c: nat, x: bytes)
    requires IsScalar(c)
    ensures RuneLen(EncodeRune(c) + x) == |EncodeRune(c)|
  {
    assert c / 262144 == c / 4096 / 64 && c / 4096 == c / 64 / 64;
  }

  /** And every well-formed sequence is the bytes of a character. */
  lemma ScalarOfRune(b: bytes) returns (c: nat)
    requires RuneLen(b) > 0
    ensures IsScalar(c) && EncodeRune(c) == b[..RuneLen(b)]
  {
    var n := RuneLen(b);
    var d: seq<int> := seq(n, i requires 0 <= i < n => b[i] as int);
    if n == 1 {
      c := d[0];
    } else if n == 2 {
      c := (d[0] - 0xC0) * 64 + (d[1] - 0x80);
    } else if n == 3 {
      c := (d[0] - 0xE0) * 4096 + (d[1] - 0x80) * 64 + (d[2] - 0x80);
      ThreeParts(d[0] - 0xE0, d[1] - 0x80, d[2] - 0x80);
    } else {
      c := (d[0] - 0xF0) * 262144 + (d[1] - 0x80) * 4096 + (d[2] - 0x80) * 64 + (d[3] - 0x80);
      FourParts(d[0] - 0xF0, d[1] - 0x80, d[2] - 0x80, d[3] - 0x80);
    }
    assert b[..n] == d;
  }

  lemma ThreeParts(x: nat, y: nat, z: nat)
    requires y < 64 && z < 64
    ensures var c := x * 4096 + y * 64 + z; c / 4096 == x && c / 64 % 64 == y && c % 64 == z
  {
    assert (x * 4096 + y * 64 + z) / 64 == x * 64 + y;
  }

  lemma FourParts(w: nat, x: nat, y: nat, z: nat)
    requires x < 64 && y < 64 && z < 64
    ensures var c := w * 262144 + x * 4096 + y * 64 + z;
      c / 262144 == w && c / 4096 % 64 == x && c / 64 % 64 == y && c % 64 == z
  {
    ThreeParts(w * 64 + x, y, z);
  }

  predicate Valid(b: bytes) {
    b == [] || (RuneLen(b) > 0 && Valid(b[RuneLen(b)..]))
  }

  /** utf8.RuneStart: not a continuation byte. */
  predicate RuneStart(b: byte) {
    !IsCont(b)
  }

  /** utf8.FullRune: b starts with a whole sequence, or with something no sequence starts with. */
  predicate FullRune(b: bytes) {
    b != [] && (
      || |b| >= (if Width(b[0]) == 0 then 1 else Width(b[0]))
      || (|b| > 1 && !SecondFits(b[0], b[1]))
      || (|b| > 2 && !IsCont(b[2])))
  }

  /** trimIncompleteRune: drops a sequence that is incomplete at the end. */
  method TrimIncompleteRune(b: bytes) returns (r: bytes)
    ensures r == Trimmed(b)
  {
    var i := |b| - 1;
    while i >= 0 && i >= |b| - 4
      invariant -1 <= i < |b|
      invariant forall k :: i < k < |b| ==> !RuneStart(b[k])
      invariant i >= |b| - 5
    {
      if RuneStart(b[i]) {
        LastStartIs(b, i);
        if !FullRune(b[i..]) {
          return b[..i];
        }
        return b;
      }
      i := i - 1;
    }
    if i >= 0 && HasStart(b) { LastStartBefore(b, i); }
    return b;
  }

  ghost predicate HasStart(b: bytes) {
    exists k :: 0 <= k < |b| && RuneStart(b[k])
  }

  /** The position of the last byte that is no continuation byte. */
  function LastStart(b: bytes): (k: int)
    ensures -1 <= k < |b|
    ensures k >= 0 ==> RuneStart(b[k])
    ensures forall i :: k < i < |b| ==> !RuneStart(b[i])
  {
    if b == [] then -1 else if RuneStart(b[|b| - 1]) then |b| - 1 else LastStart(b[..|b| - 1])
  }

  lemma LastStartIs(b: bytes, i: nat)
    requires i < |b| && RuneStart(b[i]) && forall k :: i < k < |b| ==> !RuneStart(b[k])
    ensures LastStart(b) == i
  {
  }

  lemma LastStartBefore(b: bytes, i: nat)
    requires i < |b| && forall k :: i < k < |b| ==> !RuneStart(b[k])
    ensures LastStart(b) <= i
  {
  }

  /** What trimIncompleteRune leaves: everything up to its last sequence start, if that is among the
      last four bytes and its sequence is incomplete. */
  function Trimmed(b: bytes): bytes {
    var k := LastStart(b);
    if k >= 0 && k >= |b| - 4 && !FullRune(b[k..]) then b[..k] else b
  }

  function CutUtf8(b: bytes, max: nat): bytes {
    Trimmed(Take(b, max))
  }

  // ---------------------------------------------------------------------------
  // A valid text stays valid however it is cut
  // ---------------------------------------------------------------------------

  lemma RuneLenAppend(x: bytes, v: bytes)
    requires RuneLen(x) > 0
    ensures RuneLen(x + v) == RuneLen(x)
  {
  }

  lemma ValidCons(x: bytes, v: bytes)
    requires x != [] && RuneLen(x) == |x| && Valid(v)
    ensures Valid(x + v)
  {
    RuneLenAppend(x, v);
    assert (x + v)[|x|..] == v;
  }

  lemma {:induction false} ValidRest(v: bytes, x: bytes)
    requires Valid(v) && Valid(v + x)
    ensures Valid(x)
  {
    if v == [] {
      assert v + x == x;
    } else {
      var w := RuneLen(v);
      RuneLenAppend(v, x);
      assert (v + x)[w..] == v[w..] + x;
      ValidRest(v[w..], x);
    }
  }

  /** One sequence, maybe cut short. */
  ghost predicate IsPiece(c: bytes) {
    0 < |c| <= 4 && RuneStart(c[0]) && forall i :: 0 < i < |c| ==> !RuneStart(c[i])
  }

  lemma PrefixOfRune(b: bytes, n: nat)
    requires 0 < n <= RuneLen(b)
    ensures IsPiece(b[..n]) && (FullRune(b[..n]) <==> n == RuneLen(b)) && (n == RuneLen(b) ==> RuneLen(b[..n]) == n)
  {
  }

  /** A prefix of a valid text is a valid text and one more piece, which is whole or not. */
  lemma {:induction false} SplitPrefix(b: bytes, n: nat) returns (v: bytes, c: bytes)
    requires Valid(b) && 0 < n <= |b|
    ensures b[..n] == v + c && Valid(v) && IsPiece(c) && (FullRune(c) ==> Valid(v + c))
    decreases |b|
  {
    var w := RuneLen(b);
    if n <= w {
      PrefixOfRune(b, n);
      v, c := [], b[..n];
      assert v + c == c;
      if n == w {
        assert Valid([]) && c + [] == c;
        ValidCons(c, []);
      }
    } else {
      PrefixOfRune(b, w);
      var v', c' := SplitPrefix(b[w..], n - w);
      v, c := b[..w] + v', c';
      ValidCons(b[..w], v');
      assert b[..n] == b[..w] + b[w..][..n - w];
      assert v + c == b[..w] + (v' + c');
      if FullRune(c) { ValidCons(b[..w], v' + c'); }
    }
  }

  lemma TrimmedPiece(v: bytes, c: bytes)
    requires IsPiece(c)
    ensures Trimmed(v + c) == if FullRune(c) then v + c else v
  {
    var p := v + c;
    LastStartIs(p, |v|);
    assert p[|v|..] == c && p[..|v|] == v;
  }

  lemma NothingLonger(v: bytes, c: bytes, q: bytes)
    requires Valid(v) && IsPiece(c) && !FullRune(c) && q <= v + c && Valid(q)
    ensures |q| <= |v|
  {
    if |q| > |v| {
      var x := c[..|q| - |v|];
      assert q == v + x;
      ValidRest(v, x);
    }
  }

  lemma PrefixFits(b: bytes, q: bytes, n: nat)
    requires q <= b && |q| <= n <= |b|
    ensures q <= b[..n]
  {
  }

  lemma CutNothing(b: bytes, max: nat)
    requires Min(max, |b|) == 0
    ensures CutUtf8(b, max) == [] && Valid([])
  {
    assert Take(b, max) == [];
  }

  lemma CutIs(b: bytes, max: nat, v: bytes, c: bytes)
    requires IsPiece(c) && b[..Min(max, |b|)] == v + c
    ensures CutUtf8(b, max) == (if FullRune(c) then v + c else v) && v <= b && v + c <= b && |v + c| <= max
  {
    hide FullRune, Trimmed, IsPiece;
    TrimmedPiece(v, c);
  }

  /** The cut of a valid text is the longest valid text it starts with that fits. */
  lemma CutOfValidIsLongestValid(b: bytes, max: nat)
    requires Valid(b)
    ensures var r := CutUtf8(b, max);
      && Valid(r) && r <= b && |r| <= max
      && forall q: bytes :: q <= b && |q| <= max && Valid(q) ==> |q| <= |r|
  {
    hide Valid, FullRune, CutUtf8, IsPiece;
    var n := Min(max, |b|);
    if n == 0 {
      CutNothing(b, max);
    } else {
      var v, c := SplitPrefix(b, n);
      CutIs(b, max, v, c);
      forall q: bytes | q <= b && |q| <= max && Valid(q)
        ensures |q| <= |CutUtf8(b, max)|
      {
        PrefixFits(b, q, n);
        if !FullRune(c) { NothingLonger(v, c, q); }
      }
    }
  }
}
