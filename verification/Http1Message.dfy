/**
HTTP/1 messages as their sender writes them, and what the kernel side makes of them: where a header
block ends, what it declares (section 6 of RFC 9112) and where the body ends.
*/
module Http1Message {
  import opened Bytes
  import opened Transducer
  import opened Http1Kernel

  // ---------------------------------------------------------------------------
  // Header blocks
  // ---------------------------------------------------------------------------

  /** A line of a header block, without its line end. */
  predicate IsLine(line: bytes) {
    line != [] && forall i :: 0 <= i < |line| ==> line[i] != CR && line[i] != LF
  }

  ghost predicate AreLines(lines: seq<bytes>) {
    forall i :: 0 <= i < |lines| ==> IsLine(lines[i])
  }

  /** The lines with their line ends. */
  function Lines(lines: seq<bytes>): bytes {
    if lines == [] then [] else Lines(lines[..|lines| - 1]) + lines[|lines| - 1] + CRLF
  }

  /** A header block (or a trailer section): its lines and the empty line. */
  function Block(lines: seq<bytes>): bytes {
    Lines(lines) + CRLF
  }

  // ---------------------------------------------------------------------------
  // The scan of a block, matcher by matcher
  // ---------------------------------------------------------------------------

  function ScanAll(sc: Scan, input: bytes): Scan {
    Fold(ScanByte, sc, input)
  }

  function LengthAll(l: Length, input: bytes): Length {
    Fold(LengthByte, l, input)
  }

  function EncodingAll(e: Encoding, input: bytes): Encoding {
    Fold(EncodingByte, e, input)
  }

  function FirstAll(f: FirstLine, input: bytes): FirstLine {
    Fold(FirstLineByte, f, input)
  }

  function TailAll(tail: bytes, input: bytes): bytes {
    Fold(Push, tail, input)
  }

  /** The matchers do not see each other. */
  lemma {:induction false} ScanAllParts(sc: Scan, input: bytes)
    requires sc.captured <= CAPTURE_MAX
    ensures var r := ScanAll(sc, input);
      && r.length == LengthAll(sc.length, input)
      && r.encoding == EncodingAll(sc.encoding, input)
      && r.first == FirstAll(sc.first, input)
      && r.tail == TailAll(sc.tail, input)
      && r.captured == Min(sc.captured + |input|, CAPTURE_MAX)
  {
    hide LengthByte, EncodingByte, FirstLineByte, Push;
    if input != [] { ScanAllParts(sc, input[..|input| - 1]); }
  }

  /** No byte of `input` ends the block. */
  ghost predicate NoEnd(tail: bytes, input: bytes) {
    forall k :: 0 <= k < |input| ==> !EndsHeaders(TailAll(tail, input[..k]), input[k])
  }

  lemma NoEndSnoc(tail: bytes, input: bytes, b: byte)
    requires NoEnd(tail, input) && !EndsHeaders(TailAll(tail, input), b)
    ensures NoEnd(tail, input + [b])
  {
    hide TailAll, EndsHeaders;
    forall k | 0 <= k < |input + [b]|
      ensures !EndsHeaders(TailAll(tail, (input + [b])[..k]), (input + [b])[k])
    {
      assert (input + [b])[..k] == input[..k];
      if k == |input| { assert input[..k] == input; }
    }
  }

  lemma NoEndConcat(tail: bytes, a: bytes, b: bytes)
    requires NoEnd(tail, a) && NoEnd(TailAll(tail, a), b)
    ensures NoEnd(tail, a + b)
  {
    hide EndsHeaders;
    forall k | 0 <= k < |a + b|
      ensures !EndsHeaders(TailAll(tail, (a + b)[..k]), (a + b)[k])
    {
      if k < |a| {
        assert (a + b)[..k] == a[..k];
      } else {
        assert (a + b)[..k] == a + b[..k - |a|];
        FoldConcat(Push, tail, a, b[..k - |a|]);
        assert !EndsHeaders(TailAll(TailAll(tail, a), b[..k - |a|]), b[k - |a|]);
      }
    }
  }

  /** Bytes that are no line ends leave the scan in the middle of a line. */
  lemma {:induction false} TailInLine(tail: bytes, line: bytes)
    requires |tail| <= 3 && IsLine(line)
    ensures NoEnd(tail, line)
    ensures var t := TailAll(tail, line); 1 <= |t| <= 3 && t[|t| - 1] == line[|line| - 1]
  {
    var n := |line| - 1;
    var init, b := line[..n], line[n];
    assert line == init + [b];
    FoldSnoc(Push, tail, init, b);
    if n > 0 {
      assert IsLine(init);
      TailInLine(tail, init);
      NoEndSnoc(tail, init, b);
    } else {
      assert init == [];
    }
  }

  lemma TailSnoc(tail: bytes, input: bytes, b: byte)
    ensures TailAll(tail, input + [b]) == Push(TailAll(tail, input), b)
  {
    hide Push;
    FoldSnoc(Push, tail, input, b);
  }

  lemma TailConcat(tail: bytes, a: bytes, b: bytes)
    ensures TailAll(tail, a + b) == TailAll(TailAll(tail, a), b)
  {
    hide Push;
    FoldConcat(Push, tail, a, b);
  }

  ghost predicate EndsInCrlf(t: bytes) {
    2 <= |t| <= 3 && t[|t| - 2] == CR && t[|t| - 1] == LF
  }

  lemma LineEndTail(t: bytes)
    requires 1 <= |t| <= 3 && t[|t| - 1] != LF
    ensures !EndsHeaders(t, CR) && !EndsHeaders(Push(t, CR), LF)
    ensures EndsInCrlf(Push(Push(t, CR), LF))
  {
    var u := Push(t, CR);
    assert 2 <= |u| <= 3 && u[|u| - 2] == t[|t| - 1] && u[|u| - 1] == CR;
  }

  /** A whole line, its line end included, does not end the block. */
  lemma TailAfterLine(tail: bytes, line: bytes)
    requires |tail| <= 3 && IsLine(line)
    ensures NoEnd(tail, line + CRLF) && EndsInCrlf(TailAll(tail, line + CRLF))
  {
    hide TailAll, Push, EndsHeaders, NoEnd;
    TailInLine(tail, line);
    LineEndTail(TailAll(tail, line));
    TailSnoc(tail, line, CR);
    TailSnoc(tail, line + [CR], LF);
    assert line + [CR] + [LF] == line + CRLF;
    NoEndSnoc(tail, line, CR);
    NoEndSnoc(tail, line + [CR], LF);
  }

  lemma {:induction false} TailAfterLines(tail: bytes, lines: seq<bytes>)
    requires |tail| <= 3 && AreLines(lines)
    ensures NoEnd(tail, Lines(lines))
    ensures var t := TailAll(tail, Lines(lines)); if lines == [] then t == tail else EndsInCrlf(t)
  {
    if lines != [] {
      var n := |lines| - 1;
      var init, line := lines[..n], lines[n];
      assert Lines(lines) == Lines(init) + (line + CRLF);
      hide TailAll, NoEnd, Lines, EndsHeaders;
      TailAfterLines(tail, init);
      TailConcat(tail, Lines(init), line + CRLF);
      TailAfterLine(TailAll(tail, Lines(init)), line);
      NoEndConcat(tail, Lines(init), line + CRLF);
    }
  }

  // ---------------------------------------------------------------------------
  // The walk of a block
  // ---------------------------------------------------------------------------

  /** The walk over bytes that do not end the block. */
  lemma {:induction false} FeedUnended(cfg: Config, w: Walk, input: bytes)
    requires w.st.phase.Headers? || w.st.phase.ChunkTrailer?
    requires w.st.scan.captured == 0 && NoEnd(w.st.scan.tail, input)
    ensures Feed(cfg, w, input) == (w.(st := w.st.(scan := ScanAll(w.st.scan, input))), Hdrs(Take(input, CAPTURE_MAX)))
  {
    if input == [] {
      FeedEmpty(cfg, w);
      assert w.(st := w.st.(scan := w.st.scan)) == w && Hdrs(Take([], CAPTURE_MAX)) == [];
    } else {
      var n := |input| - 1;
      var init, b := input[..n], input[n];
      assert input == init + [b] && input[..n] == init;
      assert NoEnd(w.st.scan.tail, init) by {
        assert forall k :: 0 <= k < n ==> init[..k] == input[..k];
      }
      assert !EndsHeaders(TailAll(w.st.scan.tail, init), b);
      hide Feed, ScanByte, ScanAll, TailAll, NoEnd, EndsHeaders, Hdrs, Take;
      FeedUnended(cfg, w, init);
      FeedSnoc(cfg, w, init, b);
      ScanSnoc(w.st.scan, init, b);
      ScanAllParts(w.st.scan, init);
      HdrsTakeSnoc(init, b);
    }
  }

  lemma EmptyLineTail(t: bytes)
    requires EndsInCrlf(t)
    ensures !EndsHeaders(t, CR) && Push(t, CR) == [CR, LF, CR] && Push([CR, LF, CR], LF) == [LF, CR, LF]
  {
  }

  /** A block ends with its empty line and not before. `tail` stands for the end of the previous
      block: it is what makes an empty trailer section ("\r\n" alone) end at once. */
  lemma BlockEnds(tail: bytes, lines: seq<bytes>)
    requires |tail| <= 3 && AreLines(lines) && (lines == [] ==> tail == [LF, CR, LF])
    ensures NoEnd(tail, Lines(lines) + [CR]) && TailAll(tail, Lines(lines) + [CR]) == [CR, LF, CR]
    ensures TailAll(tail, Block(lines)) == [LF, CR, LF]
  {
    assert Block(lines) == Lines(lines) + [CR] + [LF];
    hide TailAll, Push, EndsHeaders, NoEnd, Lines, Block;
    TailAfterLines(tail, lines);
    EmptyLineTail(TailAll(tail, Lines(lines)));
    TailSnoc(tail, Lines(lines), CR);
    TailSnoc(tail, Lines(lines) + [CR], LF);
    NoEndSnoc(tail, Lines(lines), CR);
  }

  lemma HdrsTakeSnoc(input: bytes, b: byte)
    ensures Hdrs(Take(input + [b], CAPTURE_MAX)) ==
      Hdrs(Take(input, CAPTURE_MAX)) + (if |input| < CAPTURE_MAX then [Hdr(b)] else [])
  {
  }

  lemma ScanSnoc(sc: Scan, input: bytes, b: byte)
    ensures ScanAll(sc, input + [b]) == ScanByte(ScanAll(sc, input), b)
  {
    hide ScanByte;
    FoldSnoc(ScanByte, sc, input, b);
  }

  /** The walk of a header block or of a trailer section: captured up to the budget, and then what
      AfterHeaders makes of what was scanned. */
  lemma FeedBlock(cfg: Config, w: Walk, lines: seq<bytes>)
    requires w.st.phase.Headers? || w.st.phase.ChunkTrailer?
    requires w.st.scan.captured == 0 && |w.st.scan.tail| <= 3
    requires AreLines(lines) && (lines == [] ==> w.st.scan.tail == [LF, CR, LF])
    ensures Feed(cfg, w, Block(lines)) ==
      (AfterHeaders(cfg, w.st.(scan := ScanAll(w.st.scan, Block(lines))), w.head), Hdrs(Take(Block(lines), CAPTURE_MAX)) + [End])
    ensures ScanAll(w.st.scan, Block(lines)).tail == [LF, CR, LF]
  {
    var init := Lines(lines) + [CR];
    assert Block(lines) == init + [LF];
    hide Feed, ScanByte, ScanAll, AfterHeaders, TailAll, NoEnd, Lines, Block, Hdrs, Take;
    BlockEnds(w.st.scan.tail, lines);
    FeedUnended(cfg, w, init);
    FeedSnoc(cfg, w, init, LF);
    ScanSnoc(w.st.scan, init, LF);
    ScanAllParts(w.st.scan, init);
    ScanAllParts(w.st.scan, Block(lines));
    HdrsTakeSnoc(init, LF);
    var out := Hdrs(Take(init, CAPTURE_MAX));
    var more: seq<Out> := if |init| < CAPTURE_MAX then [Hdr(LF)] else [];
    assert out + (more + [End]) == (out + more) + [End];
  }
}
