/**
What the start line and the fields of a header block declare, and that the byte matchers of the
kernel side (http1_hdr_scan_cb) find exactly that.
*/
module Http1Fields {
  import opened Bytes
  import opened Transducer
  import opened Http1Kernel
  import opened Http1Message

  datatype Field = Field(name: bytes, value: bytes)

  predicate NoLineEnd(b: bytes) {
    forall i :: 0 <= i < |b| ==> b[i] != CR && b[i] != LF
  }

  predicate IsField(f: Field) {
    && f.name != [] && NoLineEnd(f.name) && NoLineEnd(f.value)
    && forall i :: 0 <= i < |f.name| ==> f.name[i] != COLON
  }

  function FieldLine(f: Field): bytes {
    f.name + [COLON] + f.value
  }

  /** Case-insensitive: `b` reads as the lower-case `name`. */
  predicate Reads(b: bytes, name: bytes) {
    |b| == |name| && forall i :: 0 <= i < |b| ==> Lower(b[i]) == name[i]
  }

  const LENGTH_FIELD := Ascii("content-length")
  const ENCODING_FIELD := Ascii("transfer-encoding")

  predicate IsOws(b: bytes) {
    forall i :: 0 <= i < |b| ==> b[i] == SP || b[i] == TAB
  }

  predicate IsDigits(b: bytes) {
    forall i :: 0 <= i < |b| ==> IsDigit(b[i])
  }

  function Decimal(b: bytes): nat
    requires IsDigits(b)
  {
    if b == [] then 0 else Decimal(b[..|b| - 1]) * 10 + (b[|b| - 1] - 48)
  }

  /** The kernel side drops digits that would take it past 64 bits. */
  const LENGTH_LIMIT: nat := (LEN_UNKNOWN - 9) / 10 * 10

  /** `value` is a number between optional white space, and the number is n. */
  ghost predicate IsNumber(value: bytes, n: nat) {
    n < LENGTH_LIMIT && exists pre: bytes, digits: bytes, post: bytes ::
      value == pre + digits + post && IsOws(pre) && IsOws(post) && digits != [] && IsDigits(digits) && Decimal(digits) == n
  }

  ghost predicate IsChunkedValue(value: bytes) {
    exists pre: bytes, word: bytes, post: bytes ::
      value == pre + word + post && IsOws(pre) && IsOws(post) && Reads(word, CHUNKED)
  }

  // ---------------------------------------------------------------------------
  // What any value says
  // ---------------------------------------------------------------------------

  /** A value without the white space in it. */
  function Squeezed(b: bytes): bytes {
    if b == [] then []
    else Squeezed(b[..|b| - 1]) + (if b[|b| - 1] == SP || b[|b| - 1] == TAB then [] else [b[|b| - 1]])
  }

  /** The value begins with the word "chunked", white space aside. */
  predicate SaysChunked(value: bytes) {
    |Squeezed(value)| >= 7 && Reads(Squeezed(value)[..7], Ascii("chunked"))
  }

  /** How many digits b begins with. */
  function Leading(b: bytes): (k: nat)
    ensures k <= |b| && IsDigits(b[..k]) && (k < |b| ==> !IsDigit(b[k]))
  {
    if b == [] then 0
    else
      var k := Leading(b[..|b| - 1]);
      if k == |b| - 1 && IsDigit(b[k]) then
        assert forall i :: 0 <= i < k ==> b[i] == b[..|b| - 1][..k][i];
        k + 1
      else
        assert b[..k] == b[..|b| - 1][..k];
        k
  }

  /** The digits that count: those up to where the next one could take the number past 64 bits. */
  function Counted(digits: bytes): (k: nat)
    requires IsDigits(digits)
    ensures k <= |digits| && (k < |digits| ==> Decimal(digits[..k]) >= 1_844_674_407_370_955_160)
    ensures forall j :: 0 <= j < k ==> Decimal(digits[..j]) < 1_844_674_407_370_955_160
  {
    if digits == [] then 0
    else
      var init := digits[..|digits| - 1];
      var k := Counted(init);
      assert forall j :: 0 <= j <= |init| ==> init[..j] == digits[..j];
      if k == |init| && Decimal(init) < 1_844_674_407_370_955_160 then
        assert init[..k] == init;
        k + 1
      else
        k
  }

  /** The length a Content-Length value gives: its first digits as far as they count, 0 without any. */
  function Declared(value: bytes): nat {
    var v := Squeezed(value);
    var digits := v[..Leading(v)];
    Decimal(digits[..Counted(digits)])
  }

  // ---------------------------------------------------------------------------
  // Names
  // ---------------------------------------------------------------------------

  /** How much of `name` the line reads as. */
  function Common(line: bytes, name: bytes): (m: nat)
    ensures m <= |line| && m <= |name|
    ensures forall i :: 0 <= i < m ==> Lower(line[i]) == name[i]
    ensures m < |line| && m < |name| ==> Lower(line[m]) != name[m]
  {
    if line == [] || name == [] || Lower(line[0]) != name[0] then 0
    else
      var m := Common(line[1..], name[1..]);
      assert forall i :: 1 <= i < m + 1 ==> Lower(line[i]) == name[i] by {
        assert forall i :: 1 <= i < m + 1 ==> line[i] == line[1..][i - 1] && name[i] == name[1..][i - 1];
      }
      m + 1
  }

  function LineStart(have: bool, value: nat): Length {
    Length(0, false, false, have, value)
  }

  lemma LengthSnoc(l: Length, input: bytes, b: byte)
    ensures LengthAll(l, input + [b]) == LengthByte(LengthAll(l, input), b)
  {
    hide LengthByte;
    FoldSnoc(LengthByte, l, input, b);
  }

  lemma LengthConcat(l: Length, a: bytes, b: bytes)
    ensures LengthAll(l, a + b) == LengthAll(LengthAll(l, a), b)
  {
    hide LengthByte;
    FoldConcat(LengthByte, l, a, b);
  }

  /** While the line reads as the name, line_pos counts. */
  lemma {:induction false} LengthName(line: bytes)
    requires |line| <= |LENGTH_NAME| && forall i :: 0 <= i < |line| ==> Lower(line[i]) == LENGTH_NAME[i] && line[i] != LF
    ensures LengthAll(LineStart(false, 0), line) == Length(|line|, false, |line| == |LENGTH_NAME|, false, 0)
  {
    if line != [] {
      var n := |line| - 1;
      assert line == line[..n] + [line[n]];
      LengthName(line[..n]);
      LengthSnoc(LineStart(false, 0), line[..n], line[n]);
    }
  }

  /** What is left of a line that does not matter. */
  lemma LengthIdle(l: Length, rest: bytes)
    requires NoLineEnd(rest) && !l.inValue && (l.mismatch || l.have)
    requires l.have ==> l.mismatch || l.pos <= |LENGTH_NAME|
    ensures LengthAll(l, rest) == l && LengthAll(l, rest + CRLF) == LineStart(l.have, l.value)
  {
    FoldStays(LengthByte, l, rest);
    LengthSnoc(l, rest, CR);
    LengthSnoc(l, rest + [CR], LF);
    assert rest + [CR] + [LF] == rest + CRLF;
  }

  lemma LengthLineEnd(l: Length)
    requires !l.inValue && !l.have && l.pos < |LENGTH_NAME|
    ensures LengthByte(LengthByte(l, CR), LF) == LineStart(false, l.value)
  {
  }

  lemma LengthMismatch(m: nat, b: byte)
    requires m < |LENGTH_NAME| && Lower(b) != LENGTH_NAME[m] && b != LF
    ensures LengthByte(Length(m, false, false, false, 0), b) == Length(m, true, false, false, 0)
  {
  }

  lemma LengthCrlf(l: Length, line: bytes, k: Length)
    requires LengthAll(l, line) == k
    ensures LengthAll(l, line + CRLF) == LengthByte(LengthByte(k, CR), LF)
  {
    hide LengthByte, LengthAll;
    LengthSnoc(l, line, CR);
    LengthSnoc(l, line + [CR], LF);
    assert line + [CR] + [LF] == line + CRLF;
  }

  /** A line that does not read "content-length:" changes nothing, nor does any line once a length is known. */
  lemma LengthOtherLine(have: bool, value: nat, line: bytes)
    requires NoLineEnd(line)
    requires have || (value == 0 && Common(line, LENGTH_NAME) < |LENGTH_NAME|)
    ensures LengthAll(LineStart(have, value), line + CRLF) == LineStart(have, value)
  {
    hide LengthByte, LengthAll, Lower, LENGTH_NAME;
    var m := Common(line, LENGTH_NAME);
    var start, read := LineStart(false, 0), Length(m, false, false, false, 0);
    if have {
      LengthIdle(LineStart(true, value), line);
    } else if m == |line| {
      assert line[..m] == line;
      LengthName(line);
      LengthCrlf(start, line, read);
      LengthLineEnd(read);
    } else {
      LengthName(line[..m]);
      LengthSnoc(start, line[..m], line[m]);
      LengthMismatch(m, line[m]);
      LengthIdle(Length(m, true, false, false, 0), line[m + 1..]);
      LengthConcat(start, line[..m] + [line[m]], line[m + 1..] + CRLF);
      assert line[..m] + [line[m]] + (line[m + 1..] + CRLF) == line + CRLF;
    }
  }

  // ---------------------------------------------------------------------------
  // The number
  // ---------------------------------------------------------------------------

  function Reading(n: nat): Length {
    Length(|LENGTH_NAME|, false, true, false, n)
  }

  /** The matcher after some of a value, of which `s` is left without the white space: it reads digits, or
      has found the number. */
  function NumberRead(s: bytes): Length {
    var digits := s[..Leading(s)];
    var n := Decimal(digits[..Counted(digits)]);
    if Leading(s) == |s| then Reading(n) else Length(|LENGTH_NAME|, false, false, true, n)
  }

  lemma LeadingSnoc(s: bytes, b: byte)
    ensures var k := Leading(s);
      if k == |s| && IsDigit(b) then Leading(s + [b]) == k + 1 && (s + [b])[..k + 1] == s[..k] + [b]
      else Leading(s + [b]) == k && (s + [b])[..k] == s[..k]
  {
    hide IsDigits, IsDigit;
    assert (s + [b])[..|s|] == s;
  }

  lemma CountedSnoc(digits: bytes, b: byte)
    requires IsDigits(digits) && IsDigit(b)
    ensures IsDigits(digits + [b])
    ensures var n := Decimal(digits[..Counted(digits)]);
      Decimal((digits + [b])[..Counted(digits + [b])]) ==
        if n < 1_844_674_407_370_955_160 then n * 10 + (b - 48) else n
  {
    var more := digits + [b];
    assert more[..|digits|] == digits && IsDigits(more);
    var k := Counted(digits);
    if k == |digits| && Decimal(digits) < 1_844_674_407_370_955_160 {
      assert more[..|more|] == more && digits[..k] == digits;
    } else {
      assert more[..k] == digits[..k];
    }
  }

  lemma NumberStep(s: bytes, b: byte)
    requires b != SP && b != TAB && b != LF
    ensures LengthByte(NumberRead(s), b) == NumberRead(s + [b])
  {
    LeadingSnoc(s, b);
    var digits := s[..Leading(s)];
    if Leading(s) == |s| && IsDigit(b) {
      CountedSnoc(digits, b);
    }
  }

  lemma SqueezedSnoc(b: bytes, c: byte)
    ensures Squeezed(b + [c]) == Squeezed(b) + if c == SP || c == TAB then [] else [c]
  {
    assert (b + [c])[..|b|] == b;
  }

  lemma NumberStays(s: bytes, b: byte)
    requires b == SP || b == TAB
    ensures LengthByte(NumberRead(s), b) == NumberRead(s)
  {
    hide Leading, Counted, Decimal;
  }

  lemma {:induction false} LengthReads(value: bytes)
    requires NoLineEnd(value)
    ensures LengthAll(Reading(0), value) == NumberRead(Squeezed(value))
  {
    if value == [] {
      assert NumberRead([]) == Reading(0);
    } else {
      var n := |value| - 1;
      var init, b := value[..n], value[n];
      assert value == init + [b] && b != LF;
      hide LengthByte, NumberRead, Squeezed;
      LengthReads(init);
      LengthSnoc(Reading(0), init, b);
      SqueezedSnoc(init, b);
      if b == SP || b == TAB { NumberStays(Squeezed(init), b); } else { NumberStep(Squeezed(init), b); }
      assert Squeezed(init) + [] == Squeezed(init);
    }
  }

  /** A Content-Length field is found and read, whatever its value. */
  lemma LengthField(f: Field)
    requires IsField(f) && Reads(f.name, LENGTH_FIELD)
    ensures LengthAll(LineStart(false, 0), FieldLine(f) + CRLF) == LineStart(true, Declared(f.value))
  {
    var head := f.name + [COLON];
    assert LENGTH_NAME == LENGTH_FIELD + [COLON];
    LengthName(head);
    hide LengthAll, Squeezed, Leading, Counted, Decimal;
    LengthReads(f.value);
    LengthConcat(LineStart(false, 0), head, f.value);
    assert FieldLine(f) == head + f.value;
    LengthCrlf(LineStart(false, 0), FieldLine(f), NumberRead(Squeezed(f.value)));
  }

  lemma {:induction false} SqueezedOws(ows: bytes)
    requires IsOws(ows)
    ensures Squeezed(ows) == []
  {
    if ows != [] { SqueezedOws(ows[..|ows| - 1]); }
  }

  lemma {:induction false} SqueezedConcat(a: bytes, b: bytes)
    ensures Squeezed(a + b) == Squeezed(a) + Squeezed(b)
  {
    if b == [] {
      assert a + b == a;
    } else {
      var n := |b| - 1;
      SqueezedConcat(a, b[..n]);
      assert (a + b)[..|a + b| - 1] == a + b[..n];
    }
  }

  lemma {:induction false} SqueezedStays(b: bytes)
    requires forall i :: 0 <= i < |b| ==> b[i] != SP && b[i] != TAB
    ensures Squeezed(b) == b
  {
    if b != [] {
      SqueezedStays(b[..|b| - 1]);
    }
  }

  lemma SqueezedBetween(pre: bytes, word: bytes, post: bytes)
    requires IsOws(pre) && IsOws(post) && forall i :: 0 <= i < |word| ==> word[i] != SP && word[i] != TAB
    ensures Squeezed(pre + word + post) == word
  {
    SqueezedConcat(pre + word, post);
    SqueezedConcat(pre, word);
    SqueezedOws(pre);
    SqueezedOws(post);
    SqueezedStays(word);
  }

  /** A number below the limit is declared as it is written. */
  lemma NumberIsDeclared(value: bytes, n: nat)
    requires IsNumber(value, n)
    ensures Declared(value) == n
  {
    var pre: bytes, digits: bytes, post: bytes :| value == pre + digits + post && IsOws(pre) && IsOws(post) &&
      digits != [] && IsDigits(digits) && Decimal(digits) == n;
    assert forall i :: 0 <= i < |digits| ==> IsDigit(digits[i]);
    hide Decimal, Squeezed, Leading, Counted;
    SqueezedBetween(pre, digits, post);
    assert digits[..|digits|] == digits;
    CountsAll(digits);
  }

  lemma {:induction false} CountsAll(digits: bytes)
    requires IsDigits(digits) && Decimal(digits) < LENGTH_LIMIT
    ensures Counted(digits) == |digits|
  {
    if digits != [] { CountsAll(digits[..|digits| - 1]); }
  }

  /** A field with another name does not read as the name. */
  lemma OtherName(f: Field, field: bytes, name: bytes)
    requires IsField(f) && !Reads(f.name, field) && name == field + [COLON]
    requires forall i :: 0 <= i < |field| ==> field[i] != COLON
    ensures Common(FieldLine(f), name) < |name|
  {
    var line := FieldLine(f);
    var k :=
      if |f.name| < |field| then |f.name|
      else if |f.name| > |field| then |field|
      else var i :| 0 <= i < |field| && Lower(f.name[i]) != field[i]; i;
    assert line[k] == if k < |f.name| then f.name[k] else COLON;
    assert Lower(line[k]) != name[k];
  }

  // ---------------------------------------------------------------------------
  // Transfer-Encoding
  // ---------------------------------------------------------------------------

  function EncodingStart(chunked: bool): Encoding {
    Encoding(0, false, false, 0, chunked)
  }

  lemma EncodingSnoc(e: Encoding, input: bytes, b: byte)
    ensures EncodingAll(e, input + [b]) == EncodingByte(EncodingAll(e, input), b)
  {
    hide EncodingByte;
    FoldSnoc(EncodingByte, e, input, b);
  }

  lemma EncodingConcat(e: Encoding, a: bytes, b: bytes)
    ensures EncodingAll(e, a + b) == EncodingAll(EncodingAll(e, a), b)
  {
    hide EncodingByte;
    FoldConcat(EncodingByte, e, a, b);
  }

  lemma {:induction false} EncodingName(line: bytes)
    requires |line| <= |ENCODING_NAME| && forall i :: 0 <= i < |line| ==> Lower(line[i]) == ENCODING_NAME[i] && line[i] != LF
    ensures EncodingAll(EncodingStart(false), line) == Encoding(|line|, false, |line| == |ENCODING_NAME|, 0, false)
  {
    if line != [] {
      var n := |line| - 1;
      assert line == line[..n] + [line[n]];
      EncodingName(line[..n]);
      EncodingSnoc(EncodingStart(false), line[..n], line[n]);
    }
  }

  lemma EncodingCrlf(e: Encoding, line: bytes, k: Encoding)
    requires EncodingAll(e, line) == k
    ensures EncodingAll(e, line + CRLF) == EncodingByte(EncodingByte(k, CR), LF)
  {
    hide EncodingByte, EncodingAll;
    EncodingSnoc(e, line, CR);
    EncodingSnoc(e, line + [CR], LF);
    assert line + [CR] + [LF] == line + CRLF;
  }

  lemma EncodingIdle(e: Encoding, rest: bytes)
    requires NoLineEnd(rest) && !e.inValue && (e.mismatch || e.chunked)
    ensures EncodingAll(e, rest + CRLF) == EncodingStart(e.chunked)
  {
    FoldStays(EncodingByte, e, rest);
    EncodingCrlf(e, rest, e);
  }

  lemma EncodingMismatch(m: nat, b: byte)
    requires m < |ENCODING_NAME| && Lower(b) != ENCODING_NAME[m] && b != LF
    ensures EncodingByte(Encoding(m, false, false, 0, false), b) == Encoding(m, true, false, 0, false)
  {
  }

  lemma EncodingLineEnd(e: Encoding)
    requires !e.inValue && !e.chunked && e.pos < |ENCODING_NAME|
    ensures EncodingByte(EncodingByte(e, CR), LF) == EncodingStart(false)
  {
  }

  /** A line that does not read "transfer-encoding:" changes nothing, nor does any line once chunked. */
  lemma EncodingOtherLine(chunked: bool, line: bytes)
    requires NoLineEnd(line)
    requires chunked || Common(line, ENCODING_NAME) < |ENCODING_NAME|
    ensures EncodingAll(EncodingStart(chunked), line + CRLF) == EncodingStart(chunked)
  {
    hide EncodingByte, EncodingAll, Lower, ENCODING_NAME;
    var m := Common(line, ENCODING_NAME);
    var start, read := EncodingStart(false), Encoding(m, false, false, 0, false);
    if chunked {
      EncodingIdle(EncodingStart(true), line);
    } else if m == |line| {
      assert line[..m] == line;
      EncodingName(line);
      EncodingCrlf(start, line, read);
      EncodingLineEnd(read);
    } else {
      EncodingName(line[..m]);
      EncodingSnoc(start, line[..m], line[m]);
      EncodingMismatch(m, line[m]);
      EncodingIdle(Encoding(m, true, false, 0, false), line[m + 1..]);
      EncodingConcat(start, line[..m] + [line[m]], line[m + 1..] + CRLF);
      assert line[..m] + [line[m]] + (line[m + 1..] + CRLF) == line + CRLF;
    }
  }

  /** The word as far as it was read: te_value_pos counts, and the last letter makes it chunked. */
  function InWord(k: nat): Encoding {
    Encoding(|ENCODING_NAME|, false, k < |CHUNKED|, k, k == |CHUNKED|)
  }

  /** The matcher after some of a value, of which `s` is left without the white space. */
  function WordRead(s: bytes): Encoding {
    var m := Common(s, CHUNKED);
    if m == |s| || m == |CHUNKED| then InWord(m) else Encoding(|ENCODING_NAME|, false, false, m, false)
  }

  lemma {:induction false} CommonSnoc(s: bytes, b: byte, name: bytes)
    ensures var m := Common(s, name);
      Common(s + [b], name) == if m == |s| && m < |name| && Lower(b) == name[m] then m + 1 else m
    decreases |s|
  {
    if s != [] && name != [] && Lower(s[0]) == name[0] {
      CommonSnoc(s[1..], b, name[1..]);
      assert (s + [b])[1..] == s[1..] + [b];
    } else if s == [] {
      assert s + [b] == [b] && [b][1..] == [];
    }
  }

  lemma WordStep(s: bytes, b: byte)
    requires b != SP && b != TAB && b != LF
    ensures EncodingByte(WordRead(s), b) == WordRead(s + [b])
  {
    CommonSnoc(s, b, CHUNKED);
    hide Common;
  }

  lemma WordStays(s: bytes, b: byte)
    requires b == SP || b == TAB
    ensures EncodingByte(WordRead(s), b) == WordRead(s)
  {
    hide Common;
  }

  lemma {:induction false} EncodingReads(value: bytes)
    requires NoLineEnd(value)
    ensures EncodingAll(InWord(0), value) == WordRead(Squeezed(value))
  {
    if value == [] {
      assert WordRead([]) == InWord(0);
    } else {
      var n := |value| - 1;
      var init, b := value[..n], value[n];
      assert value == init + [b] && b != LF;
      hide EncodingByte, WordRead, Squeezed;
      EncodingReads(init);
      EncodingSnoc(InWord(0), init, b);
      SqueezedSnoc(init, b);
      if b == SP || b == TAB { WordStays(Squeezed(init), b); } else { WordStep(Squeezed(init), b); }
      assert Squeezed(init) + [] == Squeezed(init);
    }
  }

  lemma WordEnds(s: bytes)
    ensures EncodingByte(EncodingByte(WordRead(s), CR), LF) == EncodingStart(Common(s, CHUNKED) == |CHUNKED|)
  {
    hide Common;
  }

  lemma CommonIsAll(s: bytes, name: bytes)
    ensures Common(s, name) == |name| <==> |s| >= |name| && Reads(s[..|name|], name)
  {
  }

  /** A Transfer-Encoding field makes the body chunked if and only if its value says so. */
  lemma EncodingField(f: Field)
    requires IsField(f) && Reads(f.name, ENCODING_FIELD)
    ensures EncodingAll(EncodingStart(false), FieldLine(f) + CRLF) == EncodingStart(SaysChunked(f.value))
  {
    var head := f.name + [COLON];
    assert ENCODING_NAME == ENCODING_FIELD + [COLON];
    EncodingName(head);
    hide EncodingByte, EncodingAll, Squeezed, Common, WordRead;
    EncodingReads(f.value);
    EncodingConcat(EncodingStart(false), head, f.value);
    assert head + f.value == FieldLine(f);
    EncodingCrlf(EncodingStart(false), FieldLine(f), WordRead(Squeezed(f.value)));
    WordEnds(Squeezed(f.value));
    CommonIsAll(Squeezed(f.value), CHUNKED);
  }

  lemma ChunkedValueSays(value: bytes)
    requires IsChunkedValue(value)
    ensures SaysChunked(value)
  {
    var pre: bytes, word: bytes, post: bytes :| value == pre + word + post && IsOws(pre) && IsOws(post) && Reads(word, CHUNKED);
    forall i | 0 <= i < |word|
      ensures word[i] != SP && word[i] != TAB
    {
      assert Lower(word[i]) == CHUNKED[i];
    }
    SqueezedBetween(pre, word, post);
    assert word[..7] == word;
  }

  // ---------------------------------------------------------------------------
  // The first line
  // ---------------------------------------------------------------------------

  predicate NoSpace(b: bytes) {
    forall i :: 0 <= i < |b| ==> b[i] != SP
  }

  lemma FirstSnoc(f: FirstLine, input: bytes, b: byte)
    ensures FirstAll(f, input + [b]) == FirstLineByte(FirstAll(f, input), b)
  {
    hide FirstLineByte;
    FoldSnoc(FirstLineByte, f, input, b);
  }

  lemma FirstConcat(f: FirstLine, a: bytes, b: bytes)
    ensures FirstAll(f, a + b) == FirstAll(FirstAll(f, a), b)
  {
    hide FirstLineByte;
    FoldConcat(FirstLineByte, f, a, b);
  }

  /** The first word is compared with "HEAD" letter by letter. */
  lemma {:induction false} FirstWord(word: bytes)
    requires NoSpace(word) && NoLineEnd(word) && |word| < 255
    ensures FirstAll(FIRST0, word) == FirstLine(false, false, 0, 0, |word|, !(word <= HEAD))
  {
    if word != [] {
      var n := |word| - 1;
      assert word == word[..n] + [word[n]];
      FirstWord(word[..n]);
      FirstSnoc(FIRST0, word[..n], word[n]);
      assert word <= HEAD <==> word[..n] <= HEAD && n < 4 && word[n] == HEAD[n];
    }
  }

  lemma {:induction false} FirstRest(f: FirstLine, rest: bytes)
    requires !f.done && f.space && NoLineEnd(rest)
    ensures var g := FirstAll(f, rest); !g.done && g.space && g.wordLen == f.wordLen && g.notHead == f.notHead
    ensures f.digits == 3 ==> FirstAll(f, rest) == f
  {
    if rest != [] {
      var n := |rest| - 1;
      assert rest == rest[..n] + [rest[n]];
      FirstRest(f, rest[..n]);
      FirstSnoc(f, rest[..n], rest[n]);
    }
  }

  /** What the first line, and whatever follows it, leaves in the matcher. */
  lemma FirstIsDone(f: FirstLine, line: bytes, more: bytes)
    requires NoLineEnd(line) && var g := FirstAll(f, line); !g.done && g.space
    ensures FirstAll(f, line + CRLF + more) == FirstAll(f, line).(done := true)
  {
    var g := FirstAll(f, line);
    FirstSnoc(f, line, CR);
    FirstSnoc(f, line + [CR], LF);
    assert line + [CR] + [LF] == line + CRLF;
    FirstConcat(f, line + CRLF, more);
    FoldStays(FirstLineByte, g.(done := true), more);
  }

  /** A request line is that of a HEAD exactly when its first word is "HEAD". */
  lemma RequestLineIsHead(word: bytes, rest: bytes, more: bytes)
    requires NoSpace(word) && NoLineEnd(word) && |word| < 255 && NoLineEnd(rest)
    ensures var f := FirstAll(FIRST0, word + [SP] + rest + CRLF + more);
      (f.wordLen == 4 && !f.notHead) <==> word == HEAD
  {
    var line := word + [SP] + rest;
    FirstWord(word);
    FirstSnoc(FIRST0, word, SP);
    var f := FirstAll(FIRST0, word + [SP]);
    FirstRest(f, rest);
    FirstConcat(FIRST0, word + [SP], rest);
    FirstIsDone(FIRST0, line, more);
    assert word <= HEAD && |word| == 4 <==> word == HEAD;
  }

  lemma DecimalOfThree(d: bytes)
    requires |d| == 3 && IsDigits(d)
    ensures Decimal(d) == (d[0] as int - 48) * 100 + (d[1] as int - 48) * 10 + (d[2] as int - 48)
  {
    assert d[..2][..1] == [d[0]] && [d[0]][..0] == [];
    assert Decimal([d[0]]) == d[0] - 48;
    assert Decimal(d[..2]) == Decimal(d[..2][..1]) * 10 + (d[1] - 48);
  }

  /** The digits of a status, after the space. */
  lemma StatusDigits(f: FirstLine, d: bytes)
    requires |d| == 3 && IsDigits(d) && !f.done && f.space && f.digits == 0 && f.code == 0
    ensures FirstAll(f, d) == f.(digits := 3, code := Decimal(d))
  {
    hide FirstAll, FirstLineByte, Decimal;
    FirstEmpty(f);
    FirstSnoc(f, [], d[0]);
    FirstSnoc(f, [d[0]], d[1]);
    FirstSnoc(f, [d[0], d[1]], d[2]);
    assert [] + [d[0]] == [d[0]] && [d[0]] + [d[1]] == [d[0], d[1]] && [d[0], d[1]] + [d[2]] == d;
    DecimalOfThree(d);
    DigitByte(f, d[0]);
    DigitByte(f.(code := d[0] - 48, digits := 1), d[1]);
    DigitByte(f.(code := (d[0] - 48) * 10 + (d[1] - 48), digits := 2), d[2]);
  }

  lemma FirstEmpty(f: FirstLine)
    ensures FirstAll(f, []) == f
  {
  }

  lemma DigitByte(f: FirstLine, b: byte)
    requires !f.done && f.space && f.digits < 3 && IsDigit(b)
    ensures FirstLineByte(f, b) == f.(code := f.code * 10 + (b - 48), digits := f.digits + 1)
  {
  }

  /** The status code of a status line is the three digits after its first space. */
  lemma StatusLineCode(version: bytes, d: bytes, rest: bytes, more: bytes)
    requires NoSpace(version) && NoLineEnd(version) && |version| < 255
    requires |d| == 3 && IsDigits(d) && NoLineEnd(rest)
    ensures FirstAll(FIRST0, version + [SP] + d + rest + CRLF + more).code == Decimal(d)
  {
    var start := version + [SP];
    FirstWord(version);
    assert NoLineEnd(d) by { assert forall i :: 0 <= i < 3 ==> IsDigit(d[i]); }
    hide FirstAll, Decimal, IsDigits;
    FirstSnoc(FIRST0, version, SP);
    var f := FirstAll(FIRST0, start);
    StatusDigits(f, d);
    FirstConcat(FIRST0, start, d);
    FirstRest(FirstAll(FIRST0, start + d), rest);
    FirstConcat(FIRST0, start + d, rest);
    FirstIsDone(FIRST0, start + d + rest, more);
  }

  // ---------------------------------------------------------------------------
  // Header blocks
  // ---------------------------------------------------------------------------

  ghost predicate AreFields(fields: seq<Field>) {
    forall i :: 0 <= i < |fields| ==> IsField(fields[i])
  }

  function FieldLines(fields: seq<Field>): (r: seq<bytes>)
    ensures |r| == |fields| && forall i :: 0 <= i < |r| ==> r[i] == FieldLine(fields[i])
  {
    seq(|fields|, i requires 0 <= i < |fields| => FieldLine(fields[i]))
  }

  ghost predicate HasField(fields: seq<Field>, name: bytes) {
    exists i :: 0 <= i < |fields| && Reads(fields[i].name, name)
  }

  /** How the fields frame the body (section 6.3 of RFC 9112). */
  datatype Framing = Unframed | Sized(n: nat) | Chunked

  /** Every Transfer-Encoding is "chunked", and without one every Content-Length says the same number. */
  ghost predicate Declares(fields: seq<Field>, framing: Framing) {
    && AreFields(fields)
    && (forall i :: 0 <= i < |fields| && Reads(fields[i].name, ENCODING_FIELD) ==> IsChunkedValue(fields[i].value))
    && (framing.Chunked? <==> HasField(fields, ENCODING_FIELD))
    && (framing.Sized? ==> HasField(fields, LENGTH_FIELD) && SameLength(fields, framing.n))
    && (framing.Unframed? ==> !HasField(fields, LENGTH_FIELD))
  }

  ghost predicate SameLength(fields: seq<Field>, n: nat) {
    forall i :: 0 <= i < |fields| && Reads(fields[i].name, LENGTH_FIELD) ==> IsNumber(fields[i].value, n)
  }

  lemma FieldLinesSnoc(fields: seq<Field>)
    requires fields != []
    ensures var n := |fields| - 1;
      Lines(FieldLines(fields)) == Lines(FieldLines(fields[..n])) + (FieldLine(fields[n]) + CRLF)
  {
    var n := |fields| - 1;
    assert FieldLines(fields)[..n] == FieldLines(fields[..n]);
  }

  /** The first field of that name, |fields| when there is none. */
  function FirstField(fields: seq<Field>, name: bytes): (i: nat)
    ensures i <= |fields| && (i < |fields| ==> Reads(fields[i].name, name))
    ensures forall j :: 0 <= j < i ==> !Reads(fields[j].name, name)
  {
    if fields == [] then 0
    else
      var n := |fields| - 1;
      var i := FirstField(fields[..n], name);
      if i < n || Reads(fields[n].name, name) then i else n + 1
  }

  /** What the fields say of the length. */
  function LengthSaid(fields: seq<Field>): Length {
    var i := FirstField(fields, LENGTH_FIELD);
    if i < |fields| then LineStart(true, Declared(fields[i].value)) else LineStart(false, 0)
  }

  lemma {:induction false} LengthFields(fields: seq<Field>)
    requires AreFields(fields)
    ensures LengthAll(LineStart(false, 0), Lines(FieldLines(fields))) == LengthSaid(fields)
  {
    if fields != [] {
      LengthFields(fields[..|fields| - 1]);
      LengthOneMore(fields);
    }
  }

  lemma LengthOneMore(fields: seq<Field>)
    requires fields != [] && AreFields(fields)
    requires LengthAll(LineStart(false, 0), Lines(FieldLines(fields[..|fields| - 1]))) == LengthSaid(fields[..|fields| - 1])
    ensures LengthAll(LineStart(false, 0), Lines(FieldLines(fields))) == LengthSaid(fields)
  {
    hide Reads, LengthAll, LengthByte, Lines, FieldLines, Declared;
    var k := |fields| - 1;
    var init, f := fields[..k], fields[k];
    assert IsField(f);
    FieldLinesSnoc(fields);
    var have, n := LengthSaid(init).have, LengthSaid(init).value;
    LengthConcat(LineStart(false, 0), Lines(FieldLines(init)), FieldLine(f) + CRLF);
    if have || !Reads(f.name, LENGTH_FIELD) {
      if !have { LengthNameIs(); OtherName(f, LENGTH_FIELD, LENGTH_NAME); }
      LengthOtherLine(have, n, FieldLine(f));
    } else {
      LengthField(f);
    }
  }

  lemma LengthNameIs()
    ensures LENGTH_NAME == LENGTH_FIELD + [COLON] && forall i :: 0 <= i < |LENGTH_FIELD| ==> LENGTH_FIELD[i] != COLON
  {
  }

  lemma EncodingNameIs()
    ensures ENCODING_NAME == ENCODING_FIELD + [COLON] && forall i :: 0 <= i < |ENCODING_FIELD| ==> ENCODING_FIELD[i] != COLON
  {
  }

  /** Some Transfer-Encoding field says "chunked". */
  ghost predicate ChunkedSaid(fields: seq<Field>) {
    exists i :: 0 <= i < |fields| && Chunks(fields[i])
  }

  predicate Chunks(f: Field) {
    Reads(f.name, ENCODING_FIELD) && SaysChunked(f.value)
  }

  lemma ChunkedSaidSnoc(fields: seq<Field>)
    requires fields != []
    ensures var n := |fields| - 1; ChunkedSaid(fields) <==> ChunkedSaid(fields[..n]) || Chunks(fields[n])
  {
    hide Chunks;
    var n := |fields| - 1;
    if ChunkedSaid(fields[..n]) {
      var i :| 0 <= i < n && Chunks(fields[..n][i]);
      assert Chunks(fields[i]);
    }
    if ChunkedSaid(fields) && !Chunks(fields[n]) {
      var i :| 0 <= i < |fields| && Chunks(fields[i]);
      assert fields[..n][i] == fields[i];
    }
  }

  lemma EncodingFieldsSnoc(fields: seq<Field>, init: seq<Field>, f: Field)
    requires fields != [] && init == fields[..|fields| - 1] && f == fields[|fields| - 1] && IsField(f)
    requires EncodingAll(EncodingStart(false), Lines(FieldLines(init))) == EncodingStart(ChunkedSaid(init))
    ensures EncodingAll(EncodingStart(false), Lines(FieldLines(fields))) == EncodingStart(ChunkedSaid(fields))
  {
    hide Reads, EncodingAll, EncodingByte, Lines, FieldLines, ChunkedSaid, SaysChunked, IsField;
    ChunkedSaidSnoc(fields);
    FieldLinesSnoc(fields);
    var have := ChunkedSaid(init);
    EncodingConcat(EncodingStart(false), Lines(FieldLines(init)), FieldLine(f) + CRLF);
    if have || !Reads(f.name, ENCODING_FIELD) {
      if !have { EncodingNameIs(); OtherName(f, ENCODING_FIELD, ENCODING_NAME); }
      assert IsLine(FieldLine(f)) by { FieldIsLine(f); }
      EncodingOtherLine(have, FieldLine(f));
    } else {
      EncodingField(f);
    }
  }

  lemma FieldIsLine(f: Field)
    requires IsField(f)
    ensures IsLine(FieldLine(f)) && NoLineEnd(FieldLine(f))
  {
  }

  lemma {:induction false} EncodingFields(fields: seq<Field>)
    requires AreFields(fields)
    ensures EncodingAll(EncodingStart(false), Lines(FieldLines(fields))) == EncodingStart(ChunkedSaid(fields))
  {
    if fields != [] {
      hide Reads, EncodingAll, Lines, FieldLines, ChunkedSaid, IsField;
      var k := |fields| - 1;
      EncodingFields(fields[..k]);
      EncodingFieldsSnoc(fields, fields[..k], fields[k]);
    }
  }

  /** The header block of a message. */
  function HeaderBlock(start: bytes, fields: seq<Field>): bytes {
    Block([start] + FieldLines(fields))
  }

  lemma {:induction false} LinesConcat(a: seq<bytes>, b: seq<bytes>)
    ensures Lines(a + b) == Lines(a) + Lines(b)
  {
    if b == [] {
      assert a + b == a;
    } else {
      var n := |b| - 1;
      LinesConcat(a, b[..n]);
      assert (a + b)[..|a + b| - 1] == a + b[..n] && (a + b)[|a + b| - 1] == b[n];
      assert (Lines(a) + Lines(b[..n])) + b[n] + CRLF == Lines(a) + (Lines(b[..n]) + b[n] + CRLF);
    }
  }

  lemma LinesOne(line: bytes)
    ensures Lines([line]) == line + CRLF
  {
    var none: seq<bytes> := [];
    assert [line][..0] == none && Lines(none) == [];
  }

  lemma HeaderBlockIs(start: bytes, fields: seq<Field>)
    ensures HeaderBlock(start, fields) == (start + CRLF) + Lines(FieldLines(fields)) + CRLF
    ensures HeaderBlock(start, fields) == start + CRLF + (Lines(FieldLines(fields)) + CRLF)
  {
    LinesConcat([start], FieldLines(fields));
    LinesOne(start);
  }

  /** A start line: its first word is short and followed by a space. */
  ghost predicate StartsWith(start: bytes, word: bytes) {
    NoLineEnd(start) && NoSpace(word) && 0 < |word| < |LENGTH_FIELD| && |word| < |start| && start[..|word|] == word && start[|word|] == SP
  }

  lemma StartLineIsNoField(start: bytes, word: bytes)
    requires StartsWith(start, word)
    ensures Common(start, LENGTH_NAME) < |LENGTH_NAME| && Common(start, ENCODING_NAME) < |ENCODING_NAME|
  {
    var k := |word|;
    assert Lower(start[k]) != LENGTH_NAME[k] && Lower(start[k]) != ENCODING_NAME[k];
  }

  lemma BlockLength(start: bytes, word: bytes, fields: seq<Field>)
    requires StartsWith(start, word) && AreFields(fields)
    ensures LengthAll(LENGTH0, HeaderBlock(start, fields)) == LengthSaid(fields)
  {
    hide LengthAll, Lines, FieldLines, HeaderBlock, Common, FirstField, Declared;
    HeaderBlockIs(start, fields);
    StartLineIsNoField(start, word);
    LengthOtherLine(false, 0, start);
    LengthFields(fields);
    CommonOfNothing(LENGTH_NAME);
    LengthOtherLine(LengthSaid(fields).have, LengthSaid(fields).value, []);
    assert [] + CRLF == CRLF;
    LengthConcat(LENGTH0, start + CRLF, Lines(FieldLines(fields)));
    LengthConcat(LENGTH0, (start + CRLF) + Lines(FieldLines(fields)), CRLF);
  }

  lemma CommonOfNothing(name: bytes)
    ensures Common([], name) == 0
  {
  }

  lemma BlockEncoding(start: bytes, word: bytes, fields: seq<Field>)
    requires StartsWith(start, word) && AreFields(fields)
    ensures EncodingAll(ENCODING0, HeaderBlock(start, fields)) == EncodingStart(ChunkedSaid(fields))
  {
    hide EncodingAll, Lines, FieldLines, HeaderBlock, Common, ChunkedSaid, Reads;
    HeaderBlockIs(start, fields);
    StartLineIsNoField(start, word);
    EncodingOtherLine(false, start);
    EncodingFields(fields);
    CommonOfNothing(ENCODING_NAME);
    EncodingOtherLine(ChunkedSaid(fields), []);
    assert [] + CRLF == CRLF;
    EncodingConcat(ENCODING0, start + CRLF, Lines(FieldLines(fields)));
    EncodingConcat(ENCODING0, (start + CRLF) + Lines(FieldLines(fields)), CRLF);
  }

  /** What the kernel side reads off any header block, however its fields are written: chunked if and only
      if some Transfer-Encoding says so, and the length that the first Content-Length gives. */
  lemma ScanReadsFields(start: bytes, word: bytes, fields: seq<Field>, tail: bytes)
    requires StartsWith(start, word) && AreFields(fields)
    ensures var sc := ScanAll(Fresh(tail), HeaderBlock(start, fields));
      var i := FirstField(fields, LENGTH_FIELD);
      && (sc.encoding.chunked <==> ChunkedSaid(fields))
      && (sc.length.have <==> i < |fields|) && (i < |fields| ==> sc.length.value == Declared(fields[i].value))
      && sc.first == FirstAll(FIRST0, HeaderBlock(start, fields))
  {
    hide LengthAll, EncodingAll, FirstAll, HeaderBlock, FirstField, Declared, ChunkedSaid;
    ScanAllParts(Fresh(tail), HeaderBlock(start, fields));
    BlockEncoding(start, word, fields);
    BlockLength(start, word, fields);
  }

  /** Fields that declare a framing say it. */
  lemma DeclaredIsSaid(fields: seq<Field>, framing: Framing)
    requires Declares(fields, framing)
    ensures var i := FirstField(fields, LENGTH_FIELD);
      && (ChunkedSaid(fields) <==> framing.Chunked?)
      && (framing.Sized? ==> i < |fields| && Declared(fields[i].value) == framing.n)
      && (framing.Unframed? ==> i == |fields|)
  {
    hide Reads, Declared, SaysChunked, FirstField, IsNumber, IsChunkedValue;
    if framing.Chunked? {
      var i :| 0 <= i < |fields| && Reads(fields[i].name, ENCODING_FIELD);
      ChunkedValueSays(fields[i].value);
      assert Chunks(fields[i]);
    } else {
      assert forall i :: 0 <= i < |fields| ==> !Chunks(fields[i]);
      var i := FirstField(fields, LENGTH_FIELD);
      if framing.Sized? { NumberIsDeclared(fields[i].value, framing.n); }
    }
  }

  /** The kernel side reads off a header block exactly how its fields frame the body. */
  lemma ScanFindsFraming(start: bytes, word: bytes, fields: seq<Field>, framing: Framing, tail: bytes)
    requires StartsWith(start, word) && Declares(fields, framing)
    ensures var sc := ScanAll(Fresh(tail), HeaderBlock(start, fields));
      && (sc.encoding.chunked <==> framing.Chunked?)
      && (framing.Sized? ==> sc.length.have && sc.length.value == framing.n)
      && (framing.Unframed? ==> !sc.length.have)
      && sc.first == FirstAll(FIRST0, HeaderBlock(start, fields))
  {
    hide FirstAll, ScanAll, HeaderBlock, FirstField, Declared, ChunkedSaid;
    ScanReadsFields(start, word, fields, tail);
    DeclaredIsSaid(fields, framing);
  }
}
