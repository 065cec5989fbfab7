/**
How the user side reads the start line of any header block (ebpftracer/l7/http1_parser.go): what it takes
for a request, what for a response, and which bytes before a block it drops.
*/
module Http1Lines {
  import opened Bytes
  import opened Http1Fields
  import opened Http1Parser
  import opened Wrappers

  // ---------------------------------------------------------------------------
  // Empty lines before a block
  // ---------------------------------------------------------------------------

  function EmptyLines(k: nat): bytes {
    if k == 0 then [] else CRLF + EmptyLines(k - 1)
  }

  /** All empty lines before a block are dropped, and nothing else is. */
  lemma {:induction false} EmptyLinesAreDropped(k: nat, rest: bytes)
    requires !(CRLF <= rest)
    ensures TrimLeadingCrlf(EmptyLines(k) + rest) == rest
  {
    var b := EmptyLines(k) + rest;
    if k == 0 {
      assert b == rest && (|rest| >= 2 ==> rest[..2] != CRLF);
    } else {
      EmptyLinesAreDropped(k - 1, rest);
      assert b == CRLF + (EmptyLines(k - 1) + rest);
      assert b[..2] == CRLF && b[2..] == EmptyLines(k - 1) + rest;
    }
  }

  /** That is every block: so many empty lines and what is kept. */
  lemma {:induction false} EmptyLinesOf(b: bytes) returns (k: nat)
    ensures b == EmptyLines(k) + TrimLeadingCrlf(b) && !(CRLF <= TrimLeadingCrlf(b))
  {
    if |b| >= 2 && b[..2] == CRLF {
      k := EmptyLinesOf(b[2..]);
      assert b == CRLF + b[2..];
      assert CRLF + (EmptyLines(k) + TrimLeadingCrlf(b[2..])) == CRLF + EmptyLines(k) + TrimLeadingCrlf(b[2..]);
      k := k + 1;
    } else {
      k := 0;
    }
  }

  // ---------------------------------------------------------------------------
  // Lines and words
  // ---------------------------------------------------------------------------

  /** `part` is b up to its first `sep`, or all of it. */
  ghost predicate UpTo(part: bytes, sep: byte, b: bytes) {
    sep !in part && part <= b && (|part| < |b| ==> b[|part|] == sep)
  }

  lemma BeforeIff(b: bytes, sep: byte, part: bytes)
    ensures Before(b, sep) == part <==> UpTo(part, sep, b)
  {
    var i := IndexByte(b, sep);
    assert UpTo(b[..i], sep, b);
    if UpTo(part, sep, b) {
      assert forall k :: 0 <= k < |part| ==> b[k] != sep;
      assert part == b[..|part|];
    }
  }

  lemma AfterIs(b: bytes, sep: byte, part: bytes)
    requires UpTo(part, sep, b) && |part| < |b|
    ensures After(b, sep) == b[|part| + 1..]
  {
    BeforeIff(b, sep, part);
    assert |Before(b, sep)| == IndexByte(b, sep);
  }

  /** The first line of a block: up to the first line feed, less a carriage return at its end. */
  ghost predicate IsFirstLine(block: bytes, line: bytes) {
    || UpTo(line + [13], 10, block)
    || (UpTo(line, 10, block) && (line == [] || line[|line| - 1] != 13))
  }

  lemma FirstLineIff(block: bytes, line: bytes)
    ensures StartLine(block) == line <==> IsFirstLine(block, line)
  {
    var raw := Before(block, LF);
    BeforeIff(block, LF, line + [13]);
    BeforeIff(block, LF, line);
    hide Before, UpTo;
    if raw != [] && raw[|raw| - 1] == CR {
      assert raw == raw[..|raw| - 1] + [13];
    }
  }

  // ---------------------------------------------------------------------------
  // Requests
  // ---------------------------------------------------------------------------

  /** The methods of section 9.3 of RFC 9110, and PATCH. */
  predicate IsMethod(verb: bytes) {
    || verb == Ascii("GET") || verb == Ascii("HEAD") || verb == Ascii("POST") || verb == Ascii("PUT")
    || verb == Ascii("DELETE") || verb == Ascii("CONNECT") || verb == Ascii("OPTIONS") || verb == Ascii("TRACE")
    || verb == Ascii("PATCH")
  }

  lemma MethodHasNoSpace(verb: bytes)
    requires IsMethod(verb)
    ensures SP !in verb
  {
  }

  /** A line that asks: a method, a space, and a path up to the next space if there is one. */
  ghost predicate Asks(line: bytes, verb: bytes, path: bytes) {
    IsMethod(verb) && verb + [SP] <= line && UpTo(path, SP, line[|verb| + 1..])
  }

  /** A block is a request if and only if its first line asks. */
  lemma RequestLineIff(block: bytes, line: bytes, verb: bytes, path: bytes)
    requires IsFirstLine(block, line)
    ensures ParseRequestLine(block) == Some((verb, path)) <==> Asks(line, verb, path)
  {
    FirstLineIff(block, line);
    var m := Before(line, SP);
    BeforeIff(line, SP, m);
    assert IsHttpMethod(m) <==> IsMethod(m);
    hide StartLine, IsHttpMethod, IsMethod, Before, After, IsFirstLine;
    if |m| < |line| {
      assert line[..|m| + 1] == m + [SP];
      AfterIs(line, SP, m);
      BeforeIff(line[|m| + 1..], SP, path);
    }
    if Asks(line, verb, path) {
      MethodHasNoSpace(verb);
      assert line[|verb|] == (verb + [SP])[|verb|] && line[..|verb|] == verb;
      BeforeIff(line, SP, verb);
    }
  }

  // ---------------------------------------------------------------------------
  // Responses
  // ---------------------------------------------------------------------------

  /** A decimal number with at most one sign, in 64 bits. */
  ghost predicate IsInteger(b: bytes, n: int) {
    && -0x8000_0000_0000_0000 <= n < 0x8000_0000_0000_0000
    && (|| (b != [] && IsDigits(b) && n == Decimal(b))
        || (|b| > 1 && b[0] == '+' as int && IsDigits(b[1..]) && n == Decimal(b[1..]))
        || (|b| > 1 && b[0] == '-' as int && IsDigits(b[1..]) && n == 0 - Decimal(b[1..])))
  }

  lemma {:induction false} DigitsIff(b: bytes)
    ensures ParseDigits(b) == if IsDigits(b) then Some(Decimal(b)) else None
  {
    if b != [] {
      var n := |b| - 1;
      DigitsIff(b[..n]);
      assert IsDigits(b) <==> IsDigits(b[..n]) && IsDigit(b[n]) by {
        assert forall i :: 0 <= i < n ==> b[i] == b[..n][i];
      }
    }
  }

  lemma IntegerIff(b: bytes, n: int)
    ensures Atoi(b) == Some(n) <==> IsInteger(b, n)
  {
    var signed := b != [] && (b[0] == 45 || b[0] == 43);
    var digits := if signed then b[1..] else b;
    DigitsIff(digits);
    if signed {
      assert !IsDigit(b[0]) && !IsDigits(b);
    }
    hide ParseDigits, Decimal;
  }

  /** A line that answers: "HTTP/", a version, a space, and a number up to the next space if there is one. */
  ghost predicate Answers(line: bytes, version: bytes, code: bytes, n: int) {
    && UpTo(version, SP, line) && |version| < |line| && Ascii("HTTP/") <= version
    && UpTo(code, SP, line[|version| + 1..]) && IsInteger(code, n)
  }

  /** A block is a response with that status if its first line answers. */
  lemma StatusLineIsRead(block: bytes, line: bytes, version: bytes, code: bytes, n: int)
    requires IsFirstLine(block, line) && Answers(line, version, code, n)
    ensures ParseStatusLine(block) == Some(n)
  {
    FirstLineIff(block, line);
    BeforeIff(line, SP, version);
    AfterIs(line, SP, version);
    BeforeIff(line[|version| + 1..], SP, code);
    IntegerIff(code, n);
    hide StartLine, Before, After, Atoi, IsFirstLine;
  }

  /** And only then. */
  lemma StatusLineAnswers(block: bytes, line: bytes) returns (version: bytes, code: bytes)
    requires IsFirstLine(block, line)
    ensures var r := ParseStatusLine(block);
      r.Some? ==> Answers(line, version, code, r.value)
  {
    FirstLineIff(block, line);
    version := Before(line, SP);
    BeforeIff(line, SP, version);
    code := Before(After(line, SP), SP);
    if ParseStatusLine(block).Some? {
      AfterIs(line, SP, version);
      BeforeIff(line[|version| + 1..], SP, code);
      IntegerIff(code, ParseStatusLine(block).value);
    }
  }
}
