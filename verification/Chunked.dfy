/**
 Decoding a chunked body. The decoder is stated exactly on every chunked encoding of section 7.1 of
 RFC 9112, for any extension text and any trailer section.
 */
module Chunked {
  import opened Routes

  type byte = x: int | 0 <= x < 256
  type Bytes = seq<byte>

  const MAX_ERROR_BODY_BYTES: nat := 1024 * 1024
  const USIZE_MAX: nat := 0xFFFF_FFFF_FFFF_FFFF

  const CR: byte := 13
  const LF: byte := 10
  const SEMICOLON: byte := 59
  const PLUS: byte := 43
  const CRLF: Bytes := [CR, LF]

  /** Cutting a text before what follows it. */
  lemma CutConcat(s: Bytes, more: Bytes, n: nat)
    requires n <= |s|
    ensures (s + more)[..n] == s[..n] && (s + more)[n..] == s[n..] + more
  {
  }

  // ---------- Searching ----------

  /** Where a pattern first occurs. */
  function Find(s: Bytes, pattern: Bytes): (at: Option<nat>)
    ensures at.Some? ==> at.value + |pattern| <= |s| && s[at.value..at.value + |pattern|] == pattern
  {
    if |s| < |pattern| then None
    else if s[..|pattern|] == pattern then Some(0)
    else if s == [] then None
    else
      match Find(s[1..], pattern)
      case None => None
      case Some(i) =>
        assert s[i + 1..i + 1 + |pattern|] == s[1..][i..i + |pattern|];
        Some(i + 1)
  }

  /** What was found stays found, at the same place, whatever follows. */
  lemma {:induction false} FindExtends(s: Bytes, pattern: Bytes, more: Bytes)
    requires Find(s, pattern).Some?
    ensures Find(s + more, pattern) == Find(s, pattern)
  {
    assert (s + more)[..|pattern|] == s[..|pattern|];
    if s[..|pattern|] != pattern {
      assert (s + more)[1..] == s[1..] + more;
      FindExtends(s[1..], pattern, more);
    }
  }

  /** Text without a carriage return before a line end is exactly the line. */
  lemma {:induction false} FindLineEnd(line: Bytes, rest: Bytes)
    requires CR !in line
    ensures Find(line + CRLF + rest, CRLF) == Some(|line|)
  {
    var s := line + CRLF + rest;
    if line == [] {
      assert s[..2] == CRLF;
    } else {
      assert s[0] == line[0] && s[..2][0] == s[0];
      assert s[1..] == line[1..] + CRLF + rest;
      FindLineEnd(line[1..], rest);
    }
  }

  // ---------- The size line ----------

  predicate Between(b: int, low: int, high: int) {
    low <= b <= high
  }

  predicate Tail(b: int) {
    Between(b, 0x80, 0xBF)
  }

  /** The length of the well-formed UTF-8 sequence a text starts with, 0 if it starts with none. */
  function SequenceLength(s: Bytes): nat {
    if |s| >= 1 && s[0] < 0x80 then 1
    else if |s| >= 2 && Between(s[0], 0xC2, 0xDF) && Tail(s[1]) then 2
    else if |s| >= 3 && Tail(s[2]) && (
      || (s[0] == 0xE0 && Between(s[1], 0xA0, 0xBF))
      || ((Between(s[0], 0xE1, 0xEC) || Between(s[0], 0xEE, 0xEF)) && Tail(s[1]))
      || (s[0] == 0xED && Between(s[1], 0x80, 0x9F))) then 3
    else if |s| >= 4 && Tail(s[2]) && Tail(s[3]) && (
      || (s[0] == 0xF0 && Between(s[1], 0x90, 0xBF))
      || (Between(s[0], 0xF1, 0xF3) && Tail(s[1]))
      || (s[0] == 0xF4 && Between(s[1], 0x80, 0x8F))) then 4
    else 0
  }

  predicate Utf8(s: Bytes)
    decreases |s|
  {
    s == [] || (0 < SequenceLength(s) <= |s| && Utf8(s[SequenceLength(s)..]))
  }

  /** The length of the white-space character a text starts with, 0 if it starts with none. */
  function SpaceLength(s: Bytes): nat {
    if |s| >= 1 && (Between(s[0], 9, 13) || s[0] == 32) then 1
    else if |s| >= 2 && s[0] == 0xC2 && (s[1] == 0x85 || s[1] == 0xA0) then 2
    else if |s| >= 3 && (
      || (s[0] == 0xE1 && s[1] == 0x9A && s[2] == 0x80)
      || (s[0] == 0xE2 && s[1] == 0x80 && (Between(s[2], 0x80, 0x8A) || s[2] == 0xA8 || s[2] == 0xA9 || s[2] == 0xAF))
      || (s[0] == 0xE2 && s[1] == 0x81 && s[2] == 0x9F)
      || (s[0] == 0xE3 && s[1] == 0x80 && s[2] == 0x80)) then 3
    else 0
  }

  function TrimStart(s: Bytes): Bytes
    decreases |s|
  {
    var n := SpaceLength(s);
    if 0 < n <= |s| then TrimStart(s[n..]) else s
  }

  /** The last `k` bytes are a white-space character. */
  predicate SpaceEnds(s: Bytes, k: nat) {
    0 < k <= |s| && SpaceLength(s[|s| - k..]) == k
  }

  function TrimEnd(s: Bytes): Bytes
    decreases |s|
  {
    if SpaceEnds(s, 1) then TrimEnd(s[..|s| - 1])
    else if SpaceEnds(s, 2) then TrimEnd(s[..|s| - 2])
    else if SpaceEnds(s, 3) then TrimEnd(s[..|s| - 3])
    else s
  }

  function BeforeSemicolon(s: Bytes): Bytes {
    if s == [] || s[0] == SEMICOLON then [] else [s[0]] + BeforeSemicolon(s[1..])
  }

  predicate HexDigit(b: byte) {
    Between(b, 48, 57) || Between(b, 65, 70) || Between(b, 97, 102)
  }

  function DigitValue(b: byte): nat
    requires HexDigit(b)
  {
    if b <= 57 then b - 48 else if b <= 70 then b - 55 else b - 87
  }

  function HexValue(s: Bytes): nat
    requires forall b :: b in s ==> HexDigit(b)
  {
    if s == [] then 0 else HexValue(s[..|s| - 1]) * 16 + DigitValue(s[|s| - 1])
  }

  function ParseHex(s: Bytes): Option<nat> {
    var digits := if s != [] && s[0] == PLUS then s[1..] else s;
    if digits != [] && (forall b :: b in digits ==> HexDigit(b)) && HexValue(digits) <= USIZE_MAX
    then Some(HexValue(digits))
    else None
  }

  function ParseSize(line: Bytes): Option<nat> {
    if Utf8(line) then ParseHex(TrimEnd(TrimStart(BeforeSemicolon(line)))) else None
  }

  // ---------- The decoder ----------

  predicate StartsWith(s: Bytes, prefix: Bytes) {
    prefix <= s
  }

  /** What the input starts with: a whole chunk, the end of the body, or neither. */
  datatype Piece = Broken | End | Chunk(data: Bytes, rest: Bytes)

  /** The piece after a size line. */
  function AfterSize(size: nat, rest: Bytes): Piece {
    if size == 0 then (if StartsWith(rest, CRLF) then End else Broken)
    else if |rest| < size || !StartsWith(rest[size..], CRLF) then Broken
    else Chunk(rest[..size], rest[size + 2..])
  }

  function FirstPiece(input: Bytes): Piece {
    match Find(input, CRLF)
    case None => Broken
    case Some(lineEnd) =>
      match ParseSize(input[..lineEnd])
      case None => Broken
      case Some(size) => AfterSize(size, input[lineEnd + 2..])
  }

  lemma PieceShrinks(input: Bytes)
    ensures FirstPiece(input).Chunk? ==> |FirstPiece(input).rest| < |input|
  {
    hide ParseSize;
  }

  /** The body decoded from the rest of the input, after what was decoded so far. */
  function Decoded(input: Bytes, output: Bytes): Option<Bytes>
    decreases |input|
  {
    PieceShrinks(input);
    match FirstPiece(input)
    case Broken => None
    case End => Some(output)
    case Chunk(data, rest) =>
      if |output| + |data| > MAX_ERROR_BODY_BYTES then None else Decoded(rest, output + data)
  }

  method DecodeChunked(bytes: Bytes) returns (body: Option<Bytes>)
    ensures body == Decoded(bytes, [])
  {
    var input, output: Bytes := bytes, [];
    while true
      invariant Decoded(bytes, []) == Decoded(input, output)
      decreases |input|
    {
      hide ParseSize, Find;
      ghost var piece := FirstPiece(input);
      var lineEnd := Find(input, CRLF);
      if lineEnd.None? {
        return None;
      }
      var size := ParseSize(input[..lineEnd.value]);
      if size.None? {
        return None;
      }
      var rest := input[lineEnd.value + 2..];
      assert piece == AfterSize(size.value, rest);
      if size.value == 0 {
        return if StartsWith(rest, CRLF) then Some(output) else None;
      }
      if |rest| < size.value {
        return None;
      }
      var data := rest[..size.value];
      output := output + data;
      if |output| > MAX_ERROR_BODY_BYTES {
        return None;
      }
      rest := rest[size.value..];
      if !StartsWith(rest, CRLF) {
        return None;
      }
      input := rest[2..];
      assert piece == Chunk(data, input);
    }
  }

  // ---------- Extension ----------

  lemma AfterSizeExtends(size: nat, rest: Bytes, more: Bytes)
    requires !AfterSize(size, rest).Broken?
    ensures AfterSize(size, rest + more) ==
            match AfterSize(size, rest) case End => End case Chunk(data, left) => Chunk(data, left + more)
  {
    if size > 0 {
      CutConcat(rest, more, size);
      CutConcat(rest, more, size + 2);
    }
  }

  lemma PieceExtends(input: Bytes, more: Bytes)
    requires !FirstPiece(input).Broken?
    ensures FirstPiece(input + more) ==
            match FirstPiece(input) case End => End case Chunk(data, left) => Chunk(data, left + more)
  {
    FindExtends(input, CRLF, more);
    hide ParseSize, Find, AfterSize;
    var lineEnd := Find(input, CRLF).value;
    CutConcat(input, more, lineEnd);
    CutConcat(input, more, lineEnd + 2);
    AfterSizeExtends(ParseSize(input[..lineEnd]).value, input[lineEnd + 2..], more);
  }

  /** A decoded body stays the same whatever follows it. */
  lemma {:induction false} DecodedExtends(input: Bytes, output: Bytes, more: Bytes)
    requires Decoded(input, output).Some?
    ensures Decoded(input + more, output) == Decoded(input, output)
    decreases |input|
  {
    PieceShrinks(input);
    PieceExtends(input, more);
    hide FirstPiece;
    match FirstPiece(input) {
      case Chunk(data, rest) => DecodedExtends(rest, output + data, more);
      case _ =>
    }
  }

  // ---------- Numbers as written ----------

  /** The digits of bases up to sixteen, in order of their value: 0 to 9, then a to f in either case. */
  const LOWER_DIGITS: Bytes := [48, 49, 50, 51, 52, 53, 54, 55, 56, 57, 97, 98, 99, 100, 101, 102]
  const UPPER_DIGITS: Bytes := [48, 49, 50, 51, 52, 53, 54, 55, 56, 57, 65, 66, 67, 68, 69, 70]

  /** The byte is the digit of this value. */
  predicate Shows(b: byte, value: nat) {
    value < 16 && (b == LOWER_DIGITS[value] || b == UPPER_DIGITS[value])
  }

  /** The text is the number in this base, most significant digit first, with any leading zeros. */
  predicate Writes(base: nat, text: Bytes, n: nat)
    requires base == 10 || base == 16
  {
    && text != [] && Shows(text[|text| - 1], n % base)
    && if |text| == 1 then n < base else Writes(base, text[..|text| - 1], n / base)
  }

  /** Every number has such a text. */
  function Numeral(base: nat, n: nat): (text: Bytes)
    requires base == 10 || base == 16
    ensures Writes(base, text, n)
  {
    if n < base then [LOWER_DIGITS[n]]
    else
      var front := Numeral(base, n / base);
      assert (front + [LOWER_DIGITS[n % base]])[..|front|] == front;
      front + [LOWER_DIGITS[n % base]]
  }

  lemma DigitShown(b: byte, value: nat)
    ensures Shows(b, value) <==> HexDigit(b) && DigitValue(b) == value
  {
  }

  /** Reading a text of hexadecimal digits inverts writing one. */
  lemma {:induction false} HexValueReads(text: Bytes, n: nat)
    ensures Writes(16, text, n) <==> text != [] && (forall b :: b in text ==> HexDigit(b)) && HexValue(text) == n
  {
    if text != [] {
      var front, last := text[..|text| - 1], text[|text| - 1];
      DigitShown(last, n % 16);
      assert HexDigit(last) ==> DigitValue(last) < 16;
      hide Shows, HexDigit, DigitValue;
      assert forall b :: b in text <==> b in front || b == last;
      if front == [] {
        assert HexDigit(last) ==> HexValue(text) == DigitValue(last);
      } else {
        HexValueReads(front, n / 16);
      }
    }
  }

  /** A number as accepted from the wire: within a machine word, with an optional plus sign. */
  predicate Number(base: nat, text: Bytes, n: nat)
    requires base == 10 || base == 16
  {
    n <= USIZE_MAX && (Writes(base, text, n) || (text != [] && text[0] == PLUS && Writes(base, text[1..], n)))
  }

  lemma ParseHexReads(text: Bytes, n: nat)
    ensures ParseHex(text) == Some(n) <==> Number(16, text, n)
  {
    HexValueReads(text, n);
    if text != [] && text[0] == PLUS {
      HexValueReads(text[1..], n);
      assert text[0] in text && !HexDigit(PLUS);
    }
    hide Writes, HexValue;
  }

  // ---------- Every chunked encoding ----------

  /** One chunk as sent: its size in hexadecimal, its extensions, its data. */
  datatype Sent = Sent(size: Bytes, ext: Bytes, data: Bytes)

  /** A whole body as sent: chunks, the last chunk's size and extensions, and the trailer section. */
  datatype Encoding = Encoding(chunks: seq<Sent>, last: Sent, trailer: Bytes)

  predicate Blank(s: Bytes) {
    forall b :: b in s ==> b == 32 || b == 9
  }

  /** Extensions: nothing, or optional blanks, a semicolon and any text on the same line. */
  ghost predicate Extensions(ext: Bytes) {
    ext == [] || exists blanks, text :: ext == blanks + [SEMICOLON] + text && Blank(blanks) && CR !in text
  }

  ghost predicate WellSent(c: Sent) {
    Writes(16, c.size, |c.data|) && Extensions(c.ext)
  }

  /** A trailer section is empty or starts with a field name. */
  ghost predicate WellFormed(e: Encoding) {
    && (forall i :: 0 <= i < |e.chunks| ==> WellSent(e.chunks[i]) && e.chunks[i].data != [])
    && WellSent(e.last) && e.last.data == []
    && (e.trailer != [] ==> e.trailer[0] != CR)
  }

  function Wire(c: Sent): Bytes {
    c.size + c.ext + CRLF + (c.data + CRLF)
  }

  function WireAll(chunks: seq<Sent>): Bytes {
    if chunks == [] then [] else Wire(chunks[0]) + WireAll(chunks[1..])
  }

  function Encoded(e: Encoding): Bytes {
    WireAll(e.chunks) + e.last.size + e.last.ext + CRLF + e.trailer + CRLF
  }

  function Body(chunks: seq<Sent>): Bytes {
    if chunks == [] then [] else chunks[0].data + Body(chunks[1..])
  }

  // The size line of a chunk parses to its length exactly when its extensions are UTF-8.

  lemma {:induction false} DigitsAreUtf8(size: Bytes, ext: Bytes)
    requires forall b :: b in size ==> HexDigit(b)
    ensures Utf8(size + ext) <==> Utf8(ext)
  {
    if size == [] {
      assert size + ext == ext;
    } else {
      assert size[0] in size && SequenceLength(size + ext) == 1;
      assert (size + ext)[1..] == size[1..] + ext;
      DigitsAreUtf8(size[1..], ext);
    }
  }

  lemma {:induction false} SizeBeforeSemicolon(size: Bytes, text: Bytes)
    requires SEMICOLON !in size && (text == [] || text[0] == SEMICOLON)
    ensures BeforeSemicolon(size + text) == size
  {
    if size != [] {
      assert (size + text)[1..] == size[1..] + text;
      SizeBeforeSemicolon(size[1..], text);
    } else {
      assert size + text == text;
    }
  }

  lemma DigitsStay(size: Bytes)
    requires size != [] && HexDigit(size[|size| - 1])
    ensures TrimEnd(size) == size
  {
    hide SpaceEnds, HexDigit;
    DigitEndsNoSpace(size, 1);
    DigitEndsNoSpace(size, 2);
    DigitEndsNoSpace(size, 3);
  }

  lemma DigitEndsNoSpace(size: Bytes, k: nat)
    requires size != [] && HexDigit(size[|size| - 1]) && 1 <= k <= 3
    ensures !SpaceEnds(size, k)
  {
    if |size| >= k {
      assert size[|size| - k..][k - 1] == size[|size| - 1];
    }
  }

  lemma BlankGoes(s: Bytes, b: byte)
    requires b == 32 || b == 9
    ensures TrimEnd(s + [b]) == TrimEnd(s)
  {
    var t := s + [b];
    assert t[|t| - 1..] == [b];
    assert t[..|t| - 1] == s;
  }

  lemma {:induction false} BlanksTrimmed(size: Bytes, blanks: Bytes)
    requires size != [] && (forall b :: b in size ==> HexDigit(b)) && Blank(blanks)
    ensures TrimEnd(size + blanks) == size
    decreases |blanks|
  {
    if blanks == [] {
      assert size + blanks == size;
      DigitsStay(size);
    } else {
      var front, b := blanks[..|blanks| - 1], blanks[|blanks| - 1];
      assert b in blanks && forall x :: x in front ==> x in blanks;
      BlanksTrimmed(size, front);
      BlankGoes(size + front, b);
      assert size + blanks == size + front + [b];
      hide TrimEnd;
    }
  }

  lemma SizeTrimmedOf(size: Bytes, blanks: Bytes, text: Bytes)
    requires size != [] && (forall b :: b in size ==> HexDigit(b)) && Blank(blanks)
    requires text == [] || text[0] == SEMICOLON
    ensures TrimEnd(TrimStart(BeforeSemicolon(size + blanks + text))) == size
  {
    hide TrimEnd, TrimStart, BeforeSemicolon;
    var s := size + blanks;
    SizeBeforeSemicolon(s, text);
    assert size[0] in size && s[0] == size[0];
    DigitStays(s);
    BlanksTrimmed(size, blanks);
  }

  lemma DigitStays(s: Bytes)
    requires s != [] && HexDigit(s[0])
    ensures TrimStart(s) == s
  {
    assert SpaceLength(s) == 0;
  }

  lemma SizeTrimmed(size: Bytes, ext: Bytes)
    requires size != [] && (forall b :: b in size ==> HexDigit(b)) && Extensions(ext)
    ensures TrimEnd(TrimStart(BeforeSemicolon(size + ext))) == size
  {
    hide TrimEnd, TrimStart, BeforeSemicolon;
    if ext == [] {
      SizeTrimmedOf(size, [], []);
      assert size + [] + [] == size + ext;
    } else {
      var blanks: Bytes, text: Bytes :| ext == blanks + [SEMICOLON] + text && Blank(blanks) && CR !in text;
      SizeTrimmedOf(size, blanks, [SEMICOLON] + text);
      assert size + blanks + ([SEMICOLON] + text) == size + ext;
    }
  }

  lemma SizeParses(c: Sent)
    requires WellSent(c)
    ensures ParseSize(c.size + c.ext) == if Utf8(c.ext) && |c.data| <= USIZE_MAX then Some(|c.data|) else None
  {
    HexValueReads(c.size, |c.data|);
    DigitsAreUtf8(c.size, c.ext);
    SizeTrimmed(c.size, c.ext);
    assert c.size[0] in c.size;
    hide Utf8, TrimEnd, TrimStart, BeforeSemicolon, Writes;
  }

  lemma LineIsWhole(c: Sent)
    requires WellSent(c)
    ensures CR !in c.size + c.ext
  {
    HexValueReads(c.size, |c.data|);
    hide Writes;
    if c.ext != [] {
      var bs: Bytes, t: Bytes :| c.ext == bs + [SEMICOLON] + t && Blank(bs) && CR !in t;
    }
  }

  /** The piece a chunk's line leads to. */
  lemma SentPiece(c: Sent, rest: Bytes)
    requires WellSent(c)
    ensures FirstPiece(c.size + c.ext + CRLF + rest) ==
            if Utf8(c.ext) && |c.data| <= USIZE_MAX then AfterSize(|c.data|, rest) else Broken
  {
    var line := c.size + c.ext;
    LineIsWhole(c);
    FindLineEnd(line, rest);
    SizeParses(c);
    hide ParseSize, Find, AfterSize, WellSent, Utf8;
    var input := line + CRLF + rest;
    assert input[..|line|] == line;
    assert input[|line| + 2..] == rest;
  }

  /** All extensions up to the end of the body are UTF-8. */
  ghost predicate Readable(chunks: seq<Sent>, last: Sent) {
    (forall i :: 0 <= i < |chunks| ==> Utf8(chunks[i].ext)) && Utf8(last.ext)
  }

  ghost predicate Accepts(e: Encoding, before: nat) {
    Readable(e.chunks, e.last) && e.trailer == [] && before + |Body(e.chunks)| <= MAX_ERROR_BODY_BYTES
  }

  lemma TrailerEnds(trailer: Bytes, more: Bytes)
    requires trailer != [] ==> trailer[0] != CR
    ensures StartsWith(trailer + CRLF + more, CRLF) <==> trailer == []
  {
    var rest := trailer + CRLF + more;
    if trailer == [] {
      assert rest == CRLF + more;
    } else {
      assert rest[0] != CRLF[0];
    }
  }

  lemma LastDecodes(e: Encoding, output: Bytes, more: Bytes)
    requires WellFormed(e) && e.chunks == [] && |output| <= MAX_ERROR_BODY_BYTES
    ensures Decoded(Encoded(e) + more, output) == if Accepts(e, |output|) then Some(output) else None
  {
    var line, rest := e.last.size + e.last.ext + CRLF, e.trailer + CRLF + more;
    SentPiece(e.last, rest);
    TrailerEnds(e.trailer, more);
    LastRegroup(e, more);
    hide FirstPiece, WellSent, Utf8, Encoded, StartsWith;
  }

  lemma LastRegroup(e: Encoding, more: Bytes)
    requires e.chunks == []
    ensures Encoded(e) + more == e.last.size + e.last.ext + CRLF + (e.trailer + CRLF + more)
  {
    var line := e.last.size + e.last.ext + CRLF;
    assert Encoded(e) == line + (e.trailer + CRLF);
  }

  lemma DataFollows(data: Bytes, rest: Bytes)
    requires data != []
    ensures AfterSize(|data|, data + CRLF + rest) == Chunk(data, rest)
  {
    var after := data + CRLF + rest;
    assert after[..|data|] == data;
    assert after[|data|..] == CRLF + rest;
    assert after[|data| + 2..] == rest;
  }

  lemma Regroup(a: Bytes, b: Bytes, c: Bytes, whole: Bytes)
    requires whole == a + b
    ensures whole + c == a + (b + c)
  {
  }

  lemma ChunkPiece(c: Sent, rest: Bytes)
    requires WellSent(c) && c.data != []
    ensures FirstPiece(Wire(c) + rest) == if Utf8(c.ext) && |c.data| <= USIZE_MAX then Chunk(c.data, rest) else Broken
  {
    var after := c.data + CRLF + rest;
    SentPiece(c, after);
    DataFollows(c.data, rest);
    Regroup(c.size + c.ext + CRLF, c.data + CRLF, rest, Wire(c));
    hide FirstPiece, WellSent, Utf8, AfterSize, Wire;
  }

  lemma ChunkDecodes(c: Sent, rest: Bytes, output: Bytes)
    requires WellSent(c) && c.data != [] && |output| <= MAX_ERROR_BODY_BYTES
    ensures Decoded(Wire(c) + rest, output) ==
            if Utf8(c.ext) && |output| + |c.data| <= MAX_ERROR_BODY_BYTES then Decoded(rest, output + c.data) else None
  {
    ChunkPiece(c, rest);
    hide FirstPiece, WellSent, Utf8, Wire;
  }

  /**
   Every chunked encoding, whatever follows it: the decoder returns exactly the body when the body is within the
   limit, every extension it reads is UTF-8 and there is no trailer field; otherwise it returns nothing.
   */
  lemma {:induction false} DecodesEncoding(e: Encoding, output: Bytes, more: Bytes)
    requires WellFormed(e) && |output| <= MAX_ERROR_BODY_BYTES
    ensures Decoded(Encoded(e) + more, output) ==
            if Accepts(e, |output|) then Some(output + Body(e.chunks)) else None
    decreases |e.chunks|
  {
    if e.chunks == [] {
      LastDecodes(e, output, more);
      assert output + [] == output;
    } else {
      var c, tail := e.chunks[0], e.(chunks := e.chunks[1..]);
      assert WellSent(c) && c.data != [];
      ChunkDecodes(c, Encoded(tail) + more, output);
      EncodedSplits(e, more);
      ReadableSplits(e);
      TailWellFormed(e);
      hide Decoded, Wire, Utf8, Encoded, Readable, WellFormed;
      if Utf8(c.ext) && |output| + |c.data| <= MAX_ERROR_BODY_BYTES {
        DecodesEncoding(tail, output + c.data, more);
        Regroup(output, c.data, Body(tail.chunks), output + c.data);
      }
    }
  }

  lemma EncodedSplits(e: Encoding, more: Bytes)
    requires e.chunks != []
    ensures Encoded(e) + more == Wire(e.chunks[0]) + (Encoded(e.(chunks := e.chunks[1..])) + more)
  {
    var first, others := Wire(e.chunks[0]), WireAll(e.chunks[1..]);
    hide Wire;
    assert WireAll(e.chunks) == first + others;
  }

  lemma TailWellFormed(e: Encoding)
    requires WellFormed(e) && e.chunks != []
    ensures WellFormed(e.(chunks := e.chunks[1..]))
  {
    hide WellSent;
  }

  lemma ReadableSplits(e: Encoding)
    requires e.chunks != []
    ensures Readable(e.chunks, e.last) <==> Utf8(e.chunks[0].ext) && Readable(e.chunks[1..], e.last)
  {
    hide Utf8;
    if Utf8(e.chunks[0].ext) && Readable(e.chunks[1..], e.last) {
      forall i | 0 <= i < |e.chunks| ensures Utf8(e.chunks[i].ext) {
        assert i > 0 ==> e.chunks[i] == e.chunks[1..][i - 1];
      }
    }
  }

  /** A valid encoding of the empty body that the decoder refuses: it carries a trailer field. */
  lemma TrailerIsRefused()
    ensures var e := Encoding([], Sent([48], [], []), [65, 58, 49, CR, LF]);
            WellFormed(e) && Decoded(Encoded(e), []) == None
  {
    var e := Encoding([], Sent([48], [], []), [65, 58, 49, CR, LF]);
    assert HexValue([48]) == 0;
    DecodesEncoding(e, [], []);
    assert Encoded(e) + [] == Encoded(e);
    hide Decoded, Encoded;
  }
}
