/**
 What a chunk's size line means, in terms of characters: UTF-8 text as section 3 of RFC 3629 encodes it, trimmed of
 Unicode white space, holding a hexadecimal number before any semicolon.
 */
module SizeLines {
  import opened Routes
  import opened Chunked

  // ---------- Characters ----------

  predicate Scalar(c: nat) {
    c < 0xD800 || 0xE000 <= c <= 0x10FFFF
  }

  /** A character in one to four bytes. */
  function Encode(c: nat): Bytes
    requires Scalar(c)
  {
    if c < 0x80 then [c]
    else if c < 0x800 then [0xC0 + c / 64, 0x80 + c % 64]
    else if c < 0x1_0000 then [0xE0 + c / 64 / 64, 0x80 + c / 64 % 64, 0x80 + c % 64]
    else [0xF0 + c / 64 / 64 / 64, 0x80 + c / 64 / 64 % 64, 0x80 + c / 64 % 64, 0x80 + c % 64]
  }

  lemma EncodedStarts(c: nat, s: Bytes)
    requires Scalar(c) && Encode(c) <= s
    ensures SequenceLength(s) == |Encode(c)|
  {
    var e := Encode(c);
    assert forall i :: 0 <= i < |e| ==> s[i] == e[i];
  }

  lemma TwoBytes(a: byte, b: byte)
    requires Between(a, 0xC2, 0xDF) && Tail(b)
    ensures var c := (a as int - 0xC0) * 64 + (b as int - 0x80); c >= 0 && Scalar(c) && Encode(c) == [a, b]
  {
  }

  lemma Sixes(q: nat, r: nat)
    requires r < 64
    ensures (q * 64 + r) / 64 == q && (q * 64 + r) % 64 == r
  {
  }

  lemma ThreeBytes(a: byte, b: byte, d: byte)
    requires Between(a, 0xE0, 0xEF) && Tail(b) && Tail(d) && (a == 0xE0 ==> b >= 0xA0) && (a == 0xED ==> b <= 0x9F)
    ensures var c := ((a as int - 0xE0) * 64 + (b as int - 0x80)) * 64 + (d as int - 0x80);
            c >= 0 && Scalar(c) && Encode(c) == [a, b, d]
  {
    var x, y, z := a as int - 0xE0, b as int - 0x80, d as int - 0x80;
    Sixes(x, y);
    Sixes(x * 64 + y, z);
    assert a == 0xE0 ==> y >= 32;
    assert a == 0xED ==> y < 32;
  }

  lemma FourBytes(a: byte, b: byte, d: byte, e: byte)
    requires Between(a, 0xF0, 0xF4) && Tail(b) && Tail(d) && Tail(e) && (a == 0xF0 ==> b >= 0x90) && (a == 0xF4 ==> b <= 0x8F)
    ensures var c := (((a as int - 0xF0) * 64 + (b as int - 0x80)) * 64 + (d as int - 0x80)) * 64 + (e as int - 0x80);
            c >= 0 && Scalar(c) && Encode(c) == [a, b, d, e]
  {
    var x, y, z, u := a as int - 0xF0, b as int - 0x80, d as int - 0x80, e as int - 0x80;
    Sixes(x, y);
    Sixes(x * 64 + y, z);
    Sixes((x * 64 + y) * 64 + z, u);
  }

  lemma SequenceDecodes(s: Bytes) returns (c: nat)
    requires SequenceLength(s) > 0
    ensures Scalar(c) && SequenceLength(s) <= |s| && Encode(c) == s[..SequenceLength(s)]
  {
    var n := SequenceLength(s);
    if n == 1 {
      c := s[0];
    } else if n == 2 {
      TwoBytes(s[0], s[1]);
      c := (s[0] as int - 0xC0) * 64 + (s[1] as int - 0x80);
      assert s[..2] == [s[0], s[1]];
      hide Encode, Scalar;
    } else if n == 3 {
      ThreeBytes(s[0], s[1], s[2]);
      c := ((s[0] as int - 0xE0) * 64 + (s[1] as int - 0x80)) * 64 + (s[2] as int - 0x80);
      assert s[..3] == [s[0], s[1], s[2]];
      hide Encode, Scalar;
    } else {
      FourBytes(s[0], s[1], s[2], s[3]);
      c := (((s[0] as int - 0xF0) * 64 + (s[1] as int - 0x80)) * 64 + (s[2] as int - 0x80)) * 64 + (s[3] as int - 0x80);
      assert s[..4] == [s[0], s[1], s[2], s[3]];
      hide Encode, Scalar;
    }
  }

  ghost predicate Scalars(cs: seq<nat>) {
    forall i :: 0 <= i < |cs| ==> Scalar(cs[i])
  }

  ghost function EncodeAll(cs: seq<nat>): Bytes
    requires Scalars(cs)
  {
    if cs == [] then [] else Encode(cs[0]) + EncodeAll(cs[1..])
  }

  lemma {:induction false} EncodedIsUtf8(cs: seq<nat>)
    requires Scalars(cs)
    ensures Utf8(EncodeAll(cs))
  {
    if cs != [] {
      var s, first, rest := EncodeAll(cs), Encode(cs[0]), EncodeAll(cs[1..]);
      EncodedStarts(cs[0], s);
      EncodedIsUtf8(cs[1..]);
      assert |first| > 0 && s[|first|..] == rest;
      hide Encode, SequenceLength;
    }
  }

  lemma {:induction false} Utf8Decodes(s: Bytes) returns (cs: seq<nat>)
    requires Utf8(s)
    ensures Scalars(cs) && EncodeAll(cs) == s
    decreases |s|
  {
    hide Encode, SequenceLength;
    cs := [];
    if s != [] {
      var n := SequenceLength(s);
      var c := SequenceDecodes(s);
      hide Scalar;
      var rest := Utf8Decodes(s[n..]);
      cs := [c] + rest;
      assert cs[1..] == rest && s == s[..n] + s[n..];
    }
  }

  /** A text is accepted as UTF-8 exactly when it is the encoding of a sequence of characters. */
  lemma Utf8IsText(s: Bytes)
    ensures Utf8(s) <==> exists cs :: Scalars(cs) && EncodeAll(cs) == s
  {
    if Utf8(s) {
      var cs := Utf8Decodes(s);
    }
    if cs :| Scalars(cs) && EncodeAll(cs) == s {
      EncodedIsUtf8(cs);
    }
  }

  // ---------- White space ----------

  /** The characters with the Unicode property White_Space. */
  predicate White(c: nat) {
    || 9 <= c <= 13 || c == 32 || c == 0x85 || c == 0xA0 || c == 0x1680 || 0x2000 <= c <= 0x200A
    || c == 0x2028 || c == 0x2029 || c == 0x202F || c == 0x205F || c == 0x3000
  }

  /** A text starts with a white-space character exactly when its length is found. */
  lemma SpaceIsWhite(s: Bytes, c: nat)
    requires White(c)
    ensures Encode(c) <= s ==> SpaceLength(s) == |Encode(c)|
  {
    if Encode(c) <= s {
      var e := Encode(c);
      assert forall i :: 0 <= i < |e| ==> s[i] == e[i];
    }
  }

  lemma SpaceDecodes(s: Bytes) returns (c: nat)
    requires SpaceLength(s) > 0
    ensures White(c) && SpaceLength(s) <= |s| && Encode(c) == s[..SpaceLength(s)]
  {
    var n := SpaceLength(s);
    if n == 1 {
      c := s[0];
    } else if n == 2 {
      c := (s[0] as int - 0xC0) * 64 + (s[1] as int - 0x80);
    } else {
      c := (s[0] as int - 0xE0) * 4096 + (s[1] as int - 0x80) * 64 + (s[2] as int - 0x80);
    }
  }

  ghost predicate Whites(cs: seq<nat>) {
    forall i :: 0 <= i < |cs| ==> White(cs[i])
  }

  lemma WhitesAreScalars(cs: seq<nat>)
    requires Whites(cs)
    ensures Scalars(cs)
  {
  }

  /** The text is white space alone. */
  ghost function Blanks(cs: seq<nat>): Bytes
    requires Whites(cs)
  {
    WhitesAreScalars(cs);
    EncodeAll(cs)
  }

  lemma EncodeLength(c: nat)
    requires Scalar(c)
    ensures 1 <= |Encode(c)| <= 4
  {
  }

  lemma {:induction false} EncodeAllAppend(cs: seq<nat>, c: nat)
    requires Scalars(cs) && Scalar(c)
    ensures Scalars(cs + [c]) && EncodeAll(cs + [c]) == EncodeAll(cs) + Encode(c)
  {
    hide Encode;
    if cs == [] {
      assert cs + [c] == [c] && EncodeAll([c][1..]) == [];
    } else {
      EncodeAllAppend(cs[1..], c);
      assert (cs + [c])[1..] == cs[1..] + [c];
    }
  }

  lemma {:induction false} TrimStartTakes(s: Bytes) returns (lead: seq<nat>)
    ensures Whites(lead) && s == Blanks(lead) + TrimStart(s) && SpaceLength(TrimStart(s)) == 0
    decreases |s|
  {
    hide SpaceLength, Encode;
    lead := [];
    var n := SpaceLength(s);
    if n > 0 {
      var c := SpaceDecodes(s);
      hide White;
      var more := TrimStartTakes(s[n..]);
      assert TrimStart(s) == TrimStart(s[n..]);
      lead := [c] + more;
      hide TrimStart;
      WhitesAreScalars(lead);
      assert lead[1..] == more;
      assert s == s[..n] + s[n..];
    }
  }

  /** The text does not end in a white-space character. */
  ghost predicate EndsSolid(s: Bytes) {
    forall c :: White(c) && |Encode(c)| <= |s| ==> s[|s| - |Encode(c)|..] != Encode(c)
  }

  lemma EndSpace(s: Bytes, k: nat) returns (c: nat)
    requires SpaceEnds(s, k)
    ensures White(c) && Scalar(c) && Encode(c) == s[|s| - k..]
  {
    hide SpaceLength, Encode;
    c := SpaceDecodes(s[|s| - k..]);
    assert s[|s| - k..][..k] == s[|s| - k..];
  }

  lemma EndIsSolid(s: Bytes)
    requires forall k :: 1 <= k <= 3 ==> !SpaceEnds(s, k)
    ensures EndsSolid(s)
  {
    forall c | White(c) && |Encode(c)| <= |s| ensures s[|s| - |Encode(c)|..] != Encode(c) {
      assert 1 <= |Encode(c)| <= 3;
      SpaceIsWhite(s[|s| - |Encode(c)|..], c);
      assert !SpaceEnds(s, |Encode(c)|);
      hide SpaceLength, Encode, White;
    }
  }

  /** One step of trimming, or none. */
  lemma TrimEndStep(s: Bytes) returns (k: nat)
    ensures if k == 0 then TrimEnd(s) == s && EndsSolid(s) else SpaceEnds(s, k) && TrimEnd(s) == TrimEnd(s[..|s| - k])
  {
    assert forall n: nat :: SpaceEnds(s, n) ==> n <= |s|;
    hide SpaceEnds, EndsSolid;
    k := if SpaceEnds(s, 1) then 1 else if SpaceEnds(s, 2) then 2 else if SpaceEnds(s, 3) then 3 else 0;
    if k == 0 {
      EndIsSolid(s);
    }
  }

  lemma {:induction false} TrimEndTakes(s: Bytes) returns (trail: seq<nat>)
    ensures Whites(trail) && s == TrimEnd(s) + Blanks(trail) && EndsSolid(TrimEnd(s))
    decreases |s|
  {
    var k := TrimEndStep(s);
    hide TrimEnd, SpaceLength, EndsSolid, Encode;
    trail := [];
    if k > 0 {
      var c := EndSpace(s, k);
      var more := TrimEndTakes(s[..|s| - k]);
      hide White, Scalar;
      WhitesAreScalars(more);
      EncodeAllAppend(more, c);
      trail := more + [c];
      hide EncodeAll;
      assert s == s[..|s| - k] + Encode(c);
      assert TrimEnd(s) + Blanks(more) + Encode(c) == TrimEnd(s) + (Blanks(more) + Encode(c));
    } else {
      assert s + [] == s;
    }
  }

  lemma {:induction false} TrimStartSkips(lead: seq<nat>, s: Bytes)
    requires Whites(lead)
    ensures TrimStart(Blanks(lead) + s) == TrimStart(s)
  {
    hide Encode, SpaceLength;
    if lead == [] {
      assert Blanks(lead) + s == s;
    } else {
      var e, rest := Encode(lead[0]), Blanks(lead[1..]);
      EncodeLength(lead[0]);
      assert Blanks(lead) + s == e + (rest + s);
      SpaceIsWhite(e + (rest + s), lead[0]);
      assert (e + (rest + s))[|e|..] == rest + s;
      TrimStartSkips(lead[1..], s);
      hide White, EncodeAll;
    }
  }

  lemma TrimEndDrops(s: Bytes, c: nat)
    requires White(c)
    ensures TrimEnd(s + Encode(c)) == TrimEnd(s)
  {
    var e, t := Encode(c), s + Encode(c);
    var k := |e|;
    assert t[|t| - k..] == e && t[..|t| - k] == s;
    EndsOnce(s, c);
    hide SpaceEnds, Encode, White;
  }

  /** The last bytes of a white-space character are no shorter one. */
  lemma EndsOnce(s: Bytes, c: nat)
    requires White(c)
    ensures 1 <= |Encode(c)| <= 3
    ensures forall k: nat :: k <= |Encode(c)| ==> (SpaceEnds(s + Encode(c), k) <==> k == |Encode(c)|)
  {
    var e, t := Encode(c), s + Encode(c);
    SpaceIsWhite(e, c);
    forall k: nat | k <= |e| ensures SpaceEnds(t, k) <==> k == |e| {
      assert 0 < k ==> t[|t| - k..] == e[|e| - k..];
      if 0 < k < |e| {
        TailIsNoSpace(c, k);
      }
      hide SpaceLength, Encode;
    }
  }

  lemma TailIsNoSpace(c: nat, k: nat)
    requires White(c) && 0 < k < |Encode(c)|
    ensures SpaceLength(Encode(c)[|Encode(c)| - k..]) == 0
  {
  }

  lemma {:induction false} TrimEndSkips(s: Bytes, trail: seq<nat>)
    requires Whites(trail)
    ensures TrimEnd(s + Blanks(trail)) == TrimEnd(s)
    decreases |trail|
  {
    hide TrimEnd, Encode;
    if trail == [] {
      assert s + Blanks(trail) == s;
    } else {
      var front, c := trail[..|trail| - 1], trail[|trail| - 1];
      assert front + [c] == trail;
      WhitesAreScalars(front);
      EncodeAllAppend(front, c);
      TrimEndSkips(s, front);
      TrimEndDrops(s + Blanks(front), c);
      hide EncodeAll, White;
      assert s + Blanks(trail) == s + Blanks(front) + Encode(c);
    }
  }

  /** A size as written in the middle of white space. */
  ghost predicate Sized(text: Bytes, n: nat) {
    exists lead, number, trail ::
      Whites(lead) && Whites(trail) && text == Blanks(lead) + number + Blanks(trail) && Number(16, number, n)
  }

  lemma NumberIsSolid(number: Bytes, n: nat, trail: Bytes)
    requires Number(16, number, n)
    ensures TrimStart(number + trail) == number + trail && TrimEnd(number) == number
  {
    HexValueReads(number, n);
    assert number[0] in number && number[|number| - 1] in number;
    if number[0] == PLUS {
      HexValueReads(number[1..], n);
      assert number[1..] != [] ==> number[|number| - 1] == number[1..][|number| - 2] && number[|number| - 1] in number[1..];
    }
    assert (number + trail)[0] == number[0];
    SolidStart(number + trail);
    hide Writes, HexValue, TrimEnd, TrimStart;
    DigitsStay(number);
  }

  lemma SolidStart(s: Bytes)
    requires s != [] && (HexDigit(s[0]) || s[0] == PLUS)
    ensures TrimStart(s) == s
  {
    assert SpaceLength(s) == 0;
  }

  /**
   A size line gives a size exactly when it is UTF-8 text and, before any semicolon, holds that number in hexadecimal
   with nothing but white space around it.
   */
  lemma SizeLineReads(line: Bytes, n: nat)
    ensures ParseSize(line) == Some(n) <==> Utf8(line) && Sized(BeforeSemicolon(line), n)
  {
    hide Utf8, BeforeSemicolon, ParseHex, Number, EncodeAll, White;
    var text := BeforeSemicolon(line);
    var trimmed := TrimEnd(TrimStart(text));
    ParseHexReads(trimmed, n);
    var lead := TrimStartTakes(text);
    var trail := TrimEndTakes(TrimStart(text));
    hide TrimStart, TrimEnd;
    assert text == Blanks(lead) + trimmed + Blanks(trail);
    if Sized(text, n) {
      var l, number, r :| Whites(l) && Whites(r) && text == Blanks(l) + number + Blanks(r) && Number(16, number, n);
      TrimStartSkips(l, number + Blanks(r));
      NumberIsSolid(number, n, Blanks(r));
      TrimEndSkips(number, r);
      assert Blanks(l) + (number + Blanks(r)) == text;
    }
  }
}
