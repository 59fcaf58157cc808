/**
 The custom-error response: parsing it from the bytes read so far, and the loop that reads until it parses.
 The header tokenizer is a pure function of the header bytes, given as a parameter.
 */
module ErrorResponse {
  import opened Routes
  import opened Chunked

  const MAX_ERROR_HEADER_BYTES: nat := 16 * 1024
  const MAX_WIRE_BYTES: nat := MAX_ERROR_HEADER_BYTES + MAX_ERROR_BODY_BYTES + 64 * 1024
  const HEADER_END: Bytes := [CR, LF, CR, LF]

  datatype Header = Header(name: Bytes, value: Bytes)

  /** The status line and headers of a complete header block, or none if it is malformed or has no status. */
  type Tokenizer = Bytes -> Option<seq<Header>>

  datatype Page = Page(body: Bytes, contentType: Option<Bytes>, contentEncoding: Option<Bytes>)

  // ---------- Headers ----------

  function Lower(b: byte): byte {
    if Between(b, 65, 90) then b + 32 else b
  }

  /** Equality up to the case of ASCII letters. */
  predicate SameText(a: Bytes, b: Bytes) {
    |a| == |b| && forall i :: 0 <= i < |a| ==> Lower(a[i]) == Lower(b[i])
  }

  /** The same byte, or the two cases of one ASCII letter. */
  predicate SameLetter(x: byte, y: byte) {
    x == y || (Between(x, 65, 90) && y as int == x as int + 32) || (Between(y, 65, 90) && x as int == y as int + 32)
  }

  lemma SameTextIs(a: Bytes, b: Bytes)
    ensures SameText(a, b) <==> |a| == |b| && forall i :: 0 <= i < |a| ==> SameLetter(a[i], b[i])
  {
  }

  /** Bytes a header value may hold. */
  function HeaderValue(value: Bytes): Option<Bytes> {
    if forall b :: b in value ==> (b >= 32 && b != 127) || b == 9 then Some(value) else None
  }

  predicate Control(b: byte) {
    b < 32 || b == 127
  }

  /** A header value is taken as it is unless it holds a control byte other than a tab. */
  lemma HeaderValueIs(value: Bytes)
    ensures if exists i :: 0 <= i < |value| && Control(value[i]) && value[i] != 9 then HeaderValue(value) == None
            else HeaderValue(value) == Some(value)
  {
    if i :| 0 <= i < |value| && Control(value[i]) && value[i] != 9 {
      assert value[i] in value;
    }
  }

  predicate DecimalDigit(b: byte) {
    Between(b, 48, 57)
  }

  function DecimalValue(s: Bytes): nat
    requires forall b :: b in s ==> DecimalDigit(b)
  {
    if s == [] then 0
    else
      assert DecimalDigit(s[|s| - 1]);
      DecimalValue(s[..|s| - 1]) * 10 + (s[|s| - 1] as int - 48)
  }

  function ParseLength(s: Bytes): Option<nat> {
    var digits := if s != [] && s[0] == PLUS then s[1..] else s;
    if digits != [] && (forall b :: b in digits ==> DecimalDigit(b)) && DecimalValue(digits) <= USIZE_MAX
    then Some(DecimalValue(digits))
    else None
  }

  lemma DecimalShown(b: byte, value: nat)
    requires value < 10
    ensures Shows(b, value) <==> DecimalDigit(b) && b as int - 48 == value
  {
  }

  /** Reading a text of decimal digits inverts writing one. */
  lemma {:induction false} DecimalValueReads(text: Bytes, n: nat)
    ensures Writes(10, text, n) <==> text != [] && (forall b :: b in text ==> DecimalDigit(b)) && DecimalValue(text) == n
  {
    if text != [] {
      var front, last := text[..|text| - 1], text[|text| - 1];
      DecimalShown(last, n % 10);
      assert DecimalDigit(last) ==> 0 <= last as int - 48 < 10;
      hide Shows, DecimalDigit;
      assert forall b :: b in text <==> b in front || b == last;
      if front == [] {
        assert DecimalDigit(last) ==> DecimalValue(text) == last as int - 48;
      } else {
        DecimalValueReads(front, n / 10);
      }
    }
  }

  lemma ParseLengthReads(text: Bytes, n: nat)
    ensures ParseLength(text) == Some(n) <==> Number(10, text, n)
  {
    DecimalValueReads(text, n);
    if text != [] && text[0] == PLUS {
      DecimalValueReads(text[1..], n);
      assert text[0] in text && !DecimalDigit(PLUS);
    }
    hide Writes, DecimalValue;
  }

  function Ascii(s: string): Bytes {
    seq(|s|, i requires 0 <= i < |s| => if s[i] as int < 128 then s[i] as int else 0)
  }

  const CONTENT_TYPE := Ascii("content-type")
  const CONTENT_ENCODING := Ascii("content-encoding")
  const TRANSFER_ENCODING := Ascii("transfer-encoding")
  const CONTENT_LENGTH := Ascii("content-length")
  const CHUNKED := Ascii("chunked")

  datatype Meta = Meta(contentType: Option<Bytes>, contentEncoding: Option<Bytes>, chunked: bool, length: Option<nat>)

  const NO_META := Meta(None, None, false, None)

  /** What one more header makes of those before it; a repeated or unreadable framing header refuses the response. */
  function WithHeader(m: Meta, h: Header): Option<Meta> {
    if SameText(h.name, CONTENT_TYPE) then Some(m.(contentType := HeaderValue(h.value)))
    else if SameText(h.name, CONTENT_ENCODING) then Some(m.(contentEncoding := HeaderValue(h.value)))
    else if SameText(h.name, TRANSFER_ENCODING) then
      if m.chunked || !SameText(h.value, CHUNKED) then None else Some(m.(chunked := true))
    else if SameText(h.name, CONTENT_LENGTH) then
      if m.length.Some? then None
      else
        var length := ParseLength(h.value);
        if length.None? || length.value > MAX_ERROR_BODY_BYTES then None else Some(m.(length := length))
    else Some(m)
  }

  function Metadata(headers: seq<Header>): Option<Meta> {
    if headers == [] then Some(NO_META)
    else
      match Metadata(headers[..|headers| - 1])
      case None => None
      case Some(m) => WithHeader(m, headers[|headers| - 1])
  }

  /** The one header with this name. */
  ghost predicate Sole(headers: seq<Header>, name: Bytes, i: nat) {
    && i < |headers| && SameText(headers[i].name, name)
    && forall j :: 0 <= j < |headers| && SameText(headers[j].name, name) ==> j == i
  }

  ghost predicate Absent(headers: seq<Header>, name: Bytes) {
    forall j :: 0 <= j < |headers| ==> !SameText(headers[j].name, name)
  }

  /** Where the value of a header that may repeat comes from: its last occurrence. */
  ghost predicate FromLast(headers: seq<Header>, name: Bytes, value: Option<Bytes>) {
    if Absent(headers, name) then value == None
    else exists i :: 0 <= i < |headers| && SameText(headers[i].name, name) && value == HeaderValue(headers[i].value)
                     && forall j :: i < j < |headers| ==> !SameText(headers[j].name, name)
  }

  /** Framing accepted from the headers is unambiguous. */
  ghost predicate Unambiguous(headers: seq<Header>, m: Meta) {
    && (if m.chunked
        then exists i: nat :: i < |headers| && Sole(headers, TRANSFER_ENCODING, i) && SameText(headers[i].value, CHUNKED)
        else Absent(headers, TRANSFER_ENCODING))
    && (if m.length.Some?
        then && m.length.value <= MAX_ERROR_BODY_BYTES
             && exists i: nat :: i < |headers| && Sole(headers, CONTENT_LENGTH, i) && Number(10, headers[i].value, m.length.value)
        else Absent(headers, CONTENT_LENGTH))
  }

  lemma SoleAppend(headers: seq<Header>, h: Header, name: Bytes, i: nat)
    ensures Sole(headers, name, i) && !SameText(h.name, name) ==> Sole(headers + [h], name, i)
    ensures Absent(headers, name) && SameText(h.name, name) ==> Sole(headers + [h], name, |headers|)
    ensures Absent(headers, name) && !SameText(h.name, name) ==> Absent(headers + [h], name)
  {
    hide SameText;
  }

  lemma FromLastAppend(headers: seq<Header>, h: Header, name: Bytes, value: Option<Bytes>)
    requires FromLast(headers, name, value)
    ensures FromLast(headers + [h], name, if SameText(h.name, name) then HeaderValue(h.value) else value)
  {
    hide SameText, HeaderValue;
    var all := headers + [h];
    if SameText(h.name, name) {
      assert SameText(all[|headers|].name, name);
    } else if !Absent(headers, name) {
      var i :| 0 <= i < |headers| && SameText(headers[i].name, name) && value == HeaderValue(headers[i].value)
        && forall j :: i < j < |headers| ==> !SameText(headers[j].name, name);
      assert all[i] == headers[i];
    } else {
      SoleAppend(headers, h, name, 0);
    }
  }

  lemma UnambiguousAppend(headers: seq<Header>, m: Meta, h: Header, m': Meta)
    requires Unambiguous(headers, m) && WithHeader(m, h) == Some(m')
    ensures Unambiguous(headers + [h], m')
  {
    NamesDiffer(h.name);
    hide SameText, ParseLength, Sole, Absent, Number;
    var all := headers + [h];
    SoleAppend(headers, h, TRANSFER_ENCODING, 0);
    SoleAppend(headers, h, CONTENT_LENGTH, 0);
    if m.chunked {
      var i: nat :| i < |headers| && Sole(headers, TRANSFER_ENCODING, i) && SameText(headers[i].value, CHUNKED);
      SoleAppend(headers, h, TRANSFER_ENCODING, i);
      assert all[i] == headers[i];
    } else if m'.chunked {
      assert all[|headers|] == h;
    }
    if m.length.Some? {
      var i: nat :| i < |headers| && Sole(headers, CONTENT_LENGTH, i) && Number(10, headers[i].value, m.length.value);
      SoleAppend(headers, h, CONTENT_LENGTH, i);
      assert all[i] == headers[i];
    } else if m'.length.Some? {
      assert all[|headers|] == h;
      ParseLengthReads(h.value, m'.length.value);
    }
  }

  lemma NamesDiffer(name: Bytes)
    ensures SameText(name, TRANSFER_ENCODING) ==>
              !SameText(name, CONTENT_LENGTH) && !SameText(name, CONTENT_TYPE) && !SameText(name, CONTENT_ENCODING)
    ensures SameText(name, CONTENT_LENGTH) ==> !SameText(name, CONTENT_TYPE) && !SameText(name, CONTENT_ENCODING)
    ensures SameText(name, CONTENT_ENCODING) ==> !SameText(name, CONTENT_TYPE)
  {
  }

  /**
   Accepted headers frame the body in one way: chunked from a sole transfer-encoding header, a length from a sole
   content-length header; the page's type and encoding are the last ones sent.
   */
  lemma {:induction false} MetadataIsUnambiguous(headers: seq<Header>)
    requires Metadata(headers).Some?
    ensures Unambiguous(headers, Metadata(headers).value)
    ensures FromLast(headers, CONTENT_TYPE, Metadata(headers).value.contentType)
    ensures FromLast(headers, CONTENT_ENCODING, Metadata(headers).value.contentEncoding)
  {
    if headers != [] {
      var front, h := headers[..|headers| - 1], headers[|headers| - 1];
      MetadataIsUnambiguous(front);
      var m := Metadata(front).value;
      UnambiguousAppend(front, m, h, Metadata(headers).value);
      FromLastAppend(front, h, CONTENT_TYPE, m.contentType);
      FromLastAppend(front, h, CONTENT_ENCODING, m.contentEncoding);
      NamesDiffer(h.name);
      assert front + [h] == headers;
      hide SameText, Unambiguous, FromLast, HeaderValue, ParseLength;
    }
  }

  /** A length that can be read and is within the limit. */
  ghost predicate LengthText(text: Bytes) {
    exists n: nat :: n <= MAX_ERROR_BODY_BYTES && Number(10, text, n)
  }

  /** Headers a response is accepted with: at most one framing header of each kind, which can be read. */
  ghost predicate Acceptable(headers: seq<Header>) {
    forall i: nat :: i < |headers| ==>
      && (SameText(headers[i].name, TRANSFER_ENCODING) ==>
            Sole(headers, TRANSFER_ENCODING, i) && SameText(headers[i].value, CHUNKED))
      && (SameText(headers[i].name, CONTENT_LENGTH) ==>
            Sole(headers, CONTENT_LENGTH, i) && LengthText(headers[i].value))
  }

  lemma AcceptableFront(headers: seq<Header>, h: Header)
    requires Acceptable(headers + [h])
    ensures Acceptable(headers)
    ensures SameText(h.name, TRANSFER_ENCODING) ==> Absent(headers, TRANSFER_ENCODING) && SameText(h.value, CHUNKED)
    ensures SameText(h.name, CONTENT_LENGTH) ==>
              Absent(headers, CONTENT_LENGTH) && LengthText(h.value)
  {
    hide SameText, LengthText;
    var all := headers + [h];
    assert all[|headers|] == h;
    forall i: nat | i < |headers| ensures all[i] == headers[i] {
    }
  }

  lemma AcceptableAppend(headers: seq<Header>, h: Header)
    requires Acceptable(headers)
    requires SameText(h.name, TRANSFER_ENCODING) ==> Absent(headers, TRANSFER_ENCODING) && SameText(h.value, CHUNKED)
    requires SameText(h.name, CONTENT_LENGTH) ==>
               Absent(headers, CONTENT_LENGTH) && LengthText(h.value)
    ensures Acceptable(headers + [h])
  {
    hide SameText, LengthText;
    var all := headers + [h];
    forall i: nat | i < |all| ensures i < |headers| ==> all[i] == headers[i] {
    }
  }

  /** The headers are accepted exactly when each framing header is alone and readable. */
  lemma {:induction false} MetadataAccepts(headers: seq<Header>)
    ensures Metadata(headers).Some? <==> Acceptable(headers)
  {
    if headers != [] {
      var front, h := headers[..|headers| - 1], headers[|headers| - 1];
      assert front + [h] == headers;
      MetadataAccepts(front);
      if Acceptable(headers) {
        AcceptableFront(front, h);
      }
      if Metadata(front).Some? {
        MetadataIsUnambiguous(front);
        AcceptsNext(front, Metadata(front).value, h);
        if WithHeader(Metadata(front).value, h).Some? {
          AcceptableAppend(front, h);
        }
      }
      hide SameText, Acceptable, Unambiguous, WithHeader;
    }
  }

  lemma AcceptsNext(headers: seq<Header>, m: Meta, h: Header)
    requires Unambiguous(headers, m)
    ensures WithHeader(m, h).Some? <==>
              && (SameText(h.name, TRANSFER_ENCODING) ==> Absent(headers, TRANSFER_ENCODING) && SameText(h.value, CHUNKED))
              && (SameText(h.name, CONTENT_LENGTH) ==>
                    Absent(headers, CONTENT_LENGTH) && LengthText(h.value))
  {
    NamesDiffer(h.name);
    var length := ParseLength(h.value);
    if length.Some? {
      ParseLengthReads(h.value, length.value);
    }
    forall n: nat ensures Number(10, h.value, n) ==> length == Some(n) {
      ParseLengthReads(h.value, n);
    }
    hide SameText, ParseLength, Number;
  }

  // ---------- The response ----------

  function BodyOf(m: Meta, raw: Bytes, eof: bool): Option<Bytes> {
    if m.chunked && m.length.Some? then None
    else if m.chunked then Decoded(raw, [])
    else if m.length.Some? then (if m.length.value <= |raw| then Some(raw[..m.length.value]) else None)
    else if eof && |raw| <= MAX_ERROR_BODY_BYTES then Some(raw)
    else None
  }

  function PageOf(m: Meta, raw: Bytes, eof: bool): Option<Page> {
    match BodyOf(m, raw, eof)
    case None => None
    case Some(body) => Some(Page(body, m.contentType, m.contentEncoding))
  }

  /** The framing of a header block, if it is complete, small enough and well formed. */
  function Framing(tokens: Tokenizer, head: Bytes): Option<Meta> {
    if |head| > MAX_ERROR_HEADER_BYTES then None
    else
      match tokens(head)
      case None => None
      case Some(headers) => Metadata(headers)
  }

  function Parsed(tokens: Tokenizer, response: Bytes, eof: bool): Option<Page> {
    match Find(response, HEADER_END)
    case None => None
    case Some(end) =>
      match Framing(tokens, response[..end + 4])
      case None => None
      case Some(m) => PageOf(m, response[end + 4..], eof)
  }

  /** The body these headers frame in the bytes that follow them. */
  ghost predicate Frames(headers: seq<Header>, raw: Bytes, eof: bool, body: Bytes) {
    if Absent(headers, TRANSFER_ENCODING) && Absent(headers, CONTENT_LENGTH)
    then eof && |raw| <= MAX_ERROR_BODY_BYTES && body == raw
    else if Absent(headers, CONTENT_LENGTH) then Decoded(raw, []) == Some(body)
    else && Absent(headers, TRANSFER_ENCODING) && |body| <= |raw| && body == raw[..|body|]
         && exists i: nat :: i < |headers| && Sole(headers, CONTENT_LENGTH, i) && Number(10, headers[i].value, |body|)
  }

  lemma FromLastUnique(headers: seq<Header>, name: Bytes, a: Option<Bytes>, b: Option<Bytes>)
    requires FromLast(headers, name, a) && FromLast(headers, name, b)
    ensures a == b
  {
    hide SameText, HeaderValue;
  }

  lemma BodyIsFramed(headers: seq<Header>, raw: Bytes, eof: bool, body: Bytes)
    requires Metadata(headers).Some?
    ensures BodyOf(Metadata(headers).value, raw, eof) == Some(body) <==> Frames(headers, raw, eof, body)
  {
    var m := Metadata(headers).value;
    MetadataIsUnambiguous(headers);
    hide SameText, Metadata, Decoded, Number, ParseLength;
    if m.length.Some? {
      var i: nat :| i < |headers| && Sole(headers, CONTENT_LENGTH, i) && Number(10, headers[i].value, m.length.value);
      NumberIsOne(headers[i].value, m.length.value, |body|);
      assert forall j: nat :: Sole(headers, CONTENT_LENGTH, j) ==> j == i;
    }
  }

  lemma NumberIsOne(text: Bytes, a: nat, b: nat)
    requires Number(10, text, a)
    ensures Number(10, text, b) ==> a == b
  {
    ParseLengthReads(text, a);
    ParseLengthReads(text, b);
  }

  /**
   A response parses to a page exactly when its header block is complete, small enough and acceptable, the page's
   body is the one it frames, and its type and encoding are the last ones sent.
   */
  lemma PageIsAsSent(tokens: Tokenizer, response: Bytes, eof: bool, page: Page)
    ensures Parsed(tokens, response, eof) == Some(page) <==>
              var end := Find(response, HEADER_END);
              && end.Some? && end.value + 4 <= MAX_ERROR_HEADER_BYTES && tokens(response[..end.value + 4]).Some?
              && var headers, raw := tokens(response[..end.value + 4]).value, response[end.value + 4..];
                 && Acceptable(headers) && Frames(headers, raw, eof, page.body)
                 && FromLast(headers, CONTENT_TYPE, page.contentType)
                 && FromLast(headers, CONTENT_ENCODING, page.contentEncoding)
  {
    hide Find, Metadata, BodyOf, Acceptable, Frames, FromLast, SameText;
    var end := Find(response, HEADER_END);
    if end.Some? && end.value + 4 <= MAX_ERROR_HEADER_BYTES && tokens(response[..end.value + 4]).Some? {
      var headers, raw := tokens(response[..end.value + 4]).value, response[end.value + 4..];
      MetadataAccepts(headers);
      if Metadata(headers).Some? {
        PageIsFramed(headers, raw, eof, page);
      }
    }
  }

  lemma PageIsFramed(headers: seq<Header>, raw: Bytes, eof: bool, page: Page)
    requires Metadata(headers).Some?
    ensures PageOf(Metadata(headers).value, raw, eof) == Some(page) <==>
              && Frames(headers, raw, eof, page.body)
              && FromLast(headers, CONTENT_TYPE, page.contentType)
              && FromLast(headers, CONTENT_ENCODING, page.contentEncoding)
  {
    var m := Metadata(headers).value;
    hide Metadata, BodyOf, Frames, FromLast, SameText;
    BodyIsFramed(headers, raw, eof, page.body);
    MetadataIsUnambiguous(headers);
    if FromLast(headers, CONTENT_TYPE, page.contentType) {
      FromLastUnique(headers, CONTENT_TYPE, m.contentType, page.contentType);
    }
    if FromLast(headers, CONTENT_ENCODING, page.contentEncoding) {
      FromLastUnique(headers, CONTENT_ENCODING, m.contentEncoding, page.contentEncoding);
    }
  }

  /** The header loop. */
  method ReadHeaders(headers: seq<Header>) returns (meta: Option<Meta>)
    ensures meta == Metadata(headers)
  {
    hide WithHeader;
    var m := NO_META;
    var i := 0;
    while i < |headers|
      invariant 0 <= i <= |headers| && Metadata(headers[..i]) == Some(m)
    {
      assert headers[..i + 1][..i] == headers[..i];
      var next := WithHeader(m, headers[i]);
      i := i + 1;
      if next.None? {
        RefusedStays(headers, i);
        return None;
      }
      m := next.value;
    }
    assert headers[..i] == headers;
    meta := Some(m);
  }

  method ParseHttpResponse(tokens: Tokenizer, response: Bytes, eof: bool) returns (page: Option<Page>)
    ensures page == Parsed(tokens, response, eof)
  {
    hide Find, Metadata, Decoded;
    var end := Find(response, HEADER_END);
    if end.None? || end.value + 4 > MAX_ERROR_HEADER_BYTES {
      return None;
    }
    var headers := tokens(response[..end.value + 4]);
    if headers.None? {
      return None;
    }
    var meta := ReadHeaders(headers.value);
    if meta.None? || (meta.value.chunked && meta.value.length.Some?) {
      return None;
    }
    var m, raw := meta.value, response[end.value + 4..];
    var body;
    if m.chunked {
      body := DecodeChunked(raw);
    } else if m.length.Some? {
      body := if m.length.value <= |raw| then Some(raw[..m.length.value]) else None;
    } else if eof && |raw| <= MAX_ERROR_BODY_BYTES {
      body := Some(raw);
    } else {
      body := None;
    }
    page := if body.Some? then Some(Page(body.value, m.contentType, m.contentEncoding)) else None;
  }

  lemma {:induction false} RefusedStays(headers: seq<Header>, n: nat)
    requires n <= |headers| && Metadata(headers[..n]) == None
    ensures Metadata(headers) == None
  {
    if n == |headers| {
      assert headers[..n] == headers;
    } else {
      assert headers[..|headers| - 1][..n] == headers[..n];
      RefusedStays(headers[..|headers| - 1], n);
    }
  }

  // ---------- More bytes never change a page ----------

  lemma BodyExtends(m: Meta, raw: Bytes, more: Bytes, eof: bool)
    requires BodyOf(m, raw, false).Some?
    ensures BodyOf(m, raw + more, eof) == BodyOf(m, raw, false)
  {
    if m.chunked {
      DecodedExtends(raw, [], more);
    } else {
      CutConcat(raw, more, m.length.value);
    }
  }

  /** A response parsed before the end of the stream parses to the same page from any extension. */
  lemma ParsedExtends(tokens: Tokenizer, response: Bytes, more: Bytes, eof: bool)
    requires Parsed(tokens, response, false).Some?
    ensures Parsed(tokens, response + more, eof) == Parsed(tokens, response, false)
  {
    FindExtends(response, HEADER_END, more);
    hide Find, Framing, BodyOf;
    var end := Find(response, HEADER_END).value;
    CutConcat(response, more, end + 4);
    BodyExtends(Framing(tokens, response[..end + 4]).value, response[end + 4..], more, eof);
  }

  // ---------- The reading loop ----------

  /** One read: some bytes, the end of the stream, or a failure or timeout. */
  datatype Read = Got(bytes: Bytes) | Eof | Failed

  function Stream(pieces: seq<Read>): Bytes {
    if pieces == [] then []
    else Stream(pieces[..|pieces| - 1]) + if pieces[|pieces| - 1].Got? then pieces[|pieces| - 1].bytes else []
  }

  /** Pieces that deliver a stream piece by piece and then its end. */
  predicate Delivers(pieces: seq<Read>, stream: Bytes) {
    && |pieces| > 0 && pieces[|pieces| - 1].Eof? && Stream(pieces) == stream
    && forall i :: 0 <= i < |pieces| - 1 ==> pieces[i].Got?
  }

  /** Pieces read from a stream in order, where an end is read only at its end; it may never be. */
  predicate ReadsFrom(pieces: seq<Read>, stream: Bytes) {
    && Stream(pieces) <= stream
    && forall i :: 0 <= i < |pieces| && pieces[i].Eof? ==> Stream(pieces[..i]) == stream
  }

  lemma {:induction false} StreamPrefix(pieces: seq<Read>, n: nat)
    requires n <= |pieces|
    ensures Stream(pieces[..n]) <= Stream(pieces)
  {
    if n == |pieces| {
      assert pieces[..n] == pieces;
    } else {
      StreamPrefix(pieces[..|pieces| - 1], n);
      assert pieces[..|pieces| - 1][..n] == pieces[..n];
    }
  }

  /** A long enough start of a response that parses already holds its header end. */
  lemma HeaderArrives(tokens: Tokenizer, response: Bytes, more: Bytes, eof: bool)
    requires Parsed(tokens, response + more, eof).Some? && |response| > MAX_ERROR_HEADER_BYTES
    ensures Find(response, HEADER_END).Some?
  {
    hide PageOf;
    FindInPrefix(response, HEADER_END, more, Find(response + more, HEADER_END).value);
  }

  lemma {:induction false} FindInPrefix(s: Bytes, pattern: Bytes, more: Bytes, at: nat)
    requires Find(s + more, pattern) == Some(at) && at + |pattern| <= |s|
    ensures Find(s, pattern) == Some(at)
  {
    CutConcat(s, more, |pattern|);
    if at > 0 {
      assert (s + more)[1..] == s[1..] + more;
      FindInPrefix(s[1..], pattern, more, at - 1);
    }
  }

  /**
   Reads until the response parses, the stream ends or a limit is passed. Whatever the reads, a page returned is
   the page of the whole stream; and when they deliver a whole stream within the wire limit, the result is exactly
   what the stream parses to.
   */
  method ReadResponse(tokens: Tokenizer, pieces: seq<Read>, ghost stream: Bytes) returns (page: Option<Page>)
    requires ReadsFrom(pieces, stream)
    ensures page.Some? ==> Parsed(tokens, stream, true) == page
    ensures Delivers(pieces, stream) && |stream| <= MAX_WIRE_BYTES ==> page == Parsed(tokens, stream, true)
  {
    var response: Bytes := [];
    var i := 0;
    while i < |pieces|
      invariant 0 <= i <= |pieces| && response == Stream(pieces[..i])
      invariant Delivers(pieces, stream) ==> i < |pieces|
    {
      hide Parsed, Find;
      StreamPrefix(pieces, i);
      match pieces[i] {
        case Failed => return None;
        case Eof =>
          page := ParseHttpResponse(tokens, response, true);
          return;
        case Got(bytes) =>
          assert pieces[..i + 1][..i] == pieces[..i];
          StreamPrefix(pieces, i + 1);
          if |response| + |bytes| > MAX_WIRE_BYTES {
            return None;
          }
          response := response + bytes;
          i := i + 1;
          var more := stream[|response|..];
          assert stream == response + more;
          if Find(response, HEADER_END).None? && |response| > MAX_ERROR_HEADER_BYTES {
            if Parsed(tokens, stream, true).Some? {
              HeaderArrives(tokens, response, more, true);
            }
            return None;
          }
          page := ParseHttpResponse(tokens, response, false);
          if page.Some? {
            ParsedExtends(tokens, response, more, true);
            return;
          }
      }
    }
    page := None;
  }

  /**
   Two ways of reading from one stream, to its end or not, give one page if both give one. If both deliver
   the whole stream within the wire limit they give one result.
   */
  method SplitsAgree(tokens: Tokenizer, stream: Bytes, one: seq<Read>, other: seq<Read>)
    returns (first: Option<Page>, second: Option<Page>)
    requires ReadsFrom(one, stream) && ReadsFrom(other, stream)
    ensures first.Some? && second.Some? ==> first == second
    ensures Delivers(one, stream) && Delivers(other, stream) && |stream| <= MAX_WIRE_BYTES ==>
              first == second == Parsed(tokens, stream, true)
  {
    hide Parsed;
    first := ReadResponse(tokens, one, stream);
    second := ReadResponse(tokens, other, stream);
  }
}
