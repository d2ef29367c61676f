/**
 The chunked transfer coding as the exporter's response reader decodes it (section 7.1 of
 RFC 9112), as a function of the complete body bytes, and what it means: a characterisation
 by the list of chunks a body is made of, in both directions.
 */
module ChunkedCoding {
  import opened Wrappers
  import opened ByteSearch
  import opened Text

  const MAX_RESPONSE_BODY_BYTES: nat := 1024 * 1024
  const USIZE_MAX: nat := 0xFFFF_FFFF_FFFF_FFFF

  datatype ReadError =
    | TimedOut
    | ClosedInHead
    | HeadTooLong
    | BadStatusLine
    | BadStatus
    | DeclaredTooLong
    | ClosedMidBody
    | ClosedMidChunk
    | BadChunkSize
    | ChunkTooLong
    | BodyTooLong
    | SizeOverflow

  // ---------- The chunk-size line ----------

  predicate IsSpace(b: byte) {
    b == 32 || 9 <= b <= 13
  }

  /** The bytes before the first semicolon: what is left of a size line without extensions. */
  function UpToSemicolon(s: seq<byte>): (r: seq<byte>) {
    if s == [] || s[0] == 59 then [] else [s[0]] + UpToSemicolon(s[1..])
  }

  function HexValue(b: byte): Option<nat> {
    if 48 <= b <= 57 then Some(b as nat - 48)
    else if 65 <= b <= 70 then Some(b as nat - 55)
    else if 97 <= b <= 102 then Some(b as nat - 87)
    else None
  }

  /** The number a digit string denotes, whatever its size. */
  function HexNumber(s: seq<byte>): Option<nat> {
    if s == [] then Some(0)
    else
      var high, low := HexNumber(s[..|s| - 1]), HexValue(s[|s| - 1]);
      if high.Some? && low.Some? then Some(16 * high.value + low.value) else None
  }

  /** `usize::from_str_radix(s, 16)`: one optional plus sign, at least one digit, no overflow. */
  function ParseHex(s: seq<byte>): Option<nat> {
    var digits := if s != [] && s[0] == 43 then s[1..] else s;
    if digits == [] then None
    else
      match HexNumber(digits)
      case Some(n) => if n <= USIZE_MAX then Some(n) else None
      case None => None
  }

  function ParseSizeLine(line: seq<byte>): Option<nat> {
    ParseHex(UpToSemicolon(Trim(line, IsSpace)))
  }

  // ---------- Decoding the complete body ----------

  /** What stands at the head of a body; a data chunk with its data and the bytes after it. */
  datatype HeadOfBody = Rejected(error: ReadError) | LastChunk | DataChunk(data: seq<byte>, rest: seq<byte>)

  /** Reads one size line of `s`, `decoded` bytes having been decoded before. */
  function ReadHead(decoded: nat, s: seq<byte>): (r: HeadOfBody)
    ensures r.DataChunk? ==> r.data != [] && decoded + |r.data| <= MAX_RESPONSE_BODY_BYTES && |r.rest| < |s|
  {
    match Find(s, CRLF)
    case None => Rejected(ClosedMidChunk)
    case Some(lineEnd) =>
      match ParseSizeLine(s[..lineEnd])
      case None => Rejected(BadChunkSize)
      case Some(size) =>
        if size == 0 then LastChunk
        else if size > MAX_RESPONSE_BODY_BYTES then Rejected(ChunkTooLong)
        else if decoded + size > MAX_RESPONSE_BODY_BYTES then Rejected(BodyTooLong)
        else
          var start, end := lineEnd + 2, lineEnd + 2 + size;
          if |s| < end + 2 then Rejected(ClosedMidChunk) else DataChunk(s[start..end], s[end + 2..])
  }

  /** Decodes the bytes `s` still ahead of the cursor, given what was decoded before. */
  function DecodeAfter(decoded: seq<byte>, s: seq<byte>): (r: Result<seq<byte>, ReadError>)
    ensures r.Ok? && |decoded| <= MAX_RESPONSE_BODY_BYTES ==> |r.value| <= MAX_RESPONSE_BODY_BYTES
    decreases |s|
  {
    match ReadHead(|decoded|, s)
    case Rejected(e) => Err(e)
    case LastChunk => Ok(decoded)
    case DataChunk(data, rest) => DecodeAfter(decoded + data, rest)
  }

  function DecodeChunked(raw: seq<byte>): Result<seq<byte>, ReadError> {
    DecodeAfter([], raw)
  }

  // ---------- What a chunked body is ----------

  /** A chunk: its size line without the line end, its data, and the two bytes after the data,
      which the decoder skips without looking at them. */
  datatype Chunk = Chunk(line: seq<byte>, data: seq<byte>, terminator: seq<byte>) {
    predicate Valid() {
      && Find(line, CRLF).None?
      && ParseSizeLine(line) == Some(|data|)
      && data != []
      && |terminator| == 2
    }

    function Bytes(): seq<byte> {
      line + CRLF + data + terminator
    }
  }

  function Encode(chunks: seq<Chunk>): seq<byte> {
    if chunks == [] then [] else chunks[0].Bytes() + Encode(chunks[1..])
  }

  function Payload(chunks: seq<Chunk>): seq<byte> {
    if chunks == [] then [] else chunks[0].data + Payload(chunks[1..])
  }

  predicate AllValid(chunks: seq<Chunk>) {
    forall i :: 0 <= i < |chunks| ==> chunks[i].Valid()
  }

  /** A size line announcing the last chunk. */
  predicate LastLine(line: seq<byte>) {
    Find(line, CRLF).None? && ParseSizeLine(line) == Some(0)
  }

  lemma {:induction false} LineEndFound(line: seq<byte>, rest: seq<byte>)
    requires Find(line, CRLF).None?
    ensures Find(line + CRLF + rest, CRLF) == Some(|line|)
  {
    var s := line + CRLF + rest;
    FindIsFirst(line, CRLF);
    assert Occurs(s, CRLF, |line|);
    forall q: nat | q < |line| ensures !Occurs(s, CRLF, q) {
      if q + 1 < |line| {
        assert s[q..q + 2] == line[q..q + 2];
        assert !Occurs(line, CRLF, q);
      } else {
        assert s[q..q + 2][1] == CR;
      }
    }
    FirstIsFound(s, CRLF, |line|);
  }

  lemma {:induction false} LineBeforeEnd(s: seq<byte>, p: nat)
    requires Find(s, CRLF) == Some(p)
    ensures Find(s[..p], CRLF).None?
    ensures s == s[..p] + CRLF + s[p + 2..]
  {
    FindInPrefix(s, CRLF, p);
    FindIsFirst(s, CRLF);
    assert s[p..p + 2] == CRLF;
  }

  /** Where the pieces of a leading chunk lie. */
  lemma {:induction false} LeadingChunk(c: Chunk, rest: seq<byte>)
    requires Find(c.line, CRLF).None? && |c.terminator| == 2
    ensures var s, start, end := c.Bytes() + rest, |c.line| + 2, |c.line| + 2 + |c.data|;
            && end + 2 <= |s|
            && Find(s, CRLF) == Some(|c.line|)
            && s[..|c.line|] == c.line
            && s[start..end] == c.data
            && s[end + 2..] == rest
  {
    var s := c.Bytes() + rest;
    assert s == c.line + CRLF + (c.data + c.terminator + rest);
    LineEndFound(c.line, c.data + c.terminator + rest);
  }

  lemma {:induction false} DecodeLeadingChunk(decoded: seq<byte>, c: Chunk, rest: seq<byte>)
    requires c.Valid() && |decoded| + |c.data| <= MAX_RESPONSE_BODY_BYTES
    ensures DecodeAfter(decoded, c.Bytes() + rest) == DecodeAfter(decoded + c.data, rest)
  {
    LeadingChunk(c, rest);
    assert ReadHead(|decoded|, c.Bytes() + rest) == DataChunk(c.data, rest);
  }

  lemma {:induction false} DecodeLastLine(decoded: seq<byte>, last: seq<byte>, trailer: seq<byte>)
    requires LastLine(last)
    ensures DecodeAfter(decoded, last + CRLF + trailer) == Ok(decoded)
  {
    LineEndFound(last, trailer);
    assert (last + CRLF + trailer)[..|last|] == last;
  }

  lemma {:induction false} SplitFirst(chunks: seq<Chunk>, tail: seq<byte>, decoded: seq<byte>)
    requires chunks != []
    ensures Encode(chunks) + tail == chunks[0].Bytes() + (Encode(chunks[1..]) + tail)
    ensures decoded + Payload(chunks) == (decoded + chunks[0].data) + Payload(chunks[1..])
  {
  }

  /** Decoding past a list of valid chunks whose data fits the cap collects exactly their data. */
  lemma {:induction false} DecodeOfEncode(chunks: seq<Chunk>, tail: seq<byte>, decoded: seq<byte>)
    requires AllValid(chunks) && |decoded| + |Payload(chunks)| <= MAX_RESPONSE_BODY_BYTES
    ensures DecodeAfter(decoded, Encode(chunks) + tail) == DecodeAfter(decoded + Payload(chunks), tail)
    decreases |chunks|
  {
    if chunks == [] {
      assert Encode(chunks) + tail == tail;
      assert decoded + [] == decoded;
    } else {
      SplitFirst(chunks, tail, decoded);
      DecodeLeadingChunk(decoded, chunks[0], Encode(chunks[1..]) + tail);
      DecodeOfEncode(chunks[1..], tail, decoded + chunks[0].data);
    }
  }

  lemma {:induction false} EncodeSnoc(chunks: seq<Chunk>, c: Chunk)
    ensures Encode(chunks + [c]) == Encode(chunks) + c.Bytes()
    ensures Payload(chunks + [c]) == Payload(chunks) + c.data
  {
    if chunks == [] {
      assert chunks + [c] == [c] && [c][1..] == [];
    } else {
      EncodeSnoc(chunks[1..], c);
      assert (chunks + [c])[1..] == chunks[1..] + [c];
      SplitFirst(chunks, c.Bytes(), []);
    }
  }

  lemma {:induction false} CutLastLine(decoded: nat, s: seq<byte>) returns (last: seq<byte>, trailer: seq<byte>)
    requires ReadHead(decoded, s) == LastChunk
    ensures LastLine(last) && s == last + CRLF + trailer
  {
    var lineEnd := Find(s, CRLF).value;
    LineBeforeEnd(s, lineEnd);
    last, trailer := s[..lineEnd], s[lineEnd + 2..];
  }

  /** The leading chunk of a body. */
  lemma {:induction false} CutChunk(decoded: nat, s: seq<byte>) returns (c: Chunk)
    requires ReadHead(decoded, s).DataChunk?
    ensures c.Valid() && c.data == ReadHead(decoded, s).data && s == c.Bytes() + ReadHead(decoded, s).rest
  {
    var lineEnd := Find(s, CRLF).value;
    LineBeforeEnd(s, lineEnd);
    var start := lineEnd + 2;
    var end := start + ParseSizeLine(s[..lineEnd]).value;
    c := Chunk(s[..lineEnd], s[start..end], s[end..end + 2]);
    assert s[start..] == c.data + c.terminator + s[end + 2..];
  }

  /** The converse: whatever decodes is such a list of chunks. */
  lemma {:induction false} EncodeOfDecode(decoded: seq<byte>, s: seq<byte>)
    returns (chunks: seq<Chunk>, last: seq<byte>, trailer: seq<byte>)
    requires DecodeAfter(decoded, s).Ok?
    ensures AllValid(chunks) && LastLine(last)
    ensures s == Encode(chunks) + (last + CRLF + trailer)
    ensures DecodeAfter(decoded, s) == Ok(decoded + Payload(chunks))
    decreases |s|
  {
    var head := ReadHead(|decoded|, s);
    if head == LastChunk {
      last, trailer := CutLastLine(|decoded|, s);
      chunks := [];
      assert Encode(chunks) + (last + CRLF + trailer) == last + CRLF + trailer;
      assert decoded + [] == decoded;
    } else {
      var c := CutChunk(|decoded|, s);
      chunks, last, trailer := EncodeOfDecode(decoded + c.data, head.rest);
      chunks := [c] + chunks;
      SplitFirst(chunks, last + CRLF + trailer, decoded);
    }
  }

  /** A chunked body decodes to `body` exactly when it is a list of valid chunks carrying
      `body`, a last-chunk line and any trailer, and `body` is within the cap. */
  lemma {:induction false} DecodesIffChunks(raw: seq<byte>, body: seq<byte>)
    ensures DecodeChunked(raw) == Ok(body) <==>
            exists chunks: seq<Chunk>, last, trailer ::
              && AllValid(chunks)
              && LastLine(last)
              && raw == Encode(chunks) + (last + CRLF + trailer)
              && body == Payload(chunks)
              && |body| <= MAX_RESPONSE_BODY_BYTES
  {
    if DecodeChunked(raw) == Ok(body) {
      var chunks, last, trailer := EncodeOfDecode([], raw);
      assert body == [] + Payload(chunks) == Payload(chunks);
      assert raw == Encode(chunks) + (last + CRLF + trailer);
    }
    if chunks: seq<Chunk>, last, trailer :|
      && AllValid(chunks)
      && LastLine(last)
      && raw == Encode(chunks) + (last + CRLF + trailer)
      && body == Payload(chunks)
      && |body| <= MAX_RESPONSE_BODY_BYTES
    {
      DecodeOfEncode(chunks, last + CRLF + trailer, []);
      DecodeLastLine([] + body, last, trailer);
      assert [] + Payload(chunks) == Payload(chunks);
    }
  }

  // ---------- The canonical encoding of RFC 9112 ----------

  /** A hexadecimal digit, in upper or lower case. */
  function HexDigit(n: nat, upper: bool): byte
    requires n < 16
  {
    if n < 10 then (48 + n) as byte else if upper then (55 + n) as byte else (87 + n) as byte
  }

  function HexDigits(n: nat, upper: bool): seq<byte> {
    if n < 16 then [HexDigit(n, upper)] else HexDigits(n / 16, upper) + [HexDigit(n % 16, upper)]
  }

  lemma {:induction false} HexDigitsDenote(n: nat, upper: bool)
    ensures HexDigits(n, upper) != [] && HexNumber(HexDigits(n, upper)) == Some(n)
    ensures forall i :: 0 <= i < |HexDigits(n, upper)| ==> HexValue(HexDigits(n, upper)[i]).Some?
  {
    var d := HexDigits(n, upper);
    if n < 16 {
      assert d[..0] == [];
    } else {
      HexDigitsDenote(n / 16, upper);
      assert d[..|d| - 1] == HexDigits(n / 16, upper);
    }
  }

  lemma {:induction false} NoCrNoLine(s: seq<byte>)
    requires CR !in s
    ensures Find(s, CRLF).None?
  {
    FindIsFirst(s, CRLF);
    forall p: nat ensures !Occurs(s, CRLF, p) {
      if p + 2 <= |s| {
        assert s[p..p + 2][0] in s;
      }
    }
  }

  lemma {:induction false} HexLineParses(n: nat, upper: bool)
    requires n <= USIZE_MAX
    ensures ParseSizeLine(HexDigits(n, upper)) == Some(n) && Find(HexDigits(n, upper), CRLF).None?
  {
    HexDigitsDenote(n, upper);
    var d := HexDigits(n, upper);
    forall i | 0 <= i < |d| ensures d[i] != 59 && d[i] != 43 && d[i] != CR && !IsSpace(d[i]) {
      assert HexValue(d[i]).Some?;
    }
    TrimOfTrimmed(d, IsSpace);
    SemicolonCuts(d, []);
    assert d + [] == d;
    assert ParseHex(d) == Some(n);
    NoCrNoLine(d);
  }

  /** The digits are those of section 7.1 of RFC 9112, in either case, and no other bytes. */
  lemma {:induction false} HexValueIff(b: byte, v: nat)
    ensures HexValue(b) == Some(v) <==> v < 16 && (b == HexDigit(v, false) || b == HexDigit(v, true))
  {
  }

  /** Any byte but white space, a plus sign, a semicolon or a digit before the size spoils the line. */
  lemma {:induction false} OtherBytesSpoil(b: byte, n: nat, upper: bool)
    requires b !in {9, 10, 11, 12, 13, 32, 43, 59} && HexValue(b).None?
    ensures ParseSizeLine([b] + HexDigits(n, upper)) == None
  {
    var line, d := [b] + HexDigits(n, upper), HexDigits(n, upper);
    HexDigitsDenote(n, upper);
    forall i | 0 <= i < |d|
      ensures d[i] != 59 && !IsSpace(d[i])
    {
      assert HexValue(d[i]).Some?;
    }
    assert line[|line| - 1] == d[|d| - 1];
    TrimOfTrimmed(line, IsSpace);
    SemicolonCuts(line, []);
    assert line + [] == line;
    FirstDigitNeeded(line);
  }

  lemma {:induction false} FirstDigitNeeded(s: seq<byte>)
    requires s != [] && HexValue(s[0]).None?
    ensures HexNumber(s).None?
  {
    if |s| > 1 {
      FirstDigitNeeded(s[..|s| - 1]);
    }
  }

  /** A size line may have white space around it, a plus sign before its digits, and an extension. */
  lemma {:induction false} SizeLineReads(n: nat, upper: bool, left: seq<byte>, plus: bool, extension: seq<byte>,
                                         right: seq<byte>)
    requires n <= USIZE_MAX
    requires forall i :: 0 <= i < |left| ==> left[i] in {9, 10, 11, 12, 13, 32}
    requires forall i :: 0 <= i < |right| ==> right[i] in {9, 10, 11, 12, 13, 32}
    requires extension == [] || (extension[0] == 59 && !IsSpace(extension[|extension| - 1]))
    ensures var sign := if plus then [43] else [];
            ParseSizeLine(left + (sign + HexDigits(n, upper) + extension) + right) == Some(n)
  {
    var d, sign: seq<byte> := HexDigits(n, upper), if plus then [43] else [];
    var body := sign + d + extension;
    HexDigitsDenote(n, upper);
    forall i | 0 <= i < |d|
      ensures d[i] != 59 && d[i] != 43 && !IsSpace(d[i])
    {
      assert HexValue(d[i]).Some?;
    }
    assert body[0] == (sign + d)[0];
    assert extension == [] ==> body[|body| - 1] == d[|d| - 1];
    TrimOfPadded(left, body, right, IsSpace);
    SemicolonCuts(sign + d, extension);
    assert plus ==> (sign + d)[1..] == d;
    assert !plus ==> sign + d == d;
  }

  lemma {:induction false} SemicolonCuts(s: seq<byte>, extension: seq<byte>)
    requires forall i :: 0 <= i < |s| ==> s[i] != 59
    requires extension == [] || extension[0] == 59
    ensures UpToSemicolon(s + extension) == s
  {
    if s != [] {
      assert (s + extension)[1..] == s[1..] + extension;
      SemicolonCuts(s[1..], extension);
    } else {
      assert s + extension == extension;
    }
  }

  /** The chunk of section 7.1 of RFC 9112 carrying `data`. */
  function PlainChunk(data: seq<byte>, upper: bool): Chunk {
    Chunk(HexDigits(|data|, upper), data, CRLF)
  }

  function Concat(parts: seq<seq<byte>>): seq<byte> {
    if parts == [] then [] else parts[0] + Concat(parts[1..])
  }

  function PlainChunks(parts: seq<seq<byte>>, upper: bool): (r: seq<Chunk>)
    ensures |r| == |parts| && forall i :: 0 <= i < |r| ==> r[i] == PlainChunk(parts[i], upper)
  {
    if parts == [] then [] else [PlainChunk(parts[0], upper)] + PlainChunks(parts[1..], upper)
  }

  /** The canonical chunked body carrying `parts`, up to its last-chunk line. */
  function EncodeParts(parts: seq<seq<byte>>, upper: bool): seq<byte> {
    Encode(PlainChunks(parts, upper)) + (HexDigits(0, upper) + CRLF)
  }

  /** The coding only adds bytes. */
  lemma {:induction false} PlainPayload(parts: seq<seq<byte>>, upper: bool)
    ensures Payload(PlainChunks(parts, upper)) == Concat(parts)
    ensures |Concat(parts)| <= |Encode(PlainChunks(parts, upper))|
    ensures forall i :: 0 <= i < |parts| ==> |parts[i]| <= |Concat(parts)|
  {
    if parts != [] {
      PlainPayload(parts[1..], upper);
      var chunks := PlainChunks(parts, upper);
      assert chunks[1..] == PlainChunks(parts[1..], upper);
      forall i | 0 <= i < |parts| ensures |parts[i]| <= |Concat(parts)| {
        if i > 0 {
          assert parts[i] == parts[1..][i - 1];
        }
      }
    }
  }

  /** Any list of non-empty parts within the cap survives the canonical chunked coding. */
  lemma {:induction false} PlainRoundTrip(parts: seq<seq<byte>>, upper: bool, trailer: seq<byte>)
    requires forall i :: 0 <= i < |parts| ==> parts[i] != []
    requires |Concat(parts)| <= MAX_RESPONSE_BODY_BYTES
    ensures DecodeChunked(EncodeParts(parts, upper) + trailer) == Ok(Concat(parts))
  {
    var chunks := PlainChunks(parts, upper);
    PlainPayload(parts, upper);
    forall i | 0 <= i < |chunks| ensures chunks[i].Valid() {
      assert parts[i] != [] && |parts[i]| <= |Concat(parts)|;
      HexLineParses(|parts[i]|, upper);
    }
    HexLineParses(0, upper);
    assert EncodeParts(parts, upper) + trailer == Encode(chunks) + (HexDigits(0, upper) + CRLF + trailer);
    DecodeOfEncode(chunks, HexDigits(0, upper) + CRLF + trailer, []);
    DecodeLastLine(Concat(parts), HexDigits(0, upper), trailer);
    assert [] + Payload(chunks) == Concat(parts);
  }
}
