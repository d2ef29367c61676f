/**
 The OTLP exporter's blocking HTTP/1.1 response reader and bounded writer. A socket delivers
 its bytes in fragments of arbitrary positive length, ends with an empty read, and may fail
 at any read because the export deadline passed. The methods grow their buffers read by read
 as the exporter does; the functions say what they compute from the complete byte stream.
 */
module ResponseReader {
  import opened Wrappers
  import opened ByteSearch
  import opened ChunkedCoding
  import opened HeadFragments

  const WRITE_CHUNK: nat := 64 * 1024

  /** The peer's end of the connection, as far as this exchange is concerned. */
  class Socket {
    /** What the peer sends and was not read yet; then end of stream. */
    var unread: seq<byte>
    /** What was written to the peer. */
    var sent: seq<byte>

    constructor (incoming: seq<byte>)
      ensures unread == incoming && sent == []
    {
      unread, sent := incoming, [];
    }

    /** One bounded read: `None` when the deadline passed or the socket failed, no bytes only at
        the end of the stream, otherwise some fragment of what is unread. */
    method Read(limit: nat) returns (r: Option<seq<byte>>)
      requires limit > 0
      modifies this`unread
      ensures r.None? ==> unread == old(unread)
      ensures r.Some? ==> old(unread) == r.value + unread && |r.value| <= limit
      ensures r.Some? ==> (r.value == [] <==> old(unread) == [])
    {
      var fails: bool := *;
      if fails {
        return None;
      }
      if unread == [] {
        return Some([]);
      }
      var n: nat :| 1 <= n <= limit && n <= |unread|;
      r := Some(unread[..n]);
      unread := unread[n..];
    }

    /** One send of at most `WRITE_CHUNK` bytes: `None` when the deadline passed or the socket failed,
        otherwise how many of the leading bytes the peer took, possibly none. */
    method Write(bytes: seq<byte>) returns (n: Option<nat>)
      requires |bytes| <= WRITE_CHUNK
      modifies this`sent
      ensures n.None? ==> sent == old(sent)
      ensures n.Some? ==> n.value <= |bytes| && sent == old(sent) + bytes[..n.value]
    {
      var fails: bool := *;
      if fails {
        return None;
      }
      var taken: nat :| taken <= |bytes|;
      sent := sent + bytes[..taken];
      n := Some(taken);
    }
  }

  /** Writes the whole buffer in sends of at most `WRITE_CHUNK` bytes. Success means the peer
      got exactly the buffer, failure that it got a proper prefix. */
  method WriteAllBounded(socket: Socket, buffer: seq<byte>) returns (ok: bool)
    modifies socket`sent
    ensures ok ==> socket.sent == old(socket.sent) + buffer
    ensures !ok ==> exists n: nat :: n < |buffer| && socket.sent == old(socket.sent) + buffer[..n]
  {
    var buf := buffer;
    ghost var done: nat := 0;
    assert buffer[..0] == [] && old(socket.sent) + [] == socket.sent;
    while buf != []
      invariant done <= |buffer| && buf == buffer[done..]
      invariant socket.sent == old(socket.sent) + buffer[..done]
      decreases |buf|
    {
      var n := socket.Write(if |buf| < WRITE_CHUNK then buf else buf[..WRITE_CHUNK]);
      if n.None? || n.value == 0 {
        return false;
      }
      assert buffer[..done] + buf[..n.value] == buffer[..done + n.value];
      buf := buf[n.value..];
      done := done + n.value;
    }
    assert buffer[..done] == buffer;
    return true;
  }

  // ---------- What the reader computes ----------

  /** A parsed response head: the status number and the headers that choose the framing. */
  datatype Head = Head(status: nat, contentLength: Option<nat>, chunked: bool)

  datatype Response = Response(status: nat, body: seq<byte>)

  /** `StatusCode::from_u16`. */
  predicate ValidStatus(status: nat) {
    100 <= status <= 999
  }

  function ContentLengthBody(raw: seq<byte>, len: nat): Result<seq<byte>, ReadError> {
    if len > MAX_RESPONSE_BODY_BYTES then Err(DeclaredTooLong)
    else if |raw| < len then Err(ClosedMidBody)
    else Ok(raw[..len])
  }

  function CloseDelimitedBody(raw: seq<byte>): Result<seq<byte>, ReadError> {
    if |raw| > MAX_RESPONSE_BODY_BYTES then Err(BodyTooLong) else Ok(raw)
  }

  /** The body a head announces, from all bytes after the head. Content-Length wins over the
      chunked coding. */
  function Body(head: Head, raw: seq<byte>): Result<seq<byte>, ReadError> {
    if head.contentLength.Some? then ContentLengthBody(raw, head.contentLength.value)
    else if head.chunked then DecodeChunked(raw)
    else CloseDelimitedBody(raw)
  }

  function WithStatus(head: Head, body: Result<seq<byte>, ReadError>): Result<Response, ReadError> {
    if body.Err? then Err(body.error)
    else if ValidStatus(head.status) then Ok(Response(head.status, body.value))
    else Err(BadStatus)
  }

  /** How a head is parsed; `None` is an unparseable status line. */
  type HeadParser = seq<byte> -> Option<Head>

  /** The response in a complete byte stream. */
  function Respond(parse: HeadParser, stream: seq<byte>): Result<Response, ReadError> {
    match Find(stream, BLANK_LINE)
    case None => Err(if |stream| > MAX_RESPONSE_HEAD_BYTES then HeadTooLong else ClosedInHead)
    case Some(pos) =>
      if pos + 4 > MAX_RESPONSE_HEAD_BYTES + 1024 then Err(HeadTooLong)
      else
        match parse(stream[..pos])
        case None => Err(BadStatusLine)
        case Some(head) => WithStatus(head, Body(head, stream[pos + 4..]))
  }

  // ---------- Where fragmentation cannot matter ----------

  /** How far the buffer must go for the decoder to see the end of the next size line, or that
      there is none. */
  function LineReach(s: seq<byte>): (r: nat)
    ensures r <= |s| + 1
  {
    match Find(s, CRLF)
    case None => |s| + 1
    case Some(lineEnd) => lineEnd + 2
  }

  /** Every size line the decoder can come to ends within the first `MAX_RESPONSE_BODY_BYTES + 1`
      bytes, so the buffer cannot outgrow the cap while the decoder waits for the line's end. */
  ghost predicate SizeLinesInReach(raw: seq<byte>) {
    forall chunks, tail ::
      AllValid(chunks) && |Payload(chunks)| <= MAX_RESPONSE_BODY_BYTES && raw == Encode(chunks) + tail
      ==> |Encode(chunks)| + LineReach(tail) <= MAX_RESPONSE_BODY_BYTES + 1
  }

  ghost predicate BodyInReach(head: Head, raw: seq<byte>) {
    head.contentLength.Some? || !head.chunked || SizeLinesInReach(raw)
  }

  /** The streams on which no cap depends on how reads split the bytes. */
  ghost predicate InReach(parse: HeadParser, stream: seq<byte>) {
    match Find(stream, BLANK_LINE)
    case None => true
    case Some(pos) =>
      if pos + 4 > MAX_RESPONSE_HEAD_BYTES + 1 then pos + 4 > MAX_RESPONSE_HEAD_BYTES + 1024
      else
        match parse(stream[..pos])
        case None => true
        case Some(head) => BodyInReach(head, stream[pos + 4..])
  }

  /** A head of at most 64 KiB with its blank line and a raw body of at most 1 MiB. */
  lemma {:induction false} SmallResponseInReach(parse: HeadParser, stream: seq<byte>)
    requires match Find(stream, BLANK_LINE)
             case None => true
             case Some(pos) => pos + 4 <= MAX_RESPONSE_HEAD_BYTES && |stream| - pos - 4 <= MAX_RESPONSE_BODY_BYTES
    ensures InReach(parse, stream)
  {
  }

  // ---------- The body readers ----------

  method ReadContentLength(socket: Socket, buffered: seq<byte>, len: nat) returns (r: Result<seq<byte>, ReadError>)
    modifies socket`unread
    ensures r == Err(TimedOut) || r == ContentLengthBody(buffered + old(socket.unread), len)
  {
    if len > MAX_RESPONSE_BODY_BYTES {
      return Err(DeclaredTooLong);
    }
    var body := buffered;
    while |body| < len
      invariant body + socket.unread == buffered + old(socket.unread)
      decreases |socket.unread|
    {
      var take := if len - |body| < 8192 then len - |body| else 8192;
      var chunk := socket.Read(take);
      if chunk.None? {
        return Err(TimedOut);
      }
      if chunk.value == [] {
        return Err(ClosedMidBody);
      }
      body := body + chunk.value;
    }
    assert (body + socket.unread)[..len] == body[..len];
    return Ok(body[..len]);
  }

  method ReadToClose(socket: Socket, buffered: seq<byte>) returns (r: Result<seq<byte>, ReadError>)
    modifies socket`unread
    ensures r == Err(TimedOut) || r == CloseDelimitedBody(buffered + old(socket.unread))
  {
    var body := buffered;
    while true
      invariant body + socket.unread == buffered + old(socket.unread)
      decreases |socket.unread|
    {
      if |body| > MAX_RESPONSE_BODY_BYTES {
        return Err(BodyTooLong);
      }
      var chunk := socket.Read(4096);
      if chunk.None? {
        return Err(TimedOut);
      }
      if chunk.value == [] {
        assert body + [] == body;
        return Ok(body);
      }
      body := body + chunk.value;
    }
  }

  /** Reads until the buffer holds a line end at or after the cursor. */
  method FillLine(socket: Socket, buffered: seq<byte>, cursor: nat) returns (r: Result<seq<byte>, ReadError>)
    requires cursor <= |buffered|
    modifies socket`unread
    ensures r.Ok? ==>
              && r.value + socket.unread == buffered + old(socket.unread)
              && cursor <= |r.value| && Find(r.value[cursor..], CRLF).Some?
              && (|r.value| <= |buffered| || |r.value| <= MAX_RESPONSE_BODY_BYTES + 1024)
    ensures r.Err? ==>
              var ahead := (buffered + old(socket.unread))[cursor..];
              || r.error == TimedOut
              || (r.error == ClosedMidChunk && Find(ahead, CRLF).None?)
              || (r.error == BodyTooLong && cursor + |ahead| > MAX_RESPONSE_BODY_BYTES
                  && (Find(ahead, CRLF).None? || cursor + Find(ahead, CRLF).value + 1 > MAX_RESPONSE_BODY_BYTES))
  {
    var body := buffered;
    ghost var raw := buffered + socket.unread;
    while Find(body[cursor..], CRLF).None?
      invariant body + socket.unread == raw && cursor <= |body|
      invariant |body| <= |buffered| || |body| <= MAX_RESPONSE_BODY_BYTES + 1024
      decreases |socket.unread|
    {
      assert raw[cursor..][..|body| - cursor] == body[cursor..];
      FindInPrefix(raw[cursor..], CRLF, |body| - cursor);
      if |body| > MAX_RESPONSE_BODY_BYTES {
        return Err(BodyTooLong);
      }
      var chunk := socket.Read(1024);
      if chunk.None? {
        return Err(TimedOut);
      }
      if chunk.value == [] {
        return Err(ClosedMidChunk);
      }
      body := body + chunk.value;
    }
    return Ok(body);
  }

  /** Reads until the buffer reaches `end`. */
  method FillTo(socket: Socket, buffered: seq<byte>, end: nat) returns (r: Result<seq<byte>, ReadError>)
    modifies socket`unread
    ensures r.Ok? ==>
              && r.value + socket.unread == buffered + old(socket.unread)
              && end <= |r.value| && (|r.value| <= |buffered| || |r.value| < end + 4096)
    ensures r.Err? ==>
              || r.error == TimedOut
              || (r.error == ClosedMidChunk && |buffered| + |old(socket.unread)| < end)
  {
    var body := buffered;
    ghost var raw := buffered + socket.unread;
    while |body| < end
      invariant body + socket.unread == raw
      invariant |body| <= |buffered| || |body| < end + 4096
      decreases |socket.unread|
    {
      var chunk := socket.Read(4096);
      if chunk.None? {
        return Err(TimedOut);
      }
      if chunk.value == [] {
        return Err(ClosedMidChunk);
      }
      body := body + chunk.value;
    }
    return Ok(body);
  }

  function CheckedAdd(a: nat, b: nat): Option<nat> {
    if a + b <= USIZE_MAX then Some(a + b) else None
  }

  /** Caps the declared size of a chunk whose data starts at `cursor`, and says where its data
      and its line end stop. With the buffer bounded no sum wraps. */
  method FrameChunk(cursor: nat, decoded: nat, size: nat) returns (r: Result<(nat, nat), ReadError>)
    requires cursor <= BufferBound(decoded) && decoded <= MAX_RESPONSE_BODY_BYTES
    ensures if size > MAX_RESPONSE_BODY_BYTES then r == Err(ChunkTooLong)
            else if decoded + size > MAX_RESPONSE_BODY_BYTES then r == Err(BodyTooLong)
            else r == Ok((cursor + size, cursor + size + 2))
  {
    if size > MAX_RESPONSE_BODY_BYTES {
      return Err(ChunkTooLong);
    }
    var total := CheckedAdd(decoded, size);
    if total.None? || total.value > MAX_RESPONSE_BODY_BYTES {
      return Err(BodyTooLong);
    }
    var chunkEnd := CheckedAdd(cursor, size);
    if chunkEnd.None? {
      return Err(SizeOverflow);
    }
    var framedEnd := CheckedAdd(chunkEnd.value, 2);
    if framedEnd.None? {
      return Err(SizeOverflow);
    }
    return Ok((chunkEnd.value, framedEnd.value));
  }

  /** How large the raw buffer can get by the time `decoded` bytes are decoded: past the cap it
      grows only while chunk data is read, by that data and less than one read. */
  function BufferBound(decoded: nat): nat {
    MAX_RESPONSE_BODY_BYTES + 1024 + 4098 * decoded
  }

  /** One chunk of the chunked reader: the buffer and cursor after it and its data, no data for
      the last chunk. */
  method ReadChunk(socket: Socket, buffered: seq<byte>, cursor: nat, decoded: nat)
    returns (r: Result<(seq<byte>, nat, seq<byte>), ReadError>)
    requires cursor <= |buffered| <= BufferBound(decoded) && decoded <= MAX_RESPONSE_BODY_BYTES
    modifies socket`unread
    ensures var raw := buffered + old(socket.unread);
            match r
            case Err(e) =>
              || e == TimedOut
              || ReadHead(decoded, raw[cursor..]) == Rejected(e)
              || (e == BodyTooLong && cursor + LineReach(raw[cursor..]) > MAX_RESPONSE_BODY_BYTES + 1)
            case Ok((body, next, data)) =>
              if data == [] then ReadHead(decoded, raw[cursor..]) == LastChunk
              else
                && next <= |body| <= BufferBound(decoded + |data|)
                && body + socket.unread == raw
                && ReadHead(decoded, raw[cursor..]) == DataChunk(data, raw[next..])
  {
    ghost var raw := buffered + socket.unread;
    var filled := FillLine(socket, buffered, cursor);
    if filled.Err? {
      return Err(filled.error);
    }
    var body := filled.value;
    LineInBuffer(raw, body, cursor);
    var lineEnd := cursor + Find(body[cursor..], CRLF).value;
    var size := ParseSizeLine(body[cursor..lineEnd]);
    if size.None? {
      return Err(BadChunkSize);
    }
    if size.value == 0 {
      return Ok((body, lineEnd + 2, []));
    }
    r := TakeData(socket, body, cursor, lineEnd, size.value, decoded);
  }

  /** The rest of a chunk of positive size: the caps, then the data and its line end. */
  method TakeData(socket: Socket, buffered: seq<byte>, cursor: nat, lineEnd: nat, size: nat, decoded: nat)
    returns (r: Result<(seq<byte>, nat, seq<byte>), ReadError>)
    requires cursor <= lineEnd && lineEnd + 2 <= |buffered| <= BufferBound(decoded)
    requires decoded <= MAX_RESPONSE_BODY_BYTES && size > 0
    requires Find((buffered + socket.unread)[cursor..], CRLF) == Some(lineEnd - cursor)
    requires ParseSizeLine((buffered + socket.unread)[cursor..][..lineEnd - cursor]) == Some(size)
    modifies socket`unread
    ensures var raw := buffered + old(socket.unread);
            match r
            case Err(e) => e == TimedOut || ReadHead(decoded, raw[cursor..]) == Rejected(e)
            case Ok((body, next, data)) =>
              && next <= |body| <= BufferBound(decoded + |data|)
              && body + socket.unread == raw
              && ReadHead(decoded, raw[cursor..]) == DataChunk(data, raw[next..])
  {
    ghost var raw := buffered + socket.unread;
    var frame := FrameChunk(lineEnd + 2, decoded, size);
    if frame.Err? {
      return Err(frame.error);
    }
    var (chunkEnd, framedEnd) := frame.value;
    var filled := FillTo(socket, buffered, framedEnd);
    if filled.Err? {
      return Err(filled.error);
    }
    var body := filled.value;
    return Ok((body, framedEnd, body[lineEnd + 2..chunkEnd]));
  }

  /** Where the chunked reader stands: it has passed a list of valid chunks and kept their data. */
  ghost predicate PastChunks(raw: seq<byte>, chunks: seq<Chunk>, cursor: nat, decoded: seq<byte>) {
    && AllValid(chunks)
    && cursor == |Encode(chunks)| <= |raw| && raw == Encode(chunks) + raw[cursor..]
    && decoded == Payload(chunks) && |decoded| <= MAX_RESPONSE_BODY_BYTES
  }

  lemma {:induction false} PassChunk(raw: seq<byte>, chunks: seq<Chunk>, cursor: nat, decoded: seq<byte>,
                                     next: nat, data: seq<byte>)
    returns (longer: seq<Chunk>)
    requires PastChunks(raw, chunks, cursor, decoded)
    requires next <= |raw| && ReadHead(|decoded|, raw[cursor..]) == DataChunk(data, raw[next..])
    ensures PastChunks(raw, longer, next, decoded + data) && cursor < next
  {
    var c := CutChunk(|decoded|, raw[cursor..]);
    EncodeSnoc(chunks, c);
    longer := chunks + [c];
    assert raw == Encode(chunks) + (c.Bytes() + raw[next..]) == Encode(longer) + raw[next..];
  }

  /** What the reader answers from where it stands is what the complete body decodes to. */
  lemma {:induction false} AnswerHere(raw: seq<byte>, chunks: seq<Chunk>, cursor: nat, decoded: seq<byte>)
    requires PastChunks(raw, chunks, cursor, decoded)
    ensures match ReadHead(|decoded|, raw[cursor..])
            case Rejected(e) => DecodeChunked(raw) == Err(e)
            case LastChunk => DecodeChunked(raw) == Ok(decoded)
            case DataChunk(_, _) => true
    ensures SizeLinesInReach(raw) ==> cursor + LineReach(raw[cursor..]) <= MAX_RESPONSE_BODY_BYTES + 1
  {
    DecodeOfEncode(chunks, raw[cursor..], []);
    assert [] + Payload(chunks) == decoded;
  }

  /** The chunked reader: whatever the fragments, it decodes the complete byte stream, except
      that it may give up on a size line that ends out of reach. No sum wraps. */
  method ReadChunked(socket: Socket, buffered: seq<byte>) returns (r: Result<seq<byte>, ReadError>)
    requires |buffered| <= MAX_RESPONSE_HEAD_BYTES + 1024
    modifies socket`unread
    ensures var raw := buffered + old(socket.unread);
            || r == Err(TimedOut)
            || r == DecodeChunked(raw)
            || (r == Err(BodyTooLong) && !SizeLinesInReach(raw))
  {
    var body, decoded, cursor := buffered, [], 0;
    ghost var raw := buffered + socket.unread;
    ghost var chunks: seq<Chunk> := [];
    while true
      invariant cursor <= |body| <= BufferBound(|decoded|) && body + socket.unread == raw
      invariant PastChunks(raw, chunks, cursor, decoded)
      decreases |raw| - cursor
    {
      AnswerHere(raw, chunks, cursor, decoded);
      var chunk := ReadChunk(socket, body, cursor, |decoded|);
      if chunk.Err? {
        return Err(chunk.error);
      }
      var (buffer, next, data) := chunk.value;
      if data == [] {
        return Ok(decoded);
      }
      chunks := PassChunk(raw, chunks, cursor, decoded, next, data);
      body, cursor, decoded := buffer, next, decoded + data;
    }
  }

  lemma {:induction false} LineInBuffer(raw: seq<byte>, body: seq<byte>, cursor: nat)
    requires body <= raw && cursor <= |body| && Find(body[cursor..], CRLF).Some?
    ensures var p := Find(body[cursor..], CRLF).value;
            && Find(raw[cursor..], CRLF) == Some(p)
            && raw[cursor..][..p] == body[cursor..cursor + p]
  {
    assert raw[cursor..][..|body| - cursor] == body[cursor..];
    FindInPrefix(raw[cursor..], CRLF, |body| - cursor);
  }

  // ---------- The whole response ----------

  method ReadBody(socket: Socket, head: Head, buffered: seq<byte>) returns (r: Result<Response, ReadError>)
    requires |buffered| <= MAX_RESPONSE_HEAD_BYTES + 1024
    modifies socket`unread
    ensures var raw := buffered + old(socket.unread);
            || r == Err(TimedOut)
            || r == WithStatus(head, Body(head, raw))
            || (r == Err(BodyTooLong) && !BodyInReach(head, raw))
  {
    var body;
    if head.contentLength.Some? {
      body := ReadContentLength(socket, buffered, head.contentLength.value);
    } else if head.chunked {
      body := ReadChunked(socket, buffered);
    } else {
      body := ReadToClose(socket, buffered);
    }
    if body.Err? {
      return Err(body.error);
    }
    if !ValidStatus(head.status) {
      return Err(BadStatus);
    }
    return Ok(Response(head.status, body.value));
  }

  /** Reads until the buffer holds the blank line that ends the head. `cuts` are the fragments read. */
  method FillHead(socket: Socket) returns (r: Result<seq<byte>, ReadError>, ghost cuts: seq<nat>)
    modifies socket`unread
    ensures match r
            case Ok(buf) =>
              Find(buf, BLANK_LINE).Some? && HeadRun(old(socket.unread), cuts, Ok(Find(buf, BLANK_LINE).value))
            case Err(e) => e != TimedOut ==> HeadRun(old(socket.unread), cuts, Err(e))
    ensures var stream := old(socket.unread);
            match r
            case Ok(buf) =>
              && buf + socket.unread == stream && |buf| <= MAX_RESPONSE_HEAD_BYTES + 1024
              && Find(buf, BLANK_LINE).Some? && Find(stream, BLANK_LINE) == Find(buf, BLANK_LINE)
            case Err(e) =>
              || e == TimedOut
              || (e == ClosedInHead && Find(stream, BLANK_LINE).None? && |stream| <= MAX_RESPONSE_HEAD_BYTES)
              || (e == HeadTooLong && |stream| > MAX_RESPONSE_HEAD_BYTES
                  && (Find(stream, BLANK_LINE).None? || Find(stream, BLANK_LINE).value + 3 > MAX_RESPONSE_HEAD_BYTES))
  {
    ghost var stream := socket.unread;
    var buf: seq<byte> := [];
    cuts := [];
    while true
      invariant buf + socket.unread == stream && |buf| <= MAX_RESPONSE_HEAD_BYTES + 1024
      invariant Reading(stream, cuts, |buf|)
      decreases |socket.unread|
    {
      assert stream[..|buf|] == buf;
      FindInPrefix(stream, BLANK_LINE, |buf|);
      if Find(buf, BLANK_LINE).Some? {
        r := Ok(buf);
        return;
      }
      if |buf| > MAX_RESPONSE_HEAD_BYTES {
        r := Err(HeadTooLong);
        return;
      }
      assert Undecided(stream, |buf|);
      var chunk := socket.Read(1024);
      if chunk.None? {
        r := Err(TimedOut);
        return;
      }
      if chunk.value == [] {
        r := Err(ClosedInHead);
        return;
      }
      FragmentAdded(stream, cuts, |buf|, |chunk.value|);
      buf := buf + chunk.value;
      cuts := cuts + [|chunk.value|];
    }
  }

  /** Reads one response. Unless the deadline passes, the answer is a function of the byte stream
      alone wherever the stream is in reach; elsewhere the reader may instead report a cap. */
  method ReadResponse(socket: Socket, parse: HeadParser) returns (r: Result<Response, ReadError>)
    modifies socket`unread
    ensures var stream := old(socket.unread);
            || r == Err(TimedOut)
            || r == Respond(parse, stream)
            || (!InReach(parse, stream) && (r == Err(HeadTooLong) || r == Err(BodyTooLong)))
  {
    ghost var stream := socket.unread;
    var filled, _ := FillHead(socket);
    if filled.Err? {
      return Err(filled.error);
    }
    var buf := filled.value;
    var pos := Find(buf, BLANK_LINE).value;
    assert stream[..pos] == buf[..pos];
    assert stream[pos + 4..] == buf[pos + 4..] + socket.unread;
    var head := parse(buf[..pos]);
    if head.None? {
      return Err(BadStatusLine);
    }
    r := ReadBody(socket, head.value, buf[pos + 4..]);
  }

  /** An accepted body is at most 1 MiB in all three framings, exactly the declared length under
      Content-Length, and everything up to the close without framing. */
  lemma {:induction false} AcceptedBody(head: Head, raw: seq<byte>)
    requires Body(head, raw).Ok?
    ensures |Body(head, raw).value| <= MAX_RESPONSE_BODY_BYTES
    ensures head.contentLength.Some? ==> |Body(head, raw).value| == head.contentLength.value
    ensures head.contentLength.Some? ==> Body(head, raw).value <= raw
    ensures head.contentLength.None? && !head.chunked ==> Body(head, raw).value == raw
  {
  }

  /** A stream made of a head, the blank line and a body is taken apart just there. */
  lemma {:induction false} RespondToHead(parse: HeadParser, bytes: seq<byte>, head: Head, raw: seq<byte>)
    requires Find(bytes + BLANK_LINE, BLANK_LINE) == Some(|bytes|) && |bytes| + 4 <= MAX_RESPONSE_HEAD_BYTES
    requires parse(bytes) == Some(head)
    ensures var stream := bytes + BLANK_LINE + raw;
            && Find(stream, BLANK_LINE) == Some(|bytes|)
            && Respond(parse, stream) == WithStatus(head, Body(head, raw))
            && (BodyInReach(head, raw) ==> InReach(parse, stream))
  {
    var stream := bytes + BLANK_LINE + raw;
    assert stream[..|bytes| + 4] == bytes + BLANK_LINE;
    FindInPrefix(stream, BLANK_LINE, |bytes| + 4);
    assert stream[..|bytes|] == bytes && stream[|bytes| + 4..] == raw;
  }

  /** The stream's answer about the head is that of its fragments, wherever they do not decide. */
  lemma {:induction false} RespondByHead(parse: HeadParser, stream: seq<byte>)
    requires !InLastRead(stream)
    ensures match HeadAnswer(stream)
            case Err(e) => Respond(parse, stream) == Err(e)
            case Ok(pos) =>
              pos + 4 <= |stream|
              && Respond(parse, stream) ==
                 match parse(stream[..pos])
                 case None => Err(BadStatusLine)
                 case Some(head) => WithStatus(head, Body(head, stream[pos + 4..]))
  {
  }

  /** A response whose body is any list of non-empty parts in the canonical chunked coding is
      read back as the concatenation of the parts, on every stream of up to 1 MiB after a head
      of up to 64 KiB. */
  lemma {:induction false} ChunkedResponseRoundTrip(parse: HeadParser, bytes: seq<byte>, status: nat,
                                                    parts: seq<seq<byte>>, upper: bool, trailer: seq<byte>)
    requires Find(bytes + BLANK_LINE, BLANK_LINE) == Some(|bytes|) && |bytes| + 4 <= MAX_RESPONSE_HEAD_BYTES
    requires parse(bytes) == Some(Head(status, None, true)) && ValidStatus(status)
    requires forall i :: 0 <= i < |parts| ==> parts[i] != []
    requires |EncodeParts(parts, upper) + trailer| <= MAX_RESPONSE_BODY_BYTES
    ensures var stream := bytes + BLANK_LINE + (EncodeParts(parts, upper) + trailer);
            InReach(parse, stream) && Respond(parse, stream) == Ok(Response(status, Concat(parts)))
  {
    var raw := EncodeParts(parts, upper) + trailer;
    RespondToHead(parse, bytes, Head(status, None, true), raw);
    SmallResponseInReach(parse, bytes + BLANK_LINE + raw);
    PlainPayload(parts, upper);
    PlainRoundTrip(parts, upper, trailer);
  }

  // ---------- Which responses are accepted ----------

  /** Whether a status number is one the client's status type admits. */
  predicate IsStatus(status: nat) {
    status >= 100 && status < 1000
  }

  /** The three framings, complete or not, by their bytes alone. */
  lemma {:induction false} BodyIff(head: Head, raw: seq<byte>, body: seq<byte>)
    ensures WithStatus(head, Body(head, raw)) == Ok(Response(head.status, body))
            <==> && IsStatus(head.status)
                 && (if head.contentLength.Some? then
                       var len := head.contentLength.value;
                       len <= 1024 * 1024 && |raw| >= len && body == raw[..len]
                     else if head.chunked then DecodeChunked(raw) == Ok(body)
                     else |raw| <= 1024 * 1024 && body == raw)
  {
  }

  /**
   A response with a Content-Length is accepted exactly if the status is one, the length within the
   cap and all of the body there: a body of just its declared length is, an empty one too, and what
   follows is ignored.
   */
  lemma {:induction false} ContentLengthAcceptedIff(parse: HeadParser, bytes: seq<byte>, head: Head, raw: seq<byte>)
    requires Find(bytes + BLANK_LINE, BLANK_LINE) == Some(|bytes|) && |bytes| + 4 <= MAX_RESPONSE_HEAD_BYTES
    requires parse(bytes) == Some(head) && head.contentLength.Some?
    ensures var len, answer := head.contentLength.value, Respond(parse, bytes + BLANK_LINE + raw);
            && InReach(parse, bytes + BLANK_LINE + raw)
            && (answer.Ok? <==> IsStatus(head.status) && len <= 1024 * 1024 && |raw| >= len)
            && (answer.Ok? ==> answer.value == Response(head.status, raw[..len]))
            && (len > 1024 * 1024 ==> answer == Err(DeclaredTooLong))
            && (len <= 1024 * 1024 && |raw| < len ==> answer == Err(ClosedMidBody))
  {
    RespondToHead(parse, bytes, head, raw);
  }

  lemma {:induction false} CompleteBodyAccepted(parse: HeadParser, bytes: seq<byte>, status: nat, chunked: bool,
                                                body: seq<byte>, rest: seq<byte>)
    requires Find(bytes + BLANK_LINE, BLANK_LINE) == Some(|bytes|) && |bytes| + 4 <= MAX_RESPONSE_HEAD_BYTES
    requires parse(bytes) == Some(Head(status, Some(|body|), chunked)) && IsStatus(status) && |body| <= 1024 * 1024
    ensures Respond(parse, bytes + BLANK_LINE + (body + rest)) == Ok(Response(status, body))
  {
    ContentLengthAcceptedIff(parse, bytes, Head(status, Some(|body|), chunked), body + rest);
    assert (body + rest)[..|body|] == body;
  }

  /** A response without framing is accepted exactly if the status is one and the body within the cap. */
  lemma {:induction false} CloseDelimitedAcceptedIff(parse: HeadParser, bytes: seq<byte>, status: nat, raw: seq<byte>)
    requires Find(bytes + BLANK_LINE, BLANK_LINE) == Some(|bytes|) && |bytes| + 4 <= MAX_RESPONSE_HEAD_BYTES
    requires parse(bytes) == Some(Head(status, None, false))
    ensures var answer := Respond(parse, bytes + BLANK_LINE + raw);
            && InReach(parse, bytes + BLANK_LINE + raw)
            && (answer.Ok? <==> IsStatus(status) && |raw| <= 1024 * 1024)
            && (answer.Ok? ==> answer.value == Response(status, raw))
  {
    RespondToHead(parse, bytes, Head(status, None, false), raw);
  }
}
