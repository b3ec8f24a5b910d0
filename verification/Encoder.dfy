/**
 * Writing messages: the stream encoders put heads into one reserved buffer and bodies into fresh ones, and
 * `flushOutput` hands everything to the session. Every operation is proved to add exactly its text to the wire.
 */
module Encoder {
  import opened Chars
  import opened HeaderNames
  import opened LookupTable
  import opened HeaderList
  import opened HeaderMap
  import opened Lengths
  import opened HeaderLines
  import opened Bodies
  import opened IoBuffer

  // ---------------------------------------------------------------- texts

  /** The name a header goes out under: `:a…` as "host", any other pseudo header not at all. */
  function WireKey(key: string): Option<string> {
    if |key| > 1 && key[0] == ':' && key[1] == 'a' then Some(HOST_LEGACY)
    else if At(key, 0) == ':' then None
    else Some(key)
  }

  function LinesOf(l: seq<Header>): string {
    if l == [] then ""
    else
      var h := l[|l| - 1];
      LinesOf(l[..|l| - 1]) + if WireKey(h.name).None? then "" else Line(WireKey(h.name).value, h.value)
  }

  /** The line of a header: pseudo headers have none, but for those in ":a", the authority, which go out as host. */
  lemma {:induction false} LineInWords(l: seq<Header>, h: Header)
    ensures h.name == "" || h.name[0] != ':' ==> LinesOf(l + [h]) == LinesOf(l) + h.name + ": " + h.value + CRLF
    ensures ":a" <= h.name ==> LinesOf(l + [h]) == LinesOf(l) + "host: " + h.value + CRLF
    ensures ":" <= h.name && !(":a" <= h.name) ==> LinesOf(l + [h]) == LinesOf(l)
  {
    hide LinesOf;
    OneMoreLine(l, h);
    LineOnWire(LinesOf(l), h.name, h.value);
    LineOnWire(LinesOf(l), "host", h.value);
    assert LinesOf(l) + "" == LinesOf(l);
  }

  lemma {:induction false} OneMoreLine(l: seq<Header>, h: Header)
    ensures LinesOf(l + [h]) == LinesOf(l) + if WireKey(h.name).None? then "" else Line(WireKey(h.name).value, h.value)
  {
    assert (l + [h])[..|l|] == l;
  }

  lemma {:induction false} LineOnWire(x: string, name: string, value: string)
    ensures x + Line(name, value) == x + name + ": " + value + CRLF
  {
  }

  /** What decides the framing of a message: the end of the stream, HTTP/1.0, and a "100 Continue" head. */
  datatype Mode = Mode(end: bool, http10: bool, interim: bool)

  predicate HasLength(l: seq<Header>) { HasKey(l, KeyOf(CONTENT_LENGTH_SLOT)) }

  /** `chunk_encoding_` after the headers `l`. */
  predicate ChunkedAfter(l: seq<Header>, m: Mode) { !HasLength(l) && !m.interim && !m.end && !m.http10 }

  /** The framing header the encoder adds. */
  function Framing(l: seq<Header>, m: Mode): Option<Header> {
    if HasLength(l) || m.interim then None
    else if m.end then Some(Header(KeyOf(CONTENT_LENGTH_SLOT), "0"))
    else if m.http10 then None
    else Some(Header(KeyOf(TRANSFER_ENCODING_SLOT), "chunked"))
  }

  function FramingLine(l: seq<Header>, m: Mode): string {
    if Framing(l, m).None? then "" else Line(Framing(l, m).value.name, Framing(l, m).value.value)
  }

  function HeadersText(l: seq<Header>, m: Mode): string { LinesOf(l) + FramingLine(l, m) + CRLF }

  /**
   * No framing header is added where none is allowed: to a message with a length, to "100 Continue", and before
   * HTTP/1.1.
   */
  predicate Unframed(l: seq<Header>, m: Mode) { HasLength(l) || m.interim || (m.http10 && !m.end) }

  /** The framing of a message in its own words (sections 3.3.1 and 3.3.2 of RFC 7230). */
  lemma {:induction false} FramingInWords(l: seq<Header>, m: Mode)
    ensures Unframed(l, m) ==> HeadersText(l, m) == LinesOf(l) + CRLF
    ensures !Unframed(l, m) && m.end ==> HeadersText(l, m) == LinesOf(l) + "content-length: 0" + CRLF + CRLF
    ensures !Unframed(l, m) && !m.end ==> HeadersText(l, m) == LinesOf(l) + "transfer-encoding: chunked" + CRLF + CRLF
    ensures ChunkedAfter(l, m) <==> !Unframed(l, m) && !m.end
  {
    hide LinesOf, HasLength;
    assert KeyOf(CONTENT_LENGTH_SLOT) == "content-length" && KeyOf(TRANSFER_ENCODING_SLOT) == "transfer-encoding";
    assert LinesOf(l) + "" == LinesOf(l);
    var x, y := LinesOf(l), CRLF;
    assert Line("content-length", "0") == "content-length: 0" + CRLF;
    assert Line("transfer-encoding", "chunked") == "transfer-encoding: chunked" + CRLF;
    assert x + ("content-length: 0" + CRLF) + y == x + "content-length: 0" + CRLF + y;
    assert x + ("transfer-encoding: chunked" + CRLF) + y == x + "transfer-encoding: chunked" + CRLF + y;
  }

  const REQUEST_POSTFIX: string := " HTTP/1.1" + CRLF

  function RequestText(verb: string, path: string, l: seq<Header>, m: Mode): string {
    verb + " " + path + REQUEST_POSTFIX + HeadersText(l, m)
  }

  /** One piece of body data on the wire. */
  function DataText(bytes: string, chunked: bool): string {
    if bytes == "" then "" else if chunked then Chunk(bytes) else bytes
  }

  function EndText(end: bool, chunked: bool): string { if end && chunked then LAST_CHUNK else "" }

  // ---------------------------------------------------------------- the connection's output

  /** The bytes a list of buffers holds. */
  ghost function Bytes(bs: seq<EIoBuffer>): string
    requires forall b :: b in bs ==> b.Valid()
    reads bs, set b | b in bs :: b.buf
  {
    if bs == [] then "" else bs[0].Remaining() + Bytes(bs[1..])
  }

  /** `Buffer::OwnedImpl`: a queue of buffers. */
  class OwnedImpl {
    var buffers: seq<EIoBuffer>

    constructor ()
      ensures buffers == []
    {
      buffers := [];
    }

    ghost predicate Valid()
      reads this, buffers
    {
      forall b :: b in buffers ==> b.Valid()
    }

    /** `add(data)`: a new buffer at the end of the queue. */
    method Add(data: string)
      requires Valid() && |data| <= MAX_SIZE
      modifies this
      ensures Valid() && Bytes(buffers) == old(Bytes(buffers)) + data
      ensures forall b :: b in buffers ==> b in old(buffers) || (fresh(b) && fresh(b.buf))
    {
      var b := Holding(data);
      BytesSnoc(buffers, b);
      buffers := buffers + [b];
    }

    /** `length`. */
    method Length() returns (n: nat)
      requires Valid()
      ensures n == |Bytes(buffers)|
    {
      n := 0;
      var i := 0;
      assert buffers[0..] == buffers;
      while i < |buffers|
        invariant 0 <= i <= |buffers| && n + |Bytes(buffers[i..])| == |Bytes(buffers)|
      {
        assert buffers[i..][1..] == buffers[i + 1..];
        n := n + |buffers[i].Remaining()|;
        i := i + 1;
      }
    }
  }

  /** A buffer of its own for a piece of text, ready to be read. */
  method Holding(data: string) returns (b: EIoBuffer)
    requires |data| <= MAX_SIZE
    ensures fresh(b) && fresh(b.buf) && b.Valid() && b.Remaining() == data
  {
    b := new EIoBuffer.Allocate(|data|);
    var done := b.Put(data);
    b.Flip();
  }

  class ConnectionOutput {
    const reserved: EIoBuffer       // reserved_iovec_
    var output: seq<EIoBuffer>      // output_buffer_
    var wire: string                // what the session has been given to write
    var http10: bool                // protocol_ is Http10

    ghost predicate Valid()
      reads this, reserved, output
    {
      && reserved.Valid() && reserved.autoExpand && reserved.recapacityAllowed
      && forall b :: b in output ==> b != reserved && b.buf != reserved.buf && b.Valid()
    }

    /** Everything queued has been written. */
    ghost predicate Flushed()
      reads this, reserved
    {
      output == [] && reserved.pos == 0
    }

    constructor ()
      ensures Valid() && Flushed() && wire == "" && !http10 && fresh(reserved) && fresh(reserved.buf)
    {
      var b := new EIoBuffer.Allocate(512);
      b.SetAutoExpand(true);
      reserved, output, wire, http10 := b, [], "", false;
    }

    /** `copyToBuffer` and `addCharToBuffer`. */
    method CopyToBuffer(data: string)
      requires Valid() && reserved.pos + |data| <= MAX_SIZE
      modifies reserved, reserved.buf
      ensures Valid() && reserved.Written() == old(reserved.Written()) + data && reserved.pos == old(reserved.pos) + |data|
      ensures reserved.buf == old(reserved.buf) || fresh(reserved.buf)
      ensures Bytes(output) == old(Bytes(output))
    {
      var done := reserved.Put(data);
    }

    /** `buffer().add(data)`: a new buffer at the end of the queue. */
    method Add(data: string)
      requires Valid() && |data| <= MAX_SIZE
      modifies this`output
      ensures Valid() && Bytes(output) == old(Bytes(output)) + data
    {
      var b := Holding(data);
      BytesSnoc(output, b);
      output := output + [b];
    }

    /** `buffer().move(data)`: the buffers of `data` themselves join the queue, one by one, and leave `data` empty. */
    method Move(data: OwnedImpl)
      requires Valid() && forall b :: b in data.buffers ==> b != reserved && b.buf != reserved.buf && b.Valid()
      modifies this`output, data
      ensures Valid() && data.buffers == []
      ensures Bytes(output) == old(Bytes(output)) + old(Bytes(data.buffers))
    {
      hide Bytes;
      ghost var was, bytes := Bytes(output), Bytes(data.buffers);
      while data.buffers != []
        invariant Valid() && forall b :: b in data.buffers ==> b != reserved && b.buf != reserved.buf && b.Valid()
        invariant Bytes(output) + Bytes(data.buffers) == was + bytes
        decreases |data.buffers|
      {
        var b := data.buffers[0];
        ghost var x, y := Bytes(output), Bytes(data.buffers[1..]);
        BytesHead(data.buffers);
        BytesSnoc(output, b);
        assert x + (b.Remaining() + y) == x + b.Remaining() + y;
        data.buffers := data.buffers[1..];
        output := output + [b];
      }
      BytesNothing();
      assert Bytes(output) + "" == Bytes(output);
    }

    /** The queue is polled and every buffer written; writing leaves the buffer as it is. */
    method WriteAll()
      requires forall b :: b in output ==> b.Valid()
      modifies this`output, this`wire
      ensures output == [] && wire == old(wire) + old(Bytes(output))
    {
      while output != []
        invariant forall b :: b in output ==> b.Valid()
        invariant wire + Bytes(output) == old(wire) + old(Bytes(output))
        decreases |output|
      {
        assert wire + (output[0].Remaining() + Bytes(output[1..])) == wire + output[0].Remaining() + Bytes(output[1..]);
        wire := wire + output[0].Remaining();
        output := output[1..];
      }
      assert wire + "" == wire;
    }

    /**
     * `flushOutput`: the reserved buffer is flipped and queued behind what is there, then everything is written.
     * The reserved buffer is left with its position at 0, ready for the next head.
     */
    method FlushOutput()
      requires Valid()
      modifies this`output, this`wire, reserved
      ensures Valid() && Flushed() && reserved.buf == old(reserved.buf)
      ensures wire == old(wire) + old(Bytes(output)) + old(reserved.Written())
    {
      hide Bytes;
      ghost var queued, block := Bytes(output), reserved.Written();
      reserved.Flip();
      BytesSnoc(output, reserved);
      output := output + [reserved];
      WriteAll();
      assert old(wire) + (queued + block) == old(wire) + queued + block;
    }
  }

  lemma {:induction false} BytesConcat(a: seq<EIoBuffer>, b: seq<EIoBuffer>)
    requires forall x :: x in a ==> x.Valid()
    requires forall x :: x in b ==> x.Valid()
    ensures forall x :: x in a + b ==> x.Valid()
    ensures Bytes(a + b) == Bytes(a) + Bytes(b)
  {
    if a == [] {
      assert a + b == b;
    } else {
      assert (a + b)[1..] == a[1..] + b;
      BytesConcat(a[1..], b);
      var r, x, y := a[0].Remaining(), Bytes(a[1..]), Bytes(b);
      assert r + (x + y) == r + x + y;
    }
  }

  lemma {:induction false} BytesHead(a: seq<EIoBuffer>)
    requires a != [] && forall x :: x in a ==> x.Valid()
    ensures Bytes(a) == a[0].Remaining() + Bytes(a[1..])
  {
  }

  lemma {:induction false} BytesNothing()
    ensures Bytes([]) == ""
  {
  }

  lemma {:induction false} BytesSnoc(a: seq<EIoBuffer>, b: EIoBuffer)
    requires (forall x :: x in a ==> x.Valid()) && b.Valid()
    ensures forall x :: x in a + [b] ==> x.Valid()
    ensures Bytes(a + [b]) == Bytes(a) + b.Remaining()
  {
    BytesConcat(a, [b]);
    assert [b][1..] == [];
    assert b.Remaining() + "" == b.Remaining();
  }

  // ---------------------------------------------------------------- the stream encoders

  class StreamEncoder {
    const connection: ConnectionOutput
    var chunkEncoding: bool
    var processing100Continue: bool
    var headRequest: bool
    var complete: bool      // onEncodeComplete has been called

    constructor (connection: ConnectionOutput)
      ensures this.connection == connection && chunkEncoding && !processing100Continue && !headRequest && !complete
    {
      this.connection, chunkEncoding, processing100Continue, headRequest, complete := connection, true, false, false, false;
    }

    /** `encodeHeader`. */
    method EncodeHeader(key: string, value: string)
      requires connection.Valid() && connection.reserved.pos + |Line(key, value)| <= MAX_SIZE
      modifies connection.reserved, connection.reserved.buf
      ensures connection.Valid() && Bytes(connection.output) == old(Bytes(connection.output))
      ensures connection.reserved.Written() == old(connection.reserved.Written()) + Line(key, value)
      ensures connection.reserved.buf == old(connection.reserved.buf) || fresh(connection.reserved.buf)
    {
      hide Bytes, EIoBuffer.Written;
      ghost var was := connection.reserved.Written();
      connection.CopyToBuffer(key);
      connection.CopyToBuffer(": ");
      connection.CopyToBuffer(value);
      connection.CopyToBuffer(CRLF);
      assert was + key + ": " + value + CRLF == was + Line(key, value);
    }

    /** `endEncode`. */
    method EndEncode()
      requires connection.Valid()
      modifies this`complete, connection, connection.reserved
      ensures connection.Valid() && connection.Flushed() && complete && connection.http10 == old(connection.http10)
      ensures connection.reserved.buf == old(connection.reserved.buf)
      ensures connection.wire == old(connection.wire) + old(Bytes(connection.output)) + EndText(true, chunkEncoding) +
                                 old(connection.reserved.Written())
    {
      ghost var wire, queued := connection.wire, Bytes(connection.output);
      if chunkEncoding { connection.Add(LAST_CHUNK); }
      connection.FlushOutput();
      assert wire + (queued + LAST_CHUNK) == wire + queued + LAST_CHUNK;
      complete := true;
    }

    /** The loop over the header map, one line for each header that goes out. */
    method EncodeLines(headers: HeaderMapImpl)
      requires connection.Valid() && headers.Valid()
      requires connection.reserved.pos + |LinesOf(headers.Pairs())| <= MAX_SIZE
      modifies connection.reserved, connection.reserved.buf
      ensures connection.Valid() && Bytes(connection.output) == old(Bytes(connection.output))
      ensures connection.reserved.Written() == old(connection.reserved.Written()) + LinesOf(headers.Pairs())
      ensures connection.reserved.buf == old(connection.reserved.buf) || fresh(connection.reserved.buf)
    {
      hide Bytes, HeaderMapImpl.Valid, Line, WireKey, EIoBuffer.Written, LinesOf;
      WrittenLength();
      NoLines();
      ghost var was, l := connection.reserved.Written(), headers.Pairs();
      var i := 0;
      assert l[..0] == [] && was + "" == was;
      while i < |headers.headers|
        invariant 0 <= i <= |headers.headers| && connection.Valid() && headers.Pairs() == l
        invariant connection.reserved.Written() == was + LinesOf(l[..i])
        invariant Bytes(connection.output) == old(Bytes(connection.output))
        invariant connection.reserved.buf == old(connection.reserved.buf) || fresh(connection.reserved.buf)
      {
        LinesGrow(l, i);
        WrittenLength();
        var e := headers.headers[i];
        assert l[i] == Header(e.key, e.value);
        var key := WireKey(e.key);
        if key.Some? { EncodeHeader(key.value, e.value); }
        i := i + 1;
      }
      assert l[..i] == l;
    }

    /** The framing a message gets: a length it has, a length of 0, chunks, or none. */
    method ChooseFraming(headers: HeaderMapImpl, end: bool) returns (framing: Option<Header>)
      requires headers.Valid()
      modifies this`chunkEncoding
      ensures var m := Mode(end, connection.http10, processing100Continue); var l := headers.Pairs();
              framing == Framing(l, m) && chunkEncoding == ChunkedAfter(l, m)
    {
      hide HeaderMapImpl.Valid, KeyOf, HasKey;
      headers.ValidMeaning();
      framing := None;
      if CONTENT_LENGTH_SLOT in headers.slots {
        chunkEncoding := false;
      } else if processing100Continue {
        chunkEncoding := false;
      } else if end {
        framing := Some(Header(KeyOf(CONTENT_LENGTH_SLOT), "0"));
        chunkEncoding := false;
      } else if connection.http10 {
        chunkEncoding := false;
      } else {
        framing := Some(Header(KeyOf(TRANSFER_ENCODING_SLOT), "chunked"));
        chunkEncoding := true;
      }
    }

    /** The lines, one framing header at most, and the blank line go into the reserved buffer. */
    method EncodeBlock(headers: HeaderMapImpl, end: bool)
      requires connection.Valid() && headers.Valid()
      requires var m := Mode(end, connection.http10, processing100Continue);
               connection.reserved.pos + |HeadersText(headers.Pairs(), m)| <= MAX_SIZE
      modifies this`chunkEncoding, connection.reserved, connection.reserved.buf
      ensures connection.Valid() && Bytes(connection.output) == old(Bytes(connection.output))
      ensures connection.reserved.buf == old(connection.reserved.buf) || fresh(connection.reserved.buf)
      ensures var m := Mode(end, connection.http10, processing100Continue); var l := headers.Pairs();
              && chunkEncoding == ChunkedAfter(l, m)
              && connection.reserved.Written() == old(connection.reserved.Written()) + HeadersText(l, m)
    {
      hide Bytes, HeaderMapImpl.Valid, LinesOf, Line, Framing, ChunkedAfter, EIoBuffer.Written, HeaderMapImpl.Pairs;
      ghost var m, l := Mode(end, connection.http10, processing100Continue), headers.Pairs();
      ghost var was := connection.reserved.Written();
      WrittenLength();
      EncodeLines(headers);
      WrittenLength();
      var framing := ChooseFraming(headers, end);
      if framing.Some? { EncodeHeader(framing.value.name, framing.value.value); }
      WrittenLength();
      connection.CopyToBuffer(CRLF);
      TextParts(was, l, m);
    }

    lemma {:induction false} WrittenLength()
      requires connection.Valid()
      ensures |connection.reserved.Written()| == connection.reserved.pos
    {
    }

    /** `encodeHeaders` of the base class. */
    method EncodeHeaders(headers: HeaderMapImpl, end: bool)
      requires connection.Valid() && headers.Valid() && TRANSFER_ENCODING_SLOT !in headers.slots
      requires var m := Mode(end, connection.http10, processing100Continue);
               connection.reserved.pos + |HeadersText(headers.Pairs(), m)| <= MAX_SIZE
      modifies this`chunkEncoding, this`complete, connection, connection.reserved, connection.reserved.buf
      ensures connection.Valid() && connection.Flushed() && connection.http10 == old(connection.http10)
      ensures connection.reserved.buf == old(connection.reserved.buf) || fresh(connection.reserved.buf)
      ensures var m := Mode(end, connection.http10, processing100Continue); var l := headers.Pairs();
              && chunkEncoding == ChunkedAfter(l, m) && complete == (end || old(complete))
              && connection.wire == old(connection.wire) + old(Bytes(connection.output)) +
                                    (old(connection.reserved.Written()) + HeadersText(l, m))
      ensures var m := Mode(end, connection.http10, processing100Continue); var l := headers.Pairs();
              Unframed(l, m) ==>
                && !chunkEncoding
                && connection.wire == old(connection.wire) + old(Bytes(connection.output)) +
                                      (old(connection.reserved.Written()) + (LinesOf(l) + CRLF))
    {
      hide Bytes, HeaderMapImpl.Valid, HeadersText, EIoBuffer.Written, HeaderMapImpl.Pairs, HasLength, Unframed,
           LinesOf, ChunkedAfter;
      FramingInWords(headers.Pairs(), Mode(end, connection.http10, processing100Continue));
      ghost var wire, queued := connection.wire, Bytes(connection.output);
      EncodeBlock(headers, end);
      // Headers that end the stream are never chunked, so no last chunk gets ahead of them.
      if end { EndEncode(); } else { connection.FlushOutput(); }
      assert wire + queued + "" == wire + queued;
    }

    /** The request line goes into the reserved buffer. */
    method EncodeRequestLine(verb: string, path: string)
      requires connection.Valid()
      requires connection.reserved.pos + |verb| + 1 + |path| + |REQUEST_POSTFIX| <= MAX_SIZE
      modifies connection.reserved, connection.reserved.buf
      ensures connection.Valid() && Bytes(connection.output) == old(Bytes(connection.output))
      ensures connection.reserved.buf == old(connection.reserved.buf) || fresh(connection.reserved.buf)
      ensures connection.reserved.Written() == old(connection.reserved.Written()) + (verb + " " + path + REQUEST_POSTFIX)
      ensures connection.reserved.pos == old(connection.reserved.pos) + |verb| + 1 + |path| + |REQUEST_POSTFIX|
    {
      hide Bytes, EIoBuffer.Written;
      ghost var was := connection.reserved.Written();
      connection.CopyToBuffer(verb);
      connection.CopyToBuffer(" ");
      connection.CopyToBuffer(path);
      connection.CopyToBuffer(REQUEST_POSTFIX);
      assert was + verb + " " + path + REQUEST_POSTFIX == was + (verb + " " + path + REQUEST_POSTFIX);
    }

    /** `encodeHeaders` of the request encoder; without `:method` and `:path` it throws and nothing happens. */
    method EncodeRequestHeaders(headers: HeaderMapImpl, end: bool) returns (ok: bool)
      requires connection.Valid() && headers.Valid() && TRANSFER_ENCODING_SLOT !in headers.slots
      requires var m := Mode(end, connection.http10, processing100Continue);
               METHOD_SLOT in headers.slots && PATH_SLOT in headers.slots ==>
                 connection.reserved.pos + |RequestText(headers.slots[METHOD_SLOT].value, headers.slots[PATH_SLOT].value,
                                                        headers.Pairs(), m)| <= MAX_SIZE
      modifies this`chunkEncoding, this`complete, this`headRequest, connection, connection.reserved,
               connection.reserved.buf
      ensures ok == (METHOD_SLOT in headers.slots && PATH_SLOT in headers.slots)
      ensures connection.Valid() && connection.http10 == old(connection.http10)
      ensures connection.reserved.buf == old(connection.reserved.buf) || fresh(connection.reserved.buf)
      ensures !ok ==> unchanged(this, connection, connection.reserved)
      ensures ok ==>
                var m := Mode(end, connection.http10, processing100Continue); var l := headers.Pairs();
                var verb := headers.slots[METHOD_SLOT].value;
                && connection.Flushed() && headRequest == (verb == "HEAD" || old(headRequest))
                && chunkEncoding == ChunkedAfter(l, m) && complete == (end || old(complete))
                && connection.wire == old(connection.wire) + old(Bytes(connection.output)) +
                                      (old(connection.reserved.Written()) +
                                       RequestText(verb, headers.slots[PATH_SLOT].value, l, m))
    {
      hide Bytes, HeaderMapImpl.Valid, HeadersText, RequestText, EIoBuffer.Written, HeaderMapImpl.Pairs, ChunkedAfter;
      if METHOD_SLOT !in headers.slots || PATH_SLOT !in headers.slots { return false; }
      var verb, path := headers.slots[METHOD_SLOT].value, headers.slots[PATH_SLOT].value;
      if verb == "HEAD" { headRequest := true; }
      ghost var m, l := Mode(end, connection.http10, processing100Continue), headers.Pairs();
      ghost var was := connection.reserved.Written();
      RequestParts(was, verb, path, l, m);
      EncodeRequestLine(verb, path);
      EncodeHeaders(headers, end);
      return true;
    }

    /** The buffers of a piece of data are apart from the connection's own. */
    ghost predicate Apart(data: OwnedImpl)
      reads this, connection, connection.reserved, data, data.buffers
    {
      forall b :: b in data.buffers ==> b != connection.reserved && b.buf != connection.reserved.buf && b.Valid()
    }

    /** The part of `encodeData` that queues: chunk size, data and line end, or the data alone. */
    method QueueData(data: OwnedImpl)
      requires connection.Valid() && Apart(data)
      modifies connection`output, data
      ensures connection.Valid() && data.Valid() && Bytes(data.buffers) == ""
      ensures Bytes(connection.output) == old(Bytes(connection.output)) + old(DataText(Bytes(data.buffers), chunkEncoding))
    {
      hide Bytes, Hex;
      ghost var was, bytes := Bytes(connection.output), Bytes(data.buffers);
      BytesNothing();
      var n := data.Length();
      if n > 0 {
        if chunkEncoding {
          EightHexDigits(Low32(n));
          connection.Add(Hex(Low32(n)) + CRLF);
        }
        connection.Move(data);
        if chunkEncoding { connection.Add(CRLF); }
        assert was + (Hex(Low32(n)) + CRLF) + bytes + CRLF == was + Chunk(bytes);
      } else {
        assert was + "" == was;
      }
    }

    /** `encodeData`. The data is used up. */
    method EncodeData(data: OwnedImpl, end: bool)
      requires connection.Valid() && Apart(data)
      modifies this`complete, connection, connection.reserved, data
      ensures connection.Valid() && connection.Flushed() && connection.http10 == old(connection.http10)
      ensures connection.reserved.buf == old(connection.reserved.buf) && complete == (end || old(complete))
      ensures connection.wire == old(connection.wire) +
                (old(Bytes(connection.output)) + old(DataText(Bytes(data.buffers), chunkEncoding))) +
                EndText(end, chunkEncoding) + old(connection.reserved.Written())
      ensures !chunkEncoding ==>
                connection.wire == old(connection.wire) + old(Bytes(connection.output)) + old(Bytes(data.buffers)) +
                                   old(connection.reserved.Written())
    {
      hide Bytes, EIoBuffer.Written, DataText;
      ghost var wire, before, bytes := connection.wire, Bytes(connection.output), Bytes(data.buffers);
      BareText(bytes);
      QueueData(data);
      ghost var queued := Bytes(connection.output);
      if end { EndEncode(); } else { connection.FlushOutput(); }
      assert wire + queued + "" == wire + queued;
      assert wire + (before + bytes) + "" == wire + before + bytes;
    }

    /** `encodeTrailers`: trailers are not written, the message only ends. */
    method EncodeTrailers()
      requires connection.Valid()
      modifies this`complete, connection, connection.reserved
      ensures connection.Valid() && connection.Flushed() && complete && connection.http10 == old(connection.http10)
      ensures connection.reserved.buf == old(connection.reserved.buf)
      ensures connection.wire == old(connection.wire) + old(Bytes(connection.output)) + EndText(true, chunkEncoding) +
                                 old(connection.reserved.Written())
    {
      EndEncode();
    }
  }

  /** Without chunks data goes out as it is. */
  lemma {:induction false} BareText(bytes: string)
    ensures DataText(bytes, false) == bytes && forall end :: EndText(end, false) == ""
  {
  }

  lemma {:induction false} RequestParts(was: string, verb: string, path: string, l: seq<Header>, m: Mode)
    ensures was + (verb + " " + path + REQUEST_POSTFIX) + HeadersText(l, m) == was + RequestText(verb, path, l, m)
    ensures |RequestText(verb, path, l, m)| == |verb| + 1 + |path| + |REQUEST_POSTFIX| + |HeadersText(l, m)|
  {
    hide HeadersText;
  }

  lemma {:induction false} TextParts(was: string, l: seq<Header>, m: Mode)
    ensures var f := Framing(l, m);
            was + HeadersText(l, m) ==
            (if f.Some? then was + LinesOf(l) + Line(f.value.name, f.value.value) else was + LinesOf(l)) + CRLF
  {
    hide LinesOf, Line, Framing;
  }

  lemma {:induction false} LinesGrow(l: seq<Header>, i: nat)
    requires i < |l|
    ensures LinesOf(l[..i + 1]) ==
            LinesOf(l[..i]) + if WireKey(l[i].name).None? then "" else Line(WireKey(l[i].name).value, l[i].value)
    ensures |LinesOf(l[..i + 1])| <= |LinesOf(l)|
  {
    assert l[..i + 1][..i] == l[..i];
    LinesBound(l, i + 1);
  }

  lemma {:induction false} NoLines()
    ensures LinesOf([]) == ""
  {
  }

  lemma {:induction false} LinesBound(l: seq<Header>, i: nat)
    requires i <= |l|
    ensures |LinesOf(l[..i])| <= |LinesOf(l)|
    decreases |l| - i
  {
    if i == |l| {
      assert l[..i] == l;
    } else {
      assert l[..i + 1][..i] == l[..i];
      LinesBound(l, i + 1);
    }
  }

  // ---------------------------------------------------------------- any sequence of operations

  /** A call of a request encoder: a header map, data in any number of buffers, or trailers. */
  datatype Op = SendHead(headers: seq<Header>, end: bool) | SendData(pieces: seq<string>, end: bool) | SendTrailers

  /** The fixed header in slot `x`, if the map has it. */
  function Fixed(l: seq<Header>, x: Inline): Option<string> {
    var h := Get(l, KeyOf(x)); if h.None? then None else Some(h.value.value)
  }

  predicate HasStart(l: seq<Header>) { Fixed(l, METHOD_SLOT).Some? && Fixed(l, PATH_SLOT).Some? }

  function StartText(l: seq<Header>, m: Mode): string
    requires HasStart(l)
  {
    RequestText(Fixed(l, METHOD_SLOT).value, Fixed(l, PATH_SLOT).value, l, m)
  }

  /** A map that a caller can pass, with no transfer encoding in it, and sizes that are within an `int`. */
  ghost predicate OpOk(op: Op, http10: bool) {
    match op
    case SendHead(l, end) =>
      && ListOk(l) && Fixed(l, TRANSFER_ENCODING_SLOT).None?
      && (HasStart(l) ==> |StartText(l, Mode(end, http10, false))| <= MAX_SIZE)
    case SendData(pieces, _) => forall i :: 0 <= i < |pieces| ==> |pieces[i]| <= MAX_SIZE
    case SendTrailers => true
  }

  /** What an operation adds to the wire. Without a method and a path a head adds nothing. */
  function OpText(op: Op, chunked: bool, http10: bool): string {
    match op
    case SendHead(l, end) => if HasStart(l) then StartText(l, Mode(end, http10, false)) else ""
    case SendData(pieces, end) => DataText(Join(pieces), chunked) + EndText(end, chunked)
    case SendTrailers => EndText(true, chunked)
  }

  /** Whether data is chunked after an operation. */
  function OpChunked(op: Op, chunked: bool, http10: bool): bool {
    if op.SendHead? && HasStart(op.headers) then ChunkedAfter(op.headers, Mode(op.end, http10, false)) else chunked
  }

  function OpsChunked(ops: seq<Op>, chunked: bool, http10: bool): bool {
    if ops == [] then chunked
    else OpChunked(ops[|ops| - 1], OpsChunked(ops[..|ops| - 1], chunked, http10), http10)
  }

  /** What a sequence of operations adds: the text of each, once and in order. */
  function OpsText(ops: seq<Op>, chunked: bool, http10: bool): string {
    if ops == [] then ""
    else
      var n := |ops| - 1;
      OpsText(ops[..n], chunked, http10) + OpText(ops[n], OpsChunked(ops[..n], chunked, http10), http10)
  }

  /** A header map object with the headers `l`. */
  method MapOf(l: seq<Header>) returns (headers: HeaderMapImpl)
    requires ListOk(l)
    ensures fresh(headers) && headers.Valid() && headers.Pairs() == l
  {
    hide HeaderMapImpl.Valid, KeyOf, HasKey, ListOk, Get, HeaderMapImpl.Pairs, Added;
    headers := new HeaderMapImpl();
    var i := 0;
    while i < |l|
      invariant 0 <= i <= |l| && headers.Valid() && headers.Pairs() == AddedAll([], l[..i])
    {
      assert l[..i + 1][..i] == l[..i];
      headers.InsertByKey(l[i].name, l[i].value);
      i := i + 1;
    }
    CopyIsEqual(l, |l|);
    assert l[..|l|] == l;
  }

  /** The slots of a map are the fixed headers of its list. */
  lemma {:induction false} SlotsAreFixed(headers: HeaderMapImpl, x: Inline)
    requires headers.Valid()
    ensures x in headers.slots <==> Fixed(headers.Pairs(), x).Some?
    ensures x in headers.slots ==> Fixed(headers.Pairs(), x) == Some(headers.slots[x].value)
  {
    hide KeyOf, SlotOf, HeaderMapImpl.Valid, ListOk, Get, HasKey;
    headers.ValidMeaning();
    if x in headers.slots {
      SlottedAt(headers, x);
      var i :| 0 <= i < |headers.headers| && headers.headers[i] == headers.slots[x];
      SlotExact(KeyOf(x), x);
      GetOnce(headers.Pairs(), i);
    }
  }

  lemma {:induction false} SlottedAt(headers: HeaderMapImpl, x: Inline)
    requires headers.Valid() && x in headers.slots
    ensures headers.slots[x] in headers.headers && headers.slots[x].key == KeyOf(x)
  {
    hide KeyOf, SlotOf, HeaderList.Get;
    SlottedEntry(headers.headers, headers.slots, x);
  }

  /** A piece of data in buffers of its own. */
  method DataOf(pieces: seq<string>) returns (data: OwnedImpl)
    requires forall i :: 0 <= i < |pieces| ==> |pieces[i]| <= MAX_SIZE
    ensures fresh(data) && data.Valid() && Bytes(data.buffers) == Join(pieces)
    ensures forall b :: b in data.buffers ==> fresh(b) && fresh(b.buf)
  {
    hide Bytes;
    data := new OwnedImpl();
    BytesNothing();
    var i := 0;
    assert Join(pieces[..0]) == "";
    while i < |pieces|
      invariant 0 <= i <= |pieces| && data.Valid() && Bytes(data.buffers) == Join(pieces[..i])
      invariant forall b :: b in data.buffers ==> fresh(b) && fresh(b.buf)
    {
      JoinSnoc(pieces, i);
      data.Add(pieces[i]);
      i := i + 1;
    }
    assert pieces[..i] == pieces;
  }

  /** One operation on a connection with nothing queued. */
  method SendOne(e: StreamEncoder, op: Op)
    requires e.connection.Valid() && e.connection.Flushed() && !e.processing100Continue && OpOk(op, e.connection.http10)
    modifies e, e.connection, e.connection.reserved, e.connection.reserved.buf
    ensures e.connection.Valid() && e.connection.Flushed() && !e.processing100Continue
    ensures e.connection.http10 == old(e.connection.http10)
    ensures e.connection.reserved.buf == old(e.connection.reserved.buf) || fresh(e.connection.reserved.buf)
    ensures e.chunkEncoding == OpChunked(op, old(e.chunkEncoding), e.connection.http10)
    ensures e.connection.wire == old(e.connection.wire) + OpText(op, old(e.chunkEncoding), e.connection.http10)
    ensures e.complete == (old(e.complete) || Ends(op, e.connection.http10))
  {
    hide Bytes, HeaderMapImpl.Valid, RequestText, HeaderMapImpl.Pairs, ChunkedAfter, DataText, EndText, ListOk, Fixed,
         EIoBuffer.Written;
    ghost var wire, chunked := e.connection.wire, e.chunkEncoding;
    NothingQueued(e.connection);
    match op
    case SendHead(l, end) =>
      var headers := MapOf(l);
      SlotsAreFixed(headers, METHOD_SLOT);
      SlotsAreFixed(headers, PATH_SLOT);
      SlotsAreFixed(headers, TRANSFER_ENCODING_SLOT);
      var ok := e.EncodeRequestHeaders(headers, end);
      assert ok ==> wire + "" + ("" + StartText(l, Mode(end, e.connection.http10, false))) ==
                    wire + StartText(l, Mode(end, e.connection.http10, false));
      assert wire + "" == wire;
    case SendData(pieces, end) =>
      var data := DataOf(pieces);
      e.EncodeData(data, end);
      var x, y := DataText(Join(pieces), chunked), EndText(end, chunked);
      assert wire + ("" + x) + y + "" == wire + (x + y);
    case SendTrailers =>
      e.EncodeTrailers();
      assert wire + "" + EndText(true, chunked) + "" == wire + EndText(true, chunked);
  }

  /** What an operation adds on a connection before HTTP/1.1: heads in full, and data as it is. */
  function PlainText(op: Op): string {
    match op
    case SendHead(l, end) =>
      if HasStart(l) then
        Fixed(l, METHOD_SLOT).value + " " + Fixed(l, PATH_SLOT).value + " HTTP/1.1" + CRLF + LinesOf(l) +
        (if end && !HasLength(l) then "content-length: 0" + CRLF else "") + CRLF
      else ""
    case SendData(pieces, _) => Join(pieces)
    case SendTrailers => ""
  }

  function PlainTexts(ops: seq<Op>): string {
    if ops == [] then "" else PlainTexts(ops[..|ops| - 1]) + PlainText(ops[|ops| - 1])
  }

  /** No data before the first head, unless chunks are off. */
  predicate HeadFirst(ops: seq<Op>, chunked: bool) {
    chunked && ops != [] ==> ops[0].SendHead? && HasStart(ops[0].headers)
  }

  lemma {:induction false} PlainOne(op: Op, chunked: bool)
    requires chunked ==> op.SendHead? && HasStart(op.headers)
    ensures OpText(op, chunked, true) == PlainText(op) && !OpChunked(op, chunked, true)
  {
    hide LinesOf, HasLength, Fixed;
    match op
    case SendHead(l, end) =>
      var m := Mode(end, true, false);
      FramingInWords(l, m);
      if HasStart(l) { StartInWords(Fixed(l, METHOD_SLOT).value + " " + Fixed(l, PATH_SLOT).value, l, end); }
    case SendData(pieces, end) =>
      BareText(Join(pieces));
      assert Join(pieces) + "" == Join(pieces);
    case SendTrailers =>
  }

  lemma {:induction false} StartInWords(start: string, l: seq<Header>, end: bool)
    ensures start + REQUEST_POSTFIX + HeadersText(l, Mode(end, true, false)) ==
            start + " HTTP/1.1" + CRLF + LinesOf(l) +
                (if end && !HasLength(l) then "content-length: 0" + CRLF else "") + CRLF
  {
    hide LinesOf, HasLength, HeadersText;
    FramingInWords(l, Mode(end, true, false));
    var x, y := start + " HTTP/1.1" + CRLF, LinesOf(l);
    assert start + (" HTTP/1.1" + CRLF) == x;
    assert x + (y + CRLF) == x + y + "" + CRLF;
    assert x + (y + "content-length: 0" + CRLF + CRLF) == x + y + ("content-length: 0" + CRLF) + CRLF;
  }

  /**
   * On a connection before HTTP/1.1 nothing is ever chunked: heads have no framing header but "content-length: 0" when
   * they end the stream, and data goes out as it is.
   */
  lemma {:induction false} PlainOutput(ops: seq<Op>, chunked: bool)
    requires HeadFirst(ops, chunked)
    ensures OpsText(ops, chunked, true) == PlainTexts(ops) && (ops != [] ==> !OpsChunked(ops, chunked, true))
    decreases |ops|
  {
    hide OpText, PlainText, OpChunked, HasStart;
    if ops != [] {
      var n := |ops| - 1;
      PlainOutput(ops[..n], chunked);
      if n == 0 { NoOps(ops, chunked, true); }
      PlainOne(ops[n], OpsChunked(ops[..n], chunked, true));
    }
  }

  /** Whether an operation ends the stream. */
  predicate Ends(op: Op, http10: bool) {
    match op
    case SendHead(l, end) => HasStart(l) && end
    case SendData(_, end) => end
    case SendTrailers => true
  }

  /**
   * Exactly-once ordered output: after any sequence of heads, data and trailers the wire has gained the text of every
   * operation, once and in order, a head before the data behind it, though one reserved buffer serves for all heads.
   */
  method SendAll(e: StreamEncoder, ops: seq<Op>)
    requires e.connection.Valid() && e.connection.Flushed() && !e.processing100Continue
    requires forall i :: 0 <= i < |ops| ==> OpOk(ops[i], e.connection.http10)
    modifies e, e.connection, e.connection.reserved, e.connection.reserved.buf
    ensures e.connection.Valid() && e.connection.Flushed() && e.connection.http10 == old(e.connection.http10)
    ensures e.chunkEncoding == OpsChunked(ops, old(e.chunkEncoding), e.connection.http10)
    ensures e.connection.wire == old(e.connection.wire) + OpsText(ops, old(e.chunkEncoding), e.connection.http10)
    ensures e.complete == (old(e.complete) || exists i :: 0 <= i < |ops| && Ends(ops[i], e.connection.http10))
    ensures e.connection.http10 && HeadFirst(ops, old(e.chunkEncoding)) ==>
              e.connection.wire == old(e.connection.wire) + PlainTexts(ops) && (ops != [] ==> !e.chunkEncoding)
  {
    hide OpText, OpChunked, OpOk, Ends, Bytes, PlainTexts, HeadFirst, OpsText, OpsChunked;
    if e.connection.http10 && HeadFirst(ops, e.chunkEncoding) { PlainOutput(ops, e.chunkEncoding); }
    ghost var wire, chunked, http10 := e.connection.wire, e.chunkEncoding, e.connection.http10;
    NoOps(ops, chunked, http10);
    assert wire + "" == wire;
    var i := 0;
    while i < |ops|
      invariant 0 <= i <= |ops| && e.connection.Valid() && e.connection.Flushed() && !e.processing100Continue
      invariant e.connection.http10 == http10
      invariant e.connection.reserved.buf == old(e.connection.reserved.buf) || fresh(e.connection.reserved.buf)
      invariant e.chunkEncoding == OpsChunked(ops[..i], chunked, http10)
      invariant e.connection.wire == wire + OpsText(ops[..i], chunked, http10)
      invariant e.complete == (old(e.complete) || exists k :: 0 <= k < i && Ends(ops[k], http10))
    {
      OpsStep(ops, i, chunked, http10);
      ghost var x, y := OpsText(ops[..i], chunked, http10), OpText(ops[i], OpsChunked(ops[..i], chunked, http10), http10);
      SendOne(e, ops[i]);
      assert wire + x + y == wire + (x + y);
      i := i + 1;
    }
    assert ops[..i] == ops;
  }

  lemma {:induction false} NoOps(ops: seq<Op>, chunked: bool, http10: bool)
    ensures OpsText(ops[..0], chunked, http10) == "" && OpsChunked(ops[..0], chunked, http10) == chunked
  {
  }

  lemma {:induction false} OpsStep(ops: seq<Op>, i: nat, chunked: bool, http10: bool)
    requires i < |ops|
    ensures OpsChunked(ops[..i + 1], chunked, http10) == OpChunked(ops[i], OpsChunked(ops[..i], chunked, http10), http10)
    ensures OpsText(ops[..i + 1], chunked, http10) ==
            OpsText(ops[..i], chunked, http10) + OpText(ops[i], OpsChunked(ops[..i], chunked, http10), http10)
  {
    assert ops[..i + 1][..i] == ops[..i];
  }

  lemma {:induction false} NothingQueued(c: ConnectionOutput)
    requires c.Valid() && c.Flushed()
    ensures Bytes(c.output) == "" && c.reserved.Written() == ""
  {
  }

  // ---------------------------------------------------------------- a whole request

  function BodyText(parts: seq<string>, chunked: bool): string {
    if parts == [] then "" else BodyText(parts[..|parts| - 1], chunked) + DataText(parts[|parts| - 1], chunked)
  }

  /** A request on the wire: the head, the pieces of its body, and the end. */
  function MessageText(verb: string, path: string, l: seq<Header>, parts: seq<string>, http10: bool): string {
    var m := Mode(parts == [], http10, false);
    RequestText(verb, path, l, m) + BodyText(parts, ChunkedAfter(l, m)) + EndText(parts != [], ChunkedAfter(l, m))
  }

  /** Its headers, which end the stream if there is no body, then its body piece by piece. */
  function RequestOps(l: seq<Header>, parts: seq<string>, n: nat): seq<Op>
    requires n <= |parts|
  {
    if n == 0 then [SendHead(l, parts == [])]
    else RequestOps(l, parts, n - 1) + [SendData([parts[n - 1]], n == |parts|)]
  }

  lemma {:induction false} RequestOpsText(l: seq<Header>, parts: seq<string>, n: nat, chunked: bool, http10: bool)
    requires n <= |parts| && HasStart(l)
    ensures var m := Mode(parts == [], http10, false); var c := ChunkedAfter(l, m);
            && OpsChunked(RequestOps(l, parts, n), chunked, http10) == c
            && OpsText(RequestOps(l, parts, n), chunked, http10) ==
               StartText(l, m) + (BodyText(parts[..n], c) + EndText(0 < n == |parts|, c))
    decreases n
  {
    hide RequestText, DataText, ChunkedAfter, Fixed, HasStart, BodyText;
    var ops := RequestOps(l, parts, n);
    var m := Mode(parts == [], http10, false);
    var c := ChunkedAfter(l, m);
    if n == 0 {
      NoOps(ops, chunked, http10);
      OpsStep(ops, 0, chunked, http10);
      NoPieces(c);
      assert ops[..1] == ops && ops[..0] == [];
      assert parts[..0] == [];
      assert "" + StartText(l, m) == StartText(l, m) + ("" + "");
    } else {
      RequestOpsText(l, parts, n - 1, chunked, http10);
      OpsStep(ops, |ops| - 1, chunked, http10);
      assert ops[..|ops| - 1] == RequestOps(l, parts, n - 1) && ops[..|ops|] == ops;
      PieceText(StartText(l, m), parts, n, c);
    }
  }

  lemma {:induction false} NoPieces(chunked: bool)
    ensures BodyText([], chunked) == "" && EndText(false, chunked) == ""
  {
  }

  /** One more piece of a body. */
  lemma {:induction false} PieceText(head: string, parts: seq<string>, n: nat, c: bool)
    requires 0 < n <= |parts|
    ensures head + (BodyText(parts[..n - 1], c) + EndText(false, c)) +
            (DataText(Join([parts[n - 1]]), c) + EndText(n == |parts|, c)) ==
            head + (BodyText(parts[..n], c) + EndText(n == |parts|, c))
  {
    hide DataText, BodyText;
    JoinOne(parts[n - 1]);
    BodyTextStep(parts, n - 1, c);
    var b, x, y := BodyText(parts[..n - 1], c), DataText(parts[n - 1], c), EndText(n == |parts|, c);
    assert head + (b + "") + (x + y) == head + (b + x + y);
  }

  /**
   * Sending a request: the wire gets the text of the request, every byte once, in order.
   */
  method SendRequest(e: StreamEncoder, l: seq<Header>, parts: seq<string>)
    requires e.connection.Valid() && e.connection.Flushed() && !e.processing100Continue && HasStart(l)
    requires OpOk(SendHead(l, parts == []), e.connection.http10)
    requires forall i :: 0 <= i < |parts| ==> |parts[i]| <= MAX_SIZE
    modifies e, e.connection, e.connection.reserved, e.connection.reserved.buf
    ensures e.connection.Valid() && e.connection.Flushed() && e.complete
    ensures e.connection.wire == old(e.connection.wire) +
              MessageText(Fixed(l, METHOD_SLOT).value, Fixed(l, PATH_SLOT).value, l, parts, e.connection.http10)
    ensures e.connection.http10 == old(e.connection.http10)
  {
    hide OpText, RequestText, ChunkedAfter, Fixed, BodyText, EndText, Bytes, ListOk;
    RequestOpsText(l, parts, |parts|, e.chunkEncoding, e.connection.http10);
    assert parts[..|parts|] == parts;
    var m := Mode(parts == [], e.connection.http10, false);
    BodyAfterHead(StartText(l, m), parts, ChunkedAfter(l, m));
    RequestOpsOk(l, parts, |parts|, e.connection.http10);
    SendAll(e, RequestOps(l, parts, |parts|));
  }

  lemma {:induction false} BodyAfterHead(head: string, parts: seq<string>, chunked: bool)
    ensures head + (BodyText(parts, chunked) + EndText(parts != [], chunked)) ==
            head + BodyText(parts, chunked) + EndText(parts != [], chunked)
  {
    hide BodyText, EndText;
  }

  lemma {:induction false} RequestOpsOk(l: seq<Header>, parts: seq<string>, n: nat, http10: bool)
    requires n <= |parts| && OpOk(SendHead(l, parts == []), http10) && HasStart(l)
    requires forall i :: 0 <= i < |parts| ==> |parts[i]| <= MAX_SIZE
    ensures var ops := RequestOps(l, parts, n);
            && |ops| == n + 1 && (forall i :: 0 <= i < |ops| ==> OpOk(ops[i], http10))
            && (n == |parts| ==> Ends(ops[n], http10))
    decreases n
  {
    hide ListOk, Fixed, RequestText;
    if n > 0 { RequestOpsOk(l, parts, n - 1, http10); }
  }

  lemma {:induction false} BodyTextStep(parts: seq<string>, i: nat, chunked: bool)
    requires i < |parts|
    ensures BodyText(parts[..i + 1], chunked) == BodyText(parts[..i], chunked) + DataText(parts[i], chunked)
  {
    assert parts[..i + 1][..i] == parts[..i];
  }
}
