/** What the byte-by-byte run makes of message bodies: chunks, the last chunk, and bodies of a given length. */
module Bodies {
  import opened Chars
  import opened HttpParser
  import opened ByteStream
  import opened Execute
  import opened Lengths
  import opened Segments

  /** The callbacks of the codec: it pauses the parser when a message is complete, and fails nothing. */
  const CODEC := Callbacks(0, false, true)

  // ---------------------------------------------------------------- chunk sizes

  /** The hexadecimal digits of a chunk size. */
  lemma {:induction false} SizeDigits(q: Run, s: string)
    requires Live(q) && q.p.state.SChunkSizeStart? && s != "" && AllHex(s) && ReadHex(s).Some?
    requires forall i :: 0 <= i < |s| ==> s[i] != CR
    ensures var r := Moved(q, q.p.(state := SChunkSize, contentLength := ReadHex(s).value), q.log, |s|);
            Live(r) && Fold(CODEC, true, q, s) == r
    decreases |s|
  {
    hide Step, Case, UnHex, Fold, AppendHexDigit, Inv, Sane;
    var n := |s| - 1;
    if n == 0 {
      FoldNothing(CODEC, q);
      assert "" + [s[0]] == s;
      GoByte(CODEC, q, "", q, s[0], q.p.(state := SChunkSize, contentLength := ReadHex(s).value), None) by {
        CaseGroups(CODEC, q.p, s[0]);
      }
    } else {
      SizeDigits(q, s[..n]);
      var r := Moved(q, q.p.(state := SChunkSize, contentLength := ReadHex(s[..n]).value), q.log, n);
      GoByte(CODEC, q, s[..n], r, s[n], r.p.(contentLength := ReadHex(s).value), None) by {
        CaseGroups(CODEC, r.p, s[n]);
      }
      assert s[..n] + [s[n]] == s;
    }
  }

  lemma {:induction false} HexHasNoCr(n: nat)
    ensures forall i :: 0 <= i < |Hex(n)| ==> Hex(n)[i] != CR
  {
    if n >= 16 { HexHasNoCr(n / 16); }
  }

  /** The hexadecimal digits of RFC 7230, and their values. */
  function HexDigit(c: char): Option<nat> {
    if IsNum(c) then Some(Digit(c))
    else if 'a' <= c <= 'f' then Some(c as nat - 'a' as nat + 10)
    else if 'A' <= c <= 'F' then Some(c as nat - 'A' as nat + 10)
    else None
  }

  /**
   * A chunk size is read as it should be exactly if no byte of it is from 128 on: the parser takes such a byte for the
   * digit 0, at the start of a size as well as inside it.
   */
  lemma {:induction false} SizeByte(p: Parser, c: char)
    requires Inv(p) && p.errno.OK? && (p.state.SChunkSizeStart? || p.state.SChunkSize?)
    ensures (if UnHex(c) == -1 then HexDigit(c).None? else HexDigit(c) == Some(UnHex(c) as nat)) <==> c as int < 128
    ensures c as int >= 128 ==> SizeCase(p, c) == SizeCase(p, '0')
  {
    hide Inv, AppendHexDigit;
  }

  /** A chunk size line. */
  lemma {:induction false} SizeLine(q: Run, n: nat)
    requires Live(q) && q.p.state.SChunkSizeStart? && n < UINT32_RANGE
    ensures var p := if n == 0 then q.p.(contentLength := 0, flags := q.p.flags.(trailing := true),
              state := SHeaderFieldStart)
                     else q.p.(contentLength := n, state := SChunkData);
            var r := Moved(q, p, q.log + [ChunkHeader(n)], |Hex(n)| + 2);
            Live(r) && Fold(CODEC, true, q, Hex(n) + CRLF) == r
  {
    hide Step, Case, Fold, Hex, Inv, Sane;
    var s := Hex(n);
    HexRoundTrip(n);
    HexHasNoCr(n);
    SizeDigits(q, s);
    var r := Moved(q, q.p.(state := SChunkSize, contentLength := n), q.log, |s|);
    GoByte(CODEC, q, s, r, CR, r.p.(state := SChunkSizeAlmostDone), None) by { CaseGroups(CODEC, r.p, CR); }
    var r1 := Moved(r, r.p.(state := SChunkSizeAlmostDone), r.log, 1);
    var p := if n == 0 then r1.p.(flags := q.p.flags.(trailing := true), state := SHeaderFieldStart)
             else r1.p.(state := SChunkData);
    NoteByte(CODEC, q, s + [CR], r1, LF, p, ChunkHeader(n)) by { CaseGroups(CODEC, r1.p, LF); }
    assert s + [CR] + [LF] == s + CRLF;
  }

  /**
   * A chunk as the encoder writes it. The size goes through the 32-bit format `%x`, so it is right exactly for
   * data shorter than 2^32 (lemma `ChunkSizeRight`).
   */
  function Chunk(data: string): string { Hex(Low32(|data|)) + CRLF + data + CRLF }

  /** The low 32 bits of `n`. */
  function Low32(n: nat): (r: nat)
    ensures n < UINT32_RANGE ==> r == n
    ensures r < UINT32_RANGE
  {
    n % UINT32_RANGE
  }

  /** The chunk size written is the size of the data exactly below 2^32. */
  lemma {:induction false} ChunkSizeRight(n: nat)
    ensures HexValue(Hex(Low32(n))) == n <==> n < UINT32_RANGE
  {
    hide Hex, HexValue;
  }

  const LAST_CHUNK: string := "0\r\n\r\n"

  /** The CR LF after the data of a chunk. */
  lemma {:induction false} ChunkTail(q: Run)
    requires Live(q) && q.p.state.SChunkDataAlmostDone?
    ensures var r := Moved(q, q.p.(state := SChunkSizeStart), q.log + [ChunkComplete], 2);
            Live(r) && Fold(CODEC, true, q, CRLF) == r
  {
    hide Step, Case, Fold, Inv, Sane;
    FoldNothing(CODEC, q);
    GoByte(CODEC, q, "", q, CR, q.p.(state := SChunkDataDone), Some(Body)) by { CaseGroups(CODEC, q.p, CR); }
    assert "" + [CR] == [CR];
    var r := Moved(q, q.p.(state := SChunkDataDone), q.log, 1);
    NoteByte(CODEC, q, [CR], r, LF, q.p.(state := SChunkSizeStart), ChunkComplete) by { CaseGroups(CODEC, r.p, LF); }
    assert [CR] + [LF] == CRLF;
  }

  lemma {:induction false} ChunkText(data: string)
    requires |data| < UINT32_RANGE
    ensures Chunk(data) == Hex(|data|) + CRLF + data + CRLF
  {
    hide Hex, HexValue, AllHex, Low32;
  }

  lemma {:induction false} ChunkSegment(q: Run, data: string)
    requires Live(q) && q.p.state.SChunkSizeStart? && 0 < |data| < UINT32_RANGE
    ensures var r := Moved(q, q.p.(contentLength := 0), q.log + [ChunkHeader(|data|), Data(Body, data), ChunkComplete],
                           |Chunk(data)|);
            Live(r) && Fold(CODEC, true, q, Chunk(data)) == r
  {
    hide Step, Case, Fold, Hex, Chunk, Inv, Sane;
    ChunkText(data);
    var n := |data|;
    SizeLine(q, n);
    var head := Hex(n) + CRLF;
    var r := Moved(q, q.p.(contentLength := n, state := SChunkData), q.log + [ChunkHeader(n)], |head|);
    ChunkLastByte(CODEC, true, r, data);
    var r1 := Moved(r, q.p.(contentLength := 0, state := SChunkDataAlmostDone), r.log + [Data(Body, data)], n);
    ChunkTail(r1);
    FoldConcat(CODEC, true, q, head, data);
    FoldConcat(CODEC, true, q, head + data, CRLF);
    assert head + data + CRLF == Chunk(data);
    assert r1.log + [ChunkComplete] == q.log + [ChunkHeader(n), Data(Body, data), ChunkComplete];
  }

  /** The blank line after the trailers, of which there are none. */
  lemma {:induction false} TrailerEnd(q: Run)
    requires Live(q) && q.p.state.SHeaderFieldStart? && q.p.flags.trailing
    ensures Fold(CODEC, true, q, CRLF) ==
            Run(q.p.(state := NewMessage(q.p), errno := Paused), q.log + [ChunkComplete, MessageComplete], false, true,
                q.consumed + 2)
  {
    hide Step, Case, Fold, Sane, Inv;
    FoldNothing(CODEC, q);
    GoByte(CODEC, q, "", q, CR, q.p.(state := SHeadersAlmostDone), None) by { CaseGroups(CODEC, q.p, CR); }
    assert "" + [CR] == [CR];
    var r := Moved(q, q.p.(state := SHeadersAlmostDone), q.log, 1);
    FoldSnoc(CODEC, true, q, [CR], LF);
    assert [CR] + [LF] == CRLF;
    StepAgain(CODEC, true, r, LF, Effect(q.p.(state := SMessageDone), None, None, [ChunkComplete], Again)) by {
      CaseGroups(CODEC, r.p, LF);
    }
    EmitAllAppend(r.log, [], ChunkComplete);
    assert [] + [ChunkComplete] == [ChunkComplete];
    DoneByte(Moved(r, q.p.(state := SMessageDone), r.log + [ChunkComplete], 0), LF);
    assert q.log + [ChunkComplete] + [MessageComplete] == q.log + [ChunkComplete, MessageComplete];
  }

  /** The last chunk completes the message with its last byte. */
  lemma {:induction false} LastChunkSegment(q: Run)
    requires Live(q) && q.p.state.SChunkSizeStart?
    ensures var p := q.p.(contentLength := 0, flags := q.p.flags.(trailing := true), state := NewMessage(q.p),
              errno := Paused);
            Fold(CODEC, true, q, LAST_CHUNK) ==
            Run(p, q.log + [ChunkHeader(0), ChunkComplete, MessageComplete], false, true, q.consumed + 5)
  {
    hide Step, Case, Fold, Inv, Sane;
    SizeLine(q, 0);
    HexOfZero();
    var p := q.p.(contentLength := 0, flags := q.p.flags.(trailing := true), state := SHeaderFieldStart);
    var r := Moved(q, p, q.log + [ChunkHeader(0)], 3);
    TrailerEnd(r);
    FoldConcat(CODEC, true, q, "0" + CRLF, CRLF);
    assert "0" + CRLF + CRLF == LAST_CHUNK;
    assert r.log + [ChunkComplete, MessageComplete] == q.log + [ChunkHeader(0), ChunkComplete, MessageComplete];
  }

  lemma {:induction false} HexOfZero()
    ensures Hex(0) == "0"
  {
    assert HexChar(0) == '0';
  }

  /** The byte on which a message is complete. */
  lemma {:induction false} DoneByte(q: Run, ch: char)
    requires Live(q) && q.p.state.SMessageDone?
    ensures Step(CODEC, true, q, ch) ==
            Run(q.p.(state := NewMessage(q.p), errno := Paused), q.log + [MessageComplete], false, true, q.consumed + 1)
  {
    hide Case;
    CaseGroups(CODEC, q.p, ch);
    EmitAllAppend(q.log, [], MessageComplete);
    assert [] + [MessageComplete] == [MessageComplete];
  }

  /** A body of the announced length completes the message with its last byte. */
  lemma {:induction false} IdentitySegment(q: Run, data: string)
    requires Live(q) && q.p.state.SBodyIdentity? && |data| == q.p.contentLength && !LastIs(q.log, Body)
    ensures var p := q.p.(contentLength := 0, state := NewMessage(q.p), errno := Paused);
            Fold(CODEC, true, q, data) ==
            Run(p, q.log + [Data(Body, data), MessageComplete], false, true, q.consumed + |data|)
  {
    hide Step, Case, Fold, Sane;
    BodyLastByte(CODEC, true, q, data);
    var r := Moved(q, q.p.(contentLength := 0, state := SMessageDone), q.log + [Data(Body, data)], |data| - 1);
    DoneByte(r, data[|data| - 1]);
    assert r.log + [MessageComplete] == q.log + [Data(Body, data), MessageComplete];
  }

  // ---------------------------------------------------------------- a chunked body

  predicate ChunksOk(parts: seq<string>) { forall i :: 0 <= i < |parts| ==> |parts[i]| < UINT32_RANGE }

  /** What the encoder writes for the data buffers `parts`: an empty one writes nothing. */
  function Chunks(parts: seq<string>): string {
    if parts == [] then ""
    else
      var d := parts[|parts| - 1];
      Chunks(parts[..|parts| - 1]) + (if d == "" then "" else Chunk(d))
  }

  function ChunkEvents(parts: seq<string>): seq<Event> {
    if parts == [] then []
    else
      var d := parts[|parts| - 1];
      ChunkEvents(parts[..|parts| - 1]) +
      (if d == "" then [] else [ChunkHeader(|d|), Data(Body, d), ChunkComplete])
  }

  lemma {:induction false} ChunksSegment(q: Run, parts: seq<string>)
    requires Live(q) && q.p.state.SChunkSizeStart? && ChunksOk(parts)
    ensures var r := Fold(CODEC, true, q, Chunks(parts));
            Live(r) && r == Moved(q, q.p.(contentLength := r.p.contentLength), q.log + ChunkEvents(parts), |Chunks(parts)|)
    decreases |parts|
  {
    hide Step, Chunk;
    if parts == [] {
      assert q.log + [] == q.log;
    } else {
      var n := |parts| - 1;
      var d := parts[n];
      ChunksSegment(q, parts[..n]);
      var r := Fold(CODEC, true, q, Chunks(parts[..n]));
      if d == "" {
        assert Chunks(parts[..n]) + "" == Chunks(parts[..n]);
        assert ChunkEvents(parts[..n]) + [] == ChunkEvents(parts[..n]);
      } else {
        ChunkSegment(r, d);
        FoldConcat(CODEC, true, q, Chunks(parts[..n]), Chunk(d));
        var es := [ChunkHeader(|d|), Data(Body, d), ChunkComplete];
        assert q.log + ChunkEvents(parts[..n]) + es == q.log + (ChunkEvents(parts[..n]) + es);
      }
    }
  }

  /** The body bytes a log delivers, in order. */
  function BodyOf(log: seq<Event>): string {
    if log == [] then ""
    else
      var e := log[|log| - 1];
      BodyOf(log[..|log| - 1]) + (if e.Data? && e.kind.Body? then e.bytes else "")
  }

  lemma {:induction false} BodyOfConcat(a: seq<Event>, b: seq<Event>)
    ensures BodyOf(a + b) == BodyOf(a) + BodyOf(b)
    decreases |b|
  {
    if b == [] {
      assert a + b == a;
    } else {
      var n := |b| - 1;
      assert (a + b)[..|a| + n] == a + b[..n];
      BodyOfConcat(a, b[..n]);
    }
  }

  lemma {:induction false} ChunkEventsDeliver(parts: seq<string>)
    ensures BodyOf(ChunkEvents(parts)) == Join(parts)
    decreases |parts|
  {
    if parts != [] {
      var n := |parts| - 1;
      var d := parts[n];
      ChunkEventsDeliver(parts[..n]);
      var es := if d == "" then [] else [ChunkHeader(|d|), Data(Body, d), ChunkComplete];
      BodyOfConcat(ChunkEvents(parts[..n]), es);
      if d != "" { OneChunkDelivers(d); }
    }
  }

  lemma {:induction false} OneChunkDelivers(d: string)
    ensures BodyOf([ChunkHeader(|d|), Data(Body, d), ChunkComplete]) == d
  {
    BodyOfOne(ChunkHeader(|d|));
    BodyOfOne(Data(Body, d));
    BodyOfOne(ChunkComplete);
    BodyOfConcat([ChunkHeader(|d|)], [Data(Body, d)]);
    BodyOfConcat([ChunkHeader(|d|)] + [Data(Body, d)], [ChunkComplete]);
    assert [ChunkHeader(|d|)] + [Data(Body, d)] + [ChunkComplete] == [ChunkHeader(|d|), Data(Body, d), ChunkComplete];
  }

  lemma {:induction false} BodyOfOne(e: Event)
    ensures BodyOf([e]) == if e.Data? && e.kind.Body? then e.bytes else ""
  {
    assert [e][..0] == [];
  }

  /**
   * Chunked round trip (section 4.1 of RFC 7230): the chunks of any data buffers, then the last chunk, complete
   * the message with their last byte, and the body delivered is the data; empty buffers leave no trace.
   */
  lemma {:induction false} ChunkedRoundTrip(q: Run, parts: seq<string>)
    requires Live(q) && q.p.state.SChunkSizeStart? && ChunksOk(parts)
    ensures var w := Chunks(parts) + LAST_CHUNK;
            var r := Fold(CODEC, true, q, w);
            && r.p.errno.Paused? && r.halted && r.consumed == q.consumed + |w| && r.p.state == NewMessage(q.p)
            && r.log == q.log + ChunkEvents(parts) + [ChunkHeader(0), ChunkComplete, MessageComplete]
            && BodyOf(ChunkEvents(parts)) == Join(parts)
  {
    hide Step, Fold;
    ChunksSegment(q, parts);
    LastChunkSegment(Fold(CODEC, true, q, Chunks(parts)));
    FoldConcat(CODEC, true, q, Chunks(parts), LAST_CHUNK);
    ChunkEventsDeliver(parts);
  }
}
