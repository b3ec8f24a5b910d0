/**
 * The header size limit for messages as the encoder writes them: a head counts with all its bytes, chunk size lines
 * with at most ten, and body data not at all, however the message is cut.
 */
module HeaderRoom {
  import opened Chars
  import opened Methods
  import opened HeaderNames
  import opened HttpParser
  import opened ByteStream
  import opened HeaderCount
  import opened Execute
  import opened Fragmentation
  import opened Lengths
  import opened Segments
  import opened HeaderLines
  import opened Bodies
  import opened Request

  // ---------------------------------------------------------------- bounds at every byte

  /** The counter never passes `bound` before the end of `s`, and is at `last` there. */
  ghost predicate Bounded(c: nat, q: Run, s: string, bound: nat, last: nat)
    requires Inv(q.p)
  {
    && Count(CODEC, true, c, q, s) == last
    && forall i :: 0 <= i <= |s| ==> Count(CODEC, true, c, q, s[..i]) <= bound
  }

  lemma {:induction false} BoundedConcat(c: nat, q: Run, s: string, t: string, bound: nat, mid: nat, last: nat)
    requires Inv(q.p) && Bounded(c, q, s, bound, mid) && Bounded(mid, Fold(CODEC, true, q, s), t, bound, last)
    ensures Bounded(c, q, s + t, bound, last)
  {
    hide Fold, Count;
    CountConcat(CODEC, true, c, q, s, t);
    forall i | 0 <= i <= |s + t|
      ensures Count(CODEC, true, c, q, (s + t)[..i]) <= bound
    {
      if i <= |s| {
        assert (s + t)[..i] == s[..i];
      } else {
        assert (s + t)[..i] == s + t[..i - |s|];
        CountConcat(CODEC, true, c, q, s, t[..i - |s|]);
      }
    }
  }

  lemma {:induction false} BoundedByLength(c: nat, q: Run, s: string, bound: nat)
    requires Inv(q.p) && c + |s| <= bound
    ensures Bounded(c, q, s, bound, Count(CODEC, true, c, q, s))
  {
    hide Fold;
  }

  // ---------------------------------------------------------------- a chunked body

  function Pow16(k: nat): nat { if k == 0 then 1 else 16 * Pow16(k - 1) }

  lemma {:induction false} HexWidth(n: nat, k: nat)
    requires k > 0 && n < Pow16(k)
    ensures |Hex(n)| <= k
    decreases k
  {
    hide HexChar;
    if n >= 16 { HexWidth(n / 16, k - 1); }
  }

  lemma {:induction false} Pow16Of8()
    ensures Pow16(8) == UINT32_RANGE
  {
    assert Pow16(4) == 0x1_0000;
    assert Pow16(6) == 256 * Pow16(4);
  }

  /** The line feed of a chunk size line starts the count afresh. */
  lemma {:induction false} SizeResets(p: Parser)
    requires Inv(p) && p.errno.OK? && p.state.SChunkSizeAlmostDone?
    ensures Resets(CODEC, p, LF)
  {
    hide Inv;
    CaseGroups(CODEC, p, LF);
  }

  lemma {:induction false} SizeLineCount(q: Run, n: nat)
    requires Live(q) && q.p.state.SChunkSizeStart? && n < UINT32_RANGE
    ensures Bounded(0, q, Hex(n) + CRLF, 10, 0)
  {
    hide Step, Fold, Hex, Inv, Case, Resets;
    var s := Hex(n);
    Pow16Of8();
    HexWidth(n, 8);
    BoundedByLength(0, q, s + CRLF, 10);
    SizeLineEnd(q, n);
    assert (s + [CR]) + [LF] == s + CRLF;
    CountSnoc(CODEC, true, 0, q, s + [CR], LF);
    SizeResets(Fold(CODEC, true, q, s + [CR]).p);
  }

  /** Where the parser stands before the line feed of a chunk size line. */
  lemma {:induction false} SizeLineEnd(q: Run, n: nat)
    requires Live(q) && q.p.state.SChunkSizeStart? && n < UINT32_RANGE
    ensures var r := Fold(CODEC, true, q, Hex(n) + [CR]); Live(r) && r.p.state.SChunkSizeAlmostDone?
  {
    hide Step, Fold, Hex, Inv, Case, Sane;
    var s := Hex(n);
    HexRoundTrip(n);
    HexHasNoCr(n);
    SizeDigits(q, s);
    var r := Moved(q, q.p.(state := SChunkSize, contentLength := n), q.log, |s|);
    GoByte(CODEC, q, s, r, CR, r.p.(state := SChunkSizeAlmostDone), None) by { CaseGroups(CODEC, r.p, CR); }
  }

  lemma {:induction false} DataCount(c: nat, q: Run, s: string, bound: nat)
    requires Live(q) && BodyRunState(q.p.state) && |s| <= q.p.contentLength && c <= bound
    ensures Bounded(c, q, s, bound, c)
  {
    hide Fold, Count;
    BodyNotCounted(CODEC, true, c, q, s);
    forall i | 0 <= i <= |s|
      ensures Count(CODEC, true, c, q, s[..i]) == c
    {
      BodyNotCounted(CODEC, true, c, q, s[..i]);
    }
  }

  lemma {:induction false} TailCount(q: Run)
    requires Live(q) && q.p.state.SChunkDataAlmostDone?
    ensures Bounded(0, q, CRLF, 10, 0)
  {
    hide Fold, Case, Inv, Sane, Resets;
    BoundedByLength(0, q, CRLF, 10);
    FoldNothing(CODEC, q);
    GoByte(CODEC, q, "", q, CR, q.p.(state := SChunkDataDone), Some(Body)) by { CaseGroups(CODEC, q.p, CR); }
    assert "" + [CR] == [CR] && [CR] + [LF] == CRLF;
    CountSnoc(CODEC, true, 0, q, [CR], LF);
    TailResets(Fold(CODEC, true, q, [CR]).p);
  }

  lemma {:induction false} TailResets(p: Parser)
    requires Inv(p) && p.errno.OK? && p.state.SChunkDataDone?
    ensures Resets(CODEC, p, LF)
  {
    hide Inv;
    CaseGroups(CODEC, p, LF);
  }

  lemma {:induction false} ChunkCount(q: Run, data: string)
    requires Live(q) && q.p.state.SChunkSizeStart? && 0 < |data| < UINT32_RANGE
    ensures Bounded(0, q, Chunk(data), 10, 0)
  {
    hide Step, Case, Fold, Hex, Chunk, Inv, Sane, Bounded;
    ChunkText(data);
    var n := |data|;
    SizeLine(q, n);
    SizeLineCount(q, n);
    var head := Hex(n) + CRLF;
    var r := Moved(q, q.p.(contentLength := n, state := SChunkData), q.log + [ChunkHeader(n)], |head|);
    DataCount(0, r, data, 10);
    ChunkLastByte(CODEC, true, r, data);
    BoundedConcat(0, q, head, data, 10, 0, 0);
    FoldConcat(CODEC, true, q, head, data);
    TailCount(Fold(CODEC, true, q, head + data));
    BoundedConcat(0, q, head + data, CRLF, 10, 0, 0);
    assert head + data + CRLF == Chunk(data);
  }

  lemma {:induction false} ChunksCount(q: Run, parts: seq<string>)
    requires Live(q) && q.p.state.SChunkSizeStart? && ChunksOk(parts)
    ensures Bounded(0, q, Chunks(parts), 10, 0)
    decreases |parts|
  {
    hide Step, Chunk, Bounded, Fold;
    if parts == [] {
      BoundedByLength(0, q, "", 10);
      NothingCounted(CODEC, 0, q, "");
      CountNothing(q);
    } else {
      var n := |parts| - 1;
      var d := parts[n];
      ChunksCount(q, parts[..n]);
      if d == "" {
        assert Chunks(parts[..n]) + "" == Chunks(parts[..n]);
      } else {
        ChunksSegment(q, parts[..n]);
        ChunkCount(Fold(CODEC, true, q, Chunks(parts[..n])), d);
        BoundedConcat(0, q, Chunks(parts[..n]), Chunk(d), 10, 0, 0);
      }
    }
  }

  lemma {:induction false} CountNothing(q: Run)
    requires Inv(q.p)
    ensures forall c: nat :: Count(CODEC, true, c, q, "") == c
  {
  }

  /** The blank line behind the last chunk counts, and nothing starts the count afresh at the end of the message. */
  lemma {:induction false} TrailerCount(q: Run)
    requires Live(q) && q.p.state.SHeaderFieldStart? && q.p.flags.trailing
    ensures Count(CODEC, true, 0, q, CRLF) == 2
  {
    hide Step, Case, Fold, Inv, Sane, Resets;
    FoldNothing(CODEC, q);
    GoByte(CODEC, q, "", q, CR, q.p.(state := SHeadersAlmostDone), None) by { CaseGroups(CODEC, q.p, CR); }
    assert "" + [CR] == [CR] && [CR] + [LF] == CRLF;
    CountNothing(q);
    CountSnoc(CODEC, true, 0, q, "", CR);
    CountSnoc(CODEC, true, 0, q, [CR], LF);
    TrailerResets(q.p, Fold(CODEC, true, q, [CR]).p);
  }

  lemma {:induction false} TrailerResets(p: Parser, r: Parser)
    requires Inv(p) && p.errno.OK? && p.state.SHeaderFieldStart?
    requires Inv(r) && r.errno.OK? && r.state.SHeadersAlmostDone? && r.flags.trailing
    ensures !Resets(CODEC, p, CR) && !Resets(CODEC, r, LF)
  {
    hide Inv;
    CaseGroups(CODEC, p, CR);
    CaseGroups(CODEC, r, LF);
    NoReset(CODEC, r.(state := SMessageDone), LF);
  }

  /** The whole chunked body. Of the last chunk the blank line stays counted. */
  lemma {:induction false} ChunkedCount(q: Run, parts: seq<string>)
    requires Live(q) && q.p.state.SChunkSizeStart? && ChunksOk(parts)
    ensures Bounded(0, q, Chunks(parts) + LAST_CHUNK, 10, 2)
  {
    hide Step, Fold, Bounded, Count;
    ChunksCount(q, parts);
    ChunksSegment(q, parts);
    var r := Fold(CODEC, true, q, Chunks(parts));
    SizeLineCount(r, 0);
    HexOfZero();
    var size := "0" + CRLF;
    var t := Fold(CODEC, true, r, size);
    SizeLine(r, 0);
    TrailerCount(t);
    BoundedByLength(0, t, CRLF, 10);
    BoundedConcat(0, r, size, CRLF, 10, 0, 2);
    assert size + CRLF == LAST_CHUNK;
    BoundedConcat(0, q, Chunks(parts), LAST_CHUNK, 10, 0, 2);
  }

  // ---------------------------------------------------------------- a head

  /** The line feed of the blank line after a request head starts the count afresh. */
  lemma {:induction false} HeadResets(p: Parser)
    requires Inv(p) && p.errno.OK? && p.state.SHeadersAlmostDone? && !p.flags.trailing
    requires !(p.flags.chunked && p.flags.contentLength)
    ensures Resets(CODEC, p, LF)
  {
    hide Inv;
    CaseGroups(CODEC, p, LF);
    var e := Case(CODEC, p, false, LF);
    CaseGroups(CODEC, e.p, LF);
  }

  /** A request head counts with its bytes, and after it nothing is counted. */
  lemma {:induction false} HeadCount(c: nat, q: Run, m: Method, path: string, hs: seq<Header>)
    requires Live(q) && q.p.state.SStartReq? && HeadOk(m, path, hs)
    ensures Bounded(c, q, Head(m, path, hs), c + |Head(m, path, hs)|, 0)
  {
    hide Step, Case, Fold, MethodString, Block, BlockOk, FrameOf, BlockEvents, IsPath, Inv, HasBody, Sane, Count,
         Resets;
    var s := MethodString(m) + " " + path + PROTOCOL + Block(hs);
    BeforeBlankLine(q, m, path, hs);
    assert s + [CR] + [LF] == Head(m, path, hs);
    CountSnoc(CODEC, true, c, q, s + [CR], LF);
    HeadResets(Fold(CODEC, true, q, s + [CR]).p);
    BoundedByLength(c, q, Head(m, path, hs), c + |Head(m, path, hs)|);
  }

  /** Where the parser stands before the last byte of a request head. */
  lemma {:induction false} BeforeBlankLine(q: Run, m: Method, path: string, hs: seq<Header>)
    requires Live(q) && q.p.state.SStartReq? && HeadOk(m, path, hs)
    ensures var r := Fold(CODEC, true, q, MethodString(m) + " " + path + PROTOCOL + Block(hs) + [CR]);
            Live(r) && r.log == q.log + [MessageBegin, Data(Url, path)] + BlockEvents(hs) &&
                r.p.state.SHeadersAlmostDone? && !r.p.flags.trailing && !(r.p.flags.chunked && r.p.flags.contentLength)
  {
    hide Step, Case, Fold, MethodString, Block, BlockOk, FrameOf, BlockEvents, IsPath, Inv, HasBody, Sane;
    var s := MethodString(m) + " " + path + PROTOCOL;
    ProtocolOne();
    RequestLine(q, m, path, "1", "1");
    var r := Fold(CODEC, true, q, s);
    BlockSegment(CODEC, r, hs);
    FoldConcat(CODEC, true, q, s, Block(hs));
    var r1 := Fold(CODEC, true, r, Block(hs));
    SettledFold(CODEC, r1, [CR]);
    FoldConcat(CODEC, true, q, s + Block(hs), [CR]);
    var t := Settled(r1);
    FoldNothing(CODEC, t);
    GoByte(CODEC, t, "", t, CR, t.p.(state := SHeadersAlmostDone), None) by { CaseGroups(CODEC, t.p, CR); }
    assert "" + [CR] == [CR];
  }

  // ---------------------------------------------------------------- every byte of a head counts

  /** The headers of a message have been completed. */
  predicate Told(log: seq<Event>) { exists i :: 0 <= i < |log| && log[i].HeadersComplete? }

  /** The states of a request up to the end of its headers. */
  predicate InHead(p: Parser) {
    && !ChunkState(p.state) && !p.state.SBodyIdentity? && !p.state.SHeadersDone? && !p.state.SMessageDone?
    && (p.flags.trailing ==> p.state.SStartReq? || p.state.SDead?)
  }

  /** A byte of a head stays in the head, counts, and starts nothing afresh, unless it completes the headers. */
  lemma {:induction false} HeadByte(q: Run, ch: char)
    requires Inv(q.p) && q.p.errno.OK? && !q.halted && InHead(q.p)
    ensures var r := Step(CODEC, true, q, ch);
            r.p.errno.OK? && !r.halted && !Told(r.log) ==> InHead(r.p) && !Resets(CODEC, q.p, ch) && Counts(q)
    decreases Rank(q.p.state)
  {
    hide Inv, Case, Told;
    var e := Case(CODEC, q.p, false, ch);
    HeadCase(q.p, ch);
    if e.ctl.Again? {
      var t := Run(e.p, Noted(q.log, e, ch), false, q.halted, q.consumed);
      if e.p.state.SHeadersDone? {
        ToldNow(q.log, e.notes[0]);
        ToldStays(t, ch);
      } else {
        HeadByte(t, ch);
      }
    }
  }

  /** A `case` in the head stays there, unless it completes the headers. */
  predicate KeepsHead(e: Effect) {
    && (e.ctl.Next? ==> InHead(e.p))
    && (e.ctl.Again? ==>
          if e.p.state.SHeadersDone? then e.data.None? && |e.notes| == 1 && e.notes[0].HeadersComplete?
          else InHead(e.p))
  }

  lemma {:induction false} UrlHead(p: Parser, ch: char)
    requires Inv(p) && p.errno.OK? && InHead(p)
    ensures StartState(p.state) ==> KeepsHead(StartCase(p, ch))
    ensures UrlState(p.state) ==> KeepsHead(UrlCase(p, ch))
  {
    hide Inv, Sane, ParseUrlChar;
  }

  lemma {:induction false} VersionHead(p: Parser, ch: char)
    requires Inv(p) && p.errno.OK? && InHead(p)
    ensures ProtocolState(p.state) ==> KeepsHead(ProtocolCase(p, ch))
    ensures VersionState(p.state) ==> KeepsHead(VersionCase(p, ch))
  {
    hide Inv, Sane;
  }

  lemma {:induction false} FieldHead(p: Parser, ch: char)
    requires Inv(p) && p.errno.OK? && InHead(p)
    ensures FieldState(p.state) ==> KeepsHead(FieldCase(p, ch))
    ensures DiscardState(p.state) ==> KeepsHead(DiscardCase(p, ch))
  {
    hide Inv, Sane, FieldStep, FieldStartHs;
  }

  lemma {:induction false} ValueHead(p: Parser, ch: char)
    requires Inv(p) && p.errno.OK? && InHead(p)
    ensures p.state.SHeaderValue? ==> KeepsHead(ValueCase(p, false, ch))
    ensures ValueEdgeState(p.state) ==> KeepsHead(ValueEdgeCase(p, ch))
    ensures EndState(p.state) ==> KeepsHead(EndCase(CODEC, p, ch))
  {
    hide Inv, Sane;
  }

  /** One `case` in the head. */
  lemma {:induction false} HeadCase(p: Parser, ch: char)
    requires Inv(p) && p.errno.OK? && InHead(p)
    ensures var e := Case(CODEC, p, false, ch);
            KeepsHead(e) && !ResetsCount(p, e) && ParsingHeader(p.state)
  {
    hide Inv, Sane, Case, StartCase, UrlCase, ProtocolCase, VersionCase, FieldCase, DiscardCase, ValueCase,
         ValueEdgeCase, EndCase, BodyCase, KeepsHead;
    CaseGroups(CODEC, p, ch);
    UrlHead(p, ch);
    VersionHead(p, ch);
    FieldHead(p, ch);
    ValueHead(p, ch);
  }

  lemma {:induction false} ToldNow(log: seq<Event>, e: Event)
    requires e.HeadersComplete?
    ensures Told(EmitAll(log, [e]))
  {
    EmitAllAppend(log, [], e);
    assert [] + [e] == [e];
    var r := EmitAll(log, [e]);
    assert r == log + [e] && r[|log|] == e;
  }

  lemma {:induction false} ToldEmit(log: seq<Event>, e: Event)
    requires Told(log)
    ensures Told(Emit(log, e))
  {
    var i :| 0 <= i < |log| && log[i].HeadersComplete?;
    assert Emit(log, e)[i] == log[i];
  }

  lemma {:induction false} ToldEmitAll(log: seq<Event>, es: seq<Event>)
    requires Told(log)
    ensures Told(EmitAll(log, es))
    decreases |es|
  {
    hide Told, Emit;
    if es != [] {
      ToldEmitAll(log, es[..|es| - 1]);
      ToldEmit(EmitAll(log, es[..|es| - 1]), es[|es| - 1]);
    }
  }

  /** What has been told stays told. */
  lemma {:induction false} ToldStays(q: Run, ch: char)
    requires Inv(q.p) && q.p.errno.OK? && !q.halted && Told(q.log)
    ensures Told(Step(CODEC, true, q, ch).log)
    decreases Rank(q.p.state)
  {
    hide Inv, Case, Told, Emit, EmitAll;
    var e := Case(CODEC, q.p, false, ch);
    if e.data.Some? { ToldEmit(q.log, Data(e.data.value, [ch])); }
    ToldEmitAll(if e.data.Some? then Emit(q.log, Data(e.data.value, [ch])) else q.log, e.notes);
    if e.ctl.Again? { ToldStays(Run(e.p, Noted(q.log, e, ch), false, q.halted, q.consumed), ch); }
  }

  /** Up to the end of the headers every byte counts, once. */
  lemma {:induction false} HeadCounted(c: nat, q: Run, s: string)
    requires Live(q) && InHead(q.p)
    requires var r := Fold(CODEC, true, q, s); r.p.errno.OK? && !r.halted && !Told(r.log)
    ensures Count(CODEC, true, c, q, s) == c + |s| && InHead(Fold(CODEC, true, q, s).p)
    decreases |s|
  {
    hide Step, Told, Resets, Inv, InHead, Counts;
    if s != "" {
      var n := |s| - 1;
      var r := Fold(CODEC, true, q, s[..n]);
      StoppedStep(r, s[n]);
      if Told(r.log) { ToldStays(r, s[n]); }
      HeadCounted(c, q, s[..n]);
      HeadByte(r, s[n]);
    }
  }

  lemma {:induction false} StoppedStep(q: Run, ch: char)
    requires Inv(q.p)
    ensures q.halted || !q.p.errno.OK? ==> Step(CODEC, true, q, ch) == q
  {
  }

  /** The prefixes of a run that has neither stopped nor completed the headers. */
  lemma {:induction false} StillInHead(q: Run, s: string, i: nat)
    requires Inv(q.p) && i <= |s|
    requires var r := Fold(CODEC, true, q, s); r.p.errno.OK? && !r.halted && !Told(r.log)
    ensures var r := Fold(CODEC, true, q, s[..i]); r.p.errno.OK? && !r.halted && !Told(r.log)
    decreases |s|
  {
    hide Step, Told, Inv;
    if i == |s| {
      assert s[..i] == s;
    } else {
      var n := |s| - 1;
      var r := Fold(CODEC, true, q, s[..n]);
      StoppedStep(r, s[n]);
      if r.p.errno.OK? && !r.halted && Told(r.log) { ToldStays(r, s[n]); }
      StillInHead(q, s[..n], i);
      assert s[..n][..i] == s[..i];
    }
  }

  /** Every byte of a request head counts, up to the last, with which the count starts afresh. */
  lemma {:induction false} HeadCountExact(c: nat, q: Run, m: Method, path: string, hs: seq<Header>, i: nat)
    requires Live(q) && q.p.state.SStartReq? && HeadOk(m, path, hs) && !Told(q.log) && i <= |Head(m, path, hs)|
    ensures Count(CODEC, true, c, q, Head(m, path, hs)[..i]) == if i < |Head(m, path, hs)| then c + i else 0
    ensures i < |Head(m, path, hs)| ==> Counts(Fold(CODEC, true, q, Head(m, path, hs)[..i]))
  {
    hide Fold, Step, MethodString, Block, BlockOk, FrameOf, BlockEvents, IsPath, Inv, Told, Count, HeadOk, Bounded;
    var w := Head(m, path, hs);
    var s := MethodString(m) + " " + path + PROTOCOL + Block(hs) + [CR];
    if i == |w| {
      assert w[..i] == w;
      HeadCount(c, q, m, path, hs);
      BoundedEnd(c, q, w);
    } else {
      assert s + [LF] == w;
      BeforeBlankLine(q, m, path, hs);
      NothingTold(q.log, path, hs);
      assert w[..i] == s[..i];
      StillInHead(q, s, i);
      HeadCounted(c, q, s[..i]);
      InHeadCounts(Fold(CODEC, true, q, s[..i]));
    }
  }

  lemma {:induction false} BoundedEnd(c: nat, q: Run, w: string)
    requires Inv(q.p) && Bounded(c, q, w, c + |w|, 0)
    ensures Count(CODEC, true, c, q, w) == 0
  {
  }

  lemma {:induction false} InHeadCounts(q: Run)
    requires InHead(q.p) && q.p.errno.OK? && !q.halted
    ensures Counts(q)
  {
  }

  lemma {:induction false} NothingTold(log: seq<Event>, path: string, hs: seq<Header>)
    requires !Told(log)
    ensures !Told(log + [MessageBegin, Data(Url, path)] + BlockEvents(hs))
  {
    hide BlockEvents;
    BlockHasNoVersion(hs);
  }

  /** The header limit in bytes: a request head in one slice passes it exactly if with it there are more than 80 KiB. */
  lemma {:induction false} LongHead(c: nat, q: Run, m: Method, path: string, hs: seq<Header>)
    requires Live(q) && q.p.state.SStartReq? && HeadOk(m, path, hs) && !Told(q.log) && c <= 81920
    ensures Overfull(CODEC, c, q, Head(m, path, hs)) <==> c + |Head(m, path, hs)| > 81920
  {
    hide Fold, MethodString, Block, BlockOk, FrameOf, BlockEvents, IsPath, Inv, Told, Count, HeadOk, Head, FrameHasBody;
    var w := Head(m, path, hs);
    HeadRoundTrip(q, m, path, hs);
    forall i: nat | i <= |w|
      ensures Count(CODEC, false, c, q, w[..i]) == if i < |w| then c + i else 0
      ensures i < |w| ==> Counts(Fold(CODEC, false, q, w[..i]))
    {
      HeadCountExact(c, q, m, path, hs, i);
      StrictCount(c, q, w, i);
      if i < |w| { StrictState(q, w, i); }
    }
    assert w[..|w|] == w;
    assert Tally(CODEC, c, q, w) <= 1;
    HeadNotEmpty(m, path, hs);
    var last: nat := |w| - 1;
    if c + |w| > 81920 { assert NoRoom(CODEC, c, q, w, last); }
  }

  lemma {:induction false} HeadNotEmpty(m: Method, path: string, hs: seq<Header>)
    ensures Head(m, path, hs) != ""
  {
    hide MethodString, Block;
  }

  lemma {:induction false} StrictState(q: Run, w: string, i: nat)
    requires Inv(q.p) && !q.checked && !q.halted && TookAll(q, Fold(CODEC, true, q, w), w) && i < |w|
    ensures Counts(Fold(CODEC, true, q, w[..i])) ==> Counts(Fold(CODEC, false, q, w[..i]))
  {
    hide Fold;
    StrictByte(CODEC, q, w, i);
  }

  // ---------------------------------------------------------------- the limit in bytes

  /** Inside a general value the parser stays where it is. */
  lemma {:induction false} ValueStays(q: Run, s: string)
    requires Inv(q.p) && q.p.errno.OK? && !q.halted && q.p.state.SHeaderValue? && q.p.hs.HGeneral?
    requires forall i :: 0 <= i < |s| ==> IsHeaderChar(s[i]) && s[i] != CR && s[i] != LF
    ensures var r := Fold(CODEC, false, q, s); r.p == q.p && !r.halted
    decreases |s|
  {
    hide Inv, Emit, IsHeaderChar, ValueByte;
    if s != "" {
      var n := |s| - 1;
      ValueStays(q, s[..n]);
      ValueByteStays(Fold(CODEC, false, q, s[..n]), s[n]);
    }
  }

  lemma {:induction false} ValueByteStays(q: Run, c: char)
    requires Inv(q.p) && q.p.errno.OK? && !q.halted && q.p.state.SHeaderValue? && q.p.hs.HGeneral?
    requires IsHeaderChar(c) && c != CR && c != LF
    ensures Case(CODEC, q.p, q.checked, c) == Take(q.p, Value) && Step(CODEC, false, q, c).p == q.p &&
            !Step(CODEC, false, q, c).halted
  {
    hide Inv, Emit, IsHeaderChar;
  }

  /**
   * The header limit in bytes: a slice that lies inside a general value and brings the header bytes of its request to
   * 80 KiB or more passes the limit, and any other has room.
   */
  lemma {:induction false} LongValue(c: nat, q: Run, s: string)
    requires Inv(q.p) && q.p.errno.OK? && !q.halted && q.p.state.SHeaderValue? && q.p.hs.HGeneral? && s != ""
    requires forall i :: 0 <= i < |s| ==> IsHeaderChar(s[i]) && s[i] != CR && s[i] != LF
    ensures Overfull(CODEC, c, q, s) <==> c + |s| >= 81920
  {
    hide Fold, Count, Tally, IsHeaderChar, Inv;
    forall i: nat | i <= |s|
      ensures Fold(CODEC, false, q, s[..i]).p == q.p && !Fold(CODEC, false, q, s[..i]).halted &&
              Count(CODEC, false, c, q, s[..i]) == c + i
    {
      ValueStays(q, s[..i]);
      InValueLine(q, s[..i]);
      LineCount(CODEC, c, q, s[..i]);
    }
    assert s[..|s|] == s;
    InValueLine(q, s);
    LineCount(CODEC, c, q, s);
    var last: nat := |s| - 1;
    assert Count(CODEC, false, c, q, s[..last]) == c + last;
    if c + |s| - 1 >= MAX_HEADER_SIZE { assert NoRoom(CODEC, c, q, s, last); }
  }

  lemma {:induction false} InValueLine(q: Run, s: string)
    requires Inv(q.p) && q.p.errno.OK? && !q.halted && q.p.state.SHeaderValue? && q.p.hs.HGeneral?
    requires forall i :: 0 <= i < |s| ==> IsHeaderChar(s[i]) && s[i] != CR && s[i] != LF
    ensures InLine(CODEC, q, s)
  {
    hide Fold, IsHeaderChar, Inv;
    forall i | 0 <= i <= |s|
      ensures Fold(CODEC, false, q, s[..i]).p == q.p && !Fold(CODEC, false, q, s[..i]).halted
    {
      ValueStays(q, s[..i]);
    }
  }

  // ---------------------------------------------------------------- in slices

  /** The count does not depend on whether every byte is checked, if all of them pass. */
  lemma {:induction false} StrictCount(c: nat, q: Run, w: string, i: nat)
    requires Inv(q.p) && !q.checked && !q.halted && TookAll(q, Fold(CODEC, true, q, w), w) && i <= |w|
    ensures Count(CODEC, false, c, q, w[..i]) == Count(CODEC, true, c, q, w[..i])
  {
    hide Fold, Step, Resets;
    if i > 0 {
      StrictCount(c, q, w, i - 1);
      StrictByte(CODEC, q, w, i - 1);
      CountPrefix(CODEC, false, c, q, w, i - 1);
      CountPrefix(CODEC, true, c, q, w, i - 1);
    }
  }

  /**
   * A message stays within the limit in any slices if every count has room for the cuts made so far, or for itself
   * again.
   */
  lemma {:induction false} MessageFits(c: nat, q: Run, cuts: seq<string>, n: nat)
    requires Inv(q.p) && !q.checked && !q.halted && NonEmpty(cuts) && n < |cuts|
    requires var w := Join(cuts); TookAll(q, Fold(CODEC, true, q, w), w)
    requires forall i :: |Join(cuts[..n])| <= i <= |Join(cuts[..n])| + |cuts[n]| && i <= |Join(cuts)| ==>
               var m := Count(CODEC, true, c, q, Join(cuts)[..i]); m + n < MAX_HEADER_SIZE || 2 * m < MAX_HEADER_SIZE
    ensures !PassesLimit(CODEC, c, q, cuts, n)
  {
    hide Fold, Count, Join, PassesLimit, Steady;
    var w, s := Join(cuts), Join(cuts[..n]);
    StrictIsSteady(CODEC, q, w);
    JoinSnoc(cuts, n);
    JoinPrefix(cuts, n + 1);
    forall i | 0 <= i <= |cuts[n]|
      ensures var m := Count(CODEC, false, c, q, s + cuts[n][..i]); m + n < MAX_HEADER_SIZE || 2 * m < MAX_HEADER_SIZE
    {
      assert w[..|s| + i] == s + cuts[n][..i];
      StrictCount(c, q, w, |s| + i);
    }
    SliceFits(CODEC, c, q, cuts, n);
  }

  /** The first slices join to a prefix. */
  lemma {:induction false} JoinPrefix(cuts: seq<string>, n: nat)
    requires n <= |cuts|
    ensures Join(cuts[..n]) <= Join(cuts)
    decreases |cuts| - n
  {
    if n == |cuts| {
      assert cuts[..n] == cuts;
    } else {
      JoinSnoc(cuts, n);
      JoinPrefix(cuts, n + 1);
    }
  }

  /**
   * Chunked round trip in fragments (section 4.1 of RFC 7230): from the start of a chunk size, the chunks of any data
   * buffers and the last chunk, cut in any way, never pass the header limit, whatever the size of the data; they
   * complete the message with their last byte, and the body delivered is the data.
   */
  lemma {:induction false} ChunkedInFragments(q: Run, parts: seq<string>, cuts: seq<string>)
    requires Live(q) && q.p.state.SChunkSizeStart? && ChunksOk(parts)
    requires NonEmpty(cuts) && Join(cuts) == Chunks(parts) + LAST_CHUNK
    ensures var r := Runs(CODEC, q, cuts);
            && r.p.errno.Paused? && r.consumed == q.consumed + |Join(cuts)|
            && r.log == q.log + ChunkEvents(parts) + [ChunkHeader(0), ChunkComplete, MessageComplete]
            && BodyOf(ChunkEvents(parts)) == Join(parts)
    ensures forall n: nat :: !PassesLimit(CODEC, 0, q, cuts, n)
  {
    hide Step, Fold, Chunks, ChunkEvents, Join, Runs, PassesLimit, Count, BodyOf;
    ChunkedRoundTrip(q, parts);
    StrictSplit(CODEC, q, cuts);
    ChunkedCount(q, parts);
    forall n: nat
      ensures !PassesLimit(CODEC, 0, q, cuts, n)
    {
      if n < |cuts| { MessageFits(0, q, cuts, n); } else { NoSlice(0, q, cuts, n); }
    }
  }

  lemma {:induction false} NoSlice(c: nat, q: Run, cuts: seq<string>, n: nat)
    requires Inv(q.p) && n >= |cuts|
    ensures !PassesLimit(CODEC, c, q, cuts, n)
  {
  }
}
