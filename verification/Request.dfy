/** A printed request, read back: the callbacks the parser makes of it. */
module Request {
  import opened Chars
  import opened Methods
  import opened HeaderNames
  import opened HttpParser
  import opened ByteStream
  import opened Segments
  import opened HeaderLines
  import opened Bodies
  import opened Lengths

  /** A request head on the wire, in version `a.b`. */
  function HeadOf(m: Method, path: string, a: string, b: string, hs: seq<Header>): string {
    MethodString(m) + " " + path + Protocol(a, b) + Block(hs) + CRLF
  }

  /** A request head as the encoder writes it, in version 1.1. */
  function Head(m: Method, path: string, hs: seq<Header>): string {
    MethodString(m) + " " + path + PROTOCOL + Block(hs) + CRLF
  }

  function BodyLength(f: Frame): nat { if f.length.Some? then f.length.value else ULLONG_MAX }

  function HeadEventsOf(m: Method, path: string, a: nat, b: nat, hs: seq<Header>): seq<Event> {
    [MessageBegin, Data(Url, path)] + BlockEvents(hs) +
    [HeadersComplete(m, a, b, FrameOf(hs).chunked, BodyLength(FrameOf(hs)))]
  }

  function HeadEvents(m: Method, path: string, hs: seq<Header>): seq<Event> { HeadEventsOf(m, path, 1, 1, hs) }

  /**
   * What closes a connection behind a request: in version 1.1 and above a "close", below it that there is no
   * "keep-alive" (section 6.3 of RFC 7230). The parser takes every version with a minor number of 0 for one below 1.1.
   */
  predicate Closes(a: nat, b: nat, hs: seq<Header>) {
    if a > 0 && b > 0 then TokenSent(hs, CLOSE) else !TokenSent(hs, KEEP_ALIVE)
  }

  predicate FrameHasBody(f: Frame) { HasBody(f.chunked, BodyLength(f)) }

  /** A request head that can be sent: a method other than CONNECT, a path, good lines and one framing. */
  predicate HeadOk(m: Method, path: string, hs: seq<Header>) {
    !m.CONNECT? && IsPath(path) && BlockOk(hs) && !(FrameOf(hs).chunked && FrameOf(hs).length.Some?)
  }

  /** The request line. */
  lemma {:induction false} RequestLine(q: Run, m: Method, path: string, a: string, b: string)
    requires Live(q) && q.p.state.SStartReq? && !m.CONNECT? && IsPath(path) && IsVersion(a, b)
    ensures var s := MethodString(m) + " " + path + Protocol(a, b);
            var r := Fold(CODEC, true, q, s);
            && Live(r) && r.consumed == q.consumed + |s| && r.log == q.log + [MessageBegin, Data(Url, path)]
            && r.p.state.SHeaderFieldStart? && r.p.verb == m
            && r.p.major == DecimalValue(a) && r.p.minor == DecimalValue(b)
            && Framed(r.p, Frame(false, None)) && r.p.flags == NO_FLAGS
  {
    hide Step, Case, Fold, MethodString, Inv, Sane, DecimalValue, AllDigits, Protocol;
    var s := MethodString(m);
    MethodSegment(CODEC, q, m);
    var p := q.p.(state := SReqSpacesBeforeUrl, flags := NO_FLAGS, contentLength := ULLONG_MAX, verb := m,
          index := |s| + 1);
    var r := Moved(q, p, q.log + [MessageBegin], |s| + 1);
    PathSegment(CODEC, r, path);
    var r1 := Moved(r, p.(state := PathEnd(path)), r.log + [Data(Url, path)], |path|);
    VersionSegment(CODEC, r1, a, b);
    FoldConcat(CODEC, true, q, s + " ", path);
    FoldConcat(CODEC, true, q, s + " " + path, Protocol(a, b));
    assert r.log + [Data(Url, path)] == q.log + [MessageBegin, Data(Url, path)];
  }

  /**
   * Reading back a request head of any version: the method, the URL, the version and every header come back in order,
   * and the framing is what the headers announce. Without a body the message is complete with the last byte. The
   * connection is closed behind it exactly if version and `Connection` headers say so, and it changes its protocol
   * exactly if an `Upgrade` header and the token "upgrade" were sent.
   */
  lemma {:induction false} HeadRead(q: Run, m: Method, path: string, a: string, b: string, hs: seq<Header>)
    requires Live(q) && q.p.state.SStartReq? && HeadOk(m, path, hs) && IsVersion(a, b)
    ensures var w := HeadOf(m, path, a, b, hs); var r := Fold(CODEC, true, q, w); var f := FrameOf(hs);
            var v, x := DecimalValue(a), DecimalValue(b);
            && r.consumed == q.consumed + |w|
            && (FrameHasBody(f) ==> Live(r) && r.log == q.log + HeadEventsOf(m, path, v, x, hs) &&
                                    r.p.contentLength == BodyLength(f) && (ShouldKeepAlive(r.p) <==> !Closes(v, x, hs)) &&
                                    (if f.chunked then r.p.state.SChunkSizeStart? else r.p.state.SBodyIdentity?))
            && (!FrameHasBody(f) ==> r.p.errno.Paused? && r.halted &&
                                     r.log == q.log + HeadEventsOf(m, path, v, x, hs) + [MessageComplete] &&
                                     r.p.state == if Closes(v, x, hs) then SDead else SStartReq)
            && (r.p.upgrade <==> UpgradeSent(hs) && TokenSent(hs, UPGRADE))
  {
    hide Step, Case, Fold, MethodString, Block, BlockOk, FrameOf, BlockEvents, IsPath, Inv, HasBody, Sane, TokenSent,
         UpgradeSent, DecimalValue, AllDigits, Protocol;
    var s := MethodString(m) + " " + path + Protocol(a, b);
    RequestLine(q, m, path, a, b);
    var r := Fold(CODEC, true, q, s);
    BlockSegment(CODEC, r, hs);
    FoldConcat(CODEC, true, q, s, Block(hs));
    var r1 := Fold(CODEC, true, r, Block(hs));
    SettledFold(CODEC, r1, CRLF);
    FoldConcat(CODEC, true, q, s + Block(hs), CRLF);
    var t := Settled(r1);
    assert s + Block(hs) + CRLF == HeadOf(m, path, a, b, hs);
    if FrameHasBody(FrameOf(hs)) { EndWithBody(CODEC, t); } else { EndWithoutBody(CODEC, t); }
    HeadLog(q.log, m, path, DecimalValue(a), DecimalValue(b), hs);
  }

  /** The same for a head as the encoder writes it. */
  lemma {:induction false} HeadRoundTrip(q: Run, m: Method, path: string, hs: seq<Header>)
    requires Live(q) && q.p.state.SStartReq? && HeadOk(m, path, hs)
    ensures var w := Head(m, path, hs); var r := Fold(CODEC, true, q, w); var f := FrameOf(hs);
            && r.consumed == q.consumed + |w|
            && (FrameHasBody(f) ==> Live(r) && r.log == q.log + HeadEvents(m, path, hs) &&
                                    r.p.contentLength == BodyLength(f) &&
                                        (ShouldKeepAlive(r.p) <==> !TokenSent(hs, CLOSE)) &&
                                    (if f.chunked then r.p.state.SChunkSizeStart? else r.p.state.SBodyIdentity?))
            && (!FrameHasBody(f) ==> r.p.errno.Paused? && r.halted &&
                                     r.log == q.log + HeadEvents(m, path, hs) + [MessageComplete] &&
                                     r.p.state == if TokenSent(hs, CLOSE) then SDead else SStartReq)
  {
    hide Fold, MethodString, Block, Protocol, IsVersion, DecimalValue, HeadOk, FrameHasBody, BodyLength,
         ShouldKeepAlive, TokenSent, Live, HeadEventsOf;
    ProtocolOne();
    HeadRead(q, m, path, "1", "1", hs);
  }

  lemma {:induction false} HeadLog(log: seq<Event>, m: Method, path: string, a: nat, b: nat, hs: seq<Header>)
    ensures var es := log + [MessageBegin, Data(Url, path)] + BlockEvents(hs);
            var e := HeadersComplete(m, a, b, FrameOf(hs).chunked, BodyLength(FrameOf(hs)));
            es + [e] == log + HeadEventsOf(m, path, a, b, hs) &&
            es + [e, MessageComplete] == log + HeadEventsOf(m, path, a, b, hs) + [MessageComplete]
  {
  }

  /**
   * A head that announces both chunks and a length is refused, at its blank line (section 3.3.3 of RFC 7230), with
   * nothing said about it to the codec; no other head that can be sent is.
   */
  lemma {:induction false} BothFramings(q: Run, m: Method, path: string, a: string, b: string, hs: seq<Header>)
    requires Live(q) && q.p.state.SStartReq? && !m.CONNECT? && IsPath(path) && IsVersion(a, b) && BlockOk(hs)
    ensures var r := Fold(CODEC, true, q, HeadOf(m, path, a, b, hs));
            && (Failed(r.p) <==> FrameOf(hs).chunked && FrameOf(hs).length.Some?)
            && (Failed(r.p) ==> r.p.errno.UnexpectedContentLength? && r.halted &&
                                r.log == q.log + [MessageBegin, Data(Url, path)] + BlockEvents(hs) &&
                                r.consumed == q.consumed + |HeadOf(m, path, a, b, hs)| - 1)
  {
    hide Step, Case, Fold, MethodString, Block, BlockOk, FrameOf, BlockEvents, IsPath, Inv, HasBody, Sane, TokenSent,
         UpgradeSent, DecimalValue, AllDigits, Protocol, IsVersion;
    if !(FrameOf(hs).chunked && FrameOf(hs).length.Some?) {
      HeadRead(q, m, path, a, b, hs);
    } else {
      var s := MethodString(m) + " " + path + Protocol(a, b);
      RequestLine(q, m, path, a, b);
      var r := Fold(CODEC, true, q, s);
      BlockSegment(CODEC, r, hs);
      FoldConcat(CODEC, true, q, s, Block(hs));
      var r1 := Fold(CODEC, true, r, Block(hs));
      SettledFold(CODEC, r1, CRLF);
      FoldConcat(CODEC, true, q, s + Block(hs), CRLF);
      assert s + Block(hs) + CRLF == HeadOf(m, path, a, b, hs);
      TwoFramings(CODEC, Settled(r1));
    }
  }

  /** The blank line behind headers that announce two framings. */
  lemma {:induction false} TwoFramings(cb: Callbacks, q: Run)
    requires Live(q) && q.p.state.SHeaderFieldStart? && !q.p.flags.trailing && q.p.flags.chunked && q.p.flags.contentLength
    ensures var r := Fold(cb, true, q, CRLF);
            r.p.errno.UnexpectedContentLength? && r.halted && r.log == q.log && r.consumed == q.consumed + 1
  {
    hide Case, Sane, Inv;
    FoldNothing(cb, q);
    GoByte(cb, q, "", q, CR, q.p.(state := SHeadersAlmostDone), None) by { CaseGroups(cb, q.p, CR); }
    assert "" + [CR] == [CR];
    var r := Moved(q, q.p.(state := SHeadersAlmostDone), q.log, 1);
    CaseGroups(cb, r.p, LF);
    FoldSnoc(cb, true, q, [CR], LF);
    assert [CR] + [LF] == CRLF;
  }
}
