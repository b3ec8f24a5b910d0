/**
 * The decoder trace: whatever the bytes and however they are cut, a stream decoder is called with headers that
 * end the stream, or with headers, then data, then an empty end of data, and no assertion of the codec fails.
 */
module DecoderTrace {
  import opened Chars
  import opened Methods
  import opened HeaderNames
  import opened LookupTable
  import opened HeaderList
  import opened HttpParser
  import opened ByteStream
  import opened Execute
  import opened Fragmentation
  import opened Segments
  import opened Bodies
  import opened RequestDecoder

  // ---------------------------------------------------------------- header maps built from the wire

  /** No header that came over the wire is a pseudo header but `:authority`, which stands for `host`. */
  predicate WireName(name: string) { name == KeyOf(HOST_SLOT) || ':' !in name }

  ghost predicate FromWire(l: seq<Header>) { ListOk(l) && forall i :: 0 <= i < |l| ==> WireName(l[i].name) }

  /** The headers a decoder gets: those of the wire, then exactly one `:path` and one `:method`. */
  ghost predicate RequestHeaders(hs: seq<Header>) {
    && |hs| >= 2 && FromWire(hs[..|hs| - 2])
    && hs[|hs| - 2].name == KeyOf(PATH_SLOT)
    && exists m :: hs[|hs| - 1] == Header(KeyOf(METHOD_SLOT), MethodString(m))
  }

  lemma {:induction false} LowerKeepsColon(s: string)
    ensures ':' !in s ==> ':' !in ToLower(s)
  {
  }

  lemma {:induction false} CanonicalWire(key: string)
    requires ':' !in key
    ensures WireName(Canonical(key))
  {
    hide SlotOf, KeyOf;
    if SlotOf(key).Some? { SlotExact(key, SlotOf(key).value); }
  }

  lemma {:induction false} AddedFromWire(l: seq<Header>, key: string, value: string)
    requires FromWire(l) && ':' !in key
    ensures FromWire(Added(l, key, value))
  {
    hide ListOk, Canonical, SlotOf, KeyOf, WireName, HasKey;
    CanonicalWire(key);
    AddedOk(l, key, value);
  }

  lemma {:induction false} PseudoKeys()
    ensures ':' in KeyOf(PATH_SLOT) && ':' in KeyOf(METHOD_SLOT)
    ensures KeyOf(PATH_SLOT) != KeyOf(HOST_SLOT) && KeyOf(METHOD_SLOT) != KeyOf(HOST_SLOT)
    ensures KeyOf(PATH_SLOT) != KeyOf(METHOD_SLOT)
  {
    assert KeyOf(PATH_SLOT)[0] == ':' && KeyOf(METHOD_SLOT)[0] == ':';
    assert KeyOf(PATH_SLOT)[1] == 'p' && KeyOf(METHOD_SLOT)[1] == 'm' && KeyOf(HOST_SLOT)[1] == 'a';
  }

  /** `:path` and `:method` are never there already, so they go to the end. */
  lemma {:induction false} WithRequestAppends(l: seq<Header>, url: string, m: Method)
    requires FromWire(l)
    ensures WithRequest(l, url, m) == l + [Header(KeyOf(PATH_SLOT), url), Header(KeyOf(METHOD_SLOT), MethodString(m))]
    ensures RequestHeaders(WithRequest(l, url, m))
  {
    hide KeyOf, SlotOf, MethodString, ListOk, Updated;
    PseudoKeys();
    SlotExact(KeyOf(PATH_SLOT), PATH_SLOT);
    var path := Header(KeyOf(PATH_SLOT), url);
    forall i | 0 <= i < |l|
      ensures l[i].name != path.name && l[i].name != KeyOf(METHOD_SLOT)
    {
      assert WireName(l[i].name);
    }
    assert Added(l, path.name, url) == l + [path];
    assert !HasKey(l + [path], KeyOf(METHOD_SLOT));
    UpdatedNew(l + [path], KeyOf(METHOD_SLOT), MethodString(m));
    var r := WithRequest(l, url, m);
    assert r == l + [path, Header(KeyOf(METHOD_SLOT), MethodString(m))];
    assert r[..|r| - 2] == l;
  }

  // ---------------------------------------------------------------- the codec at each parser state

  predicate Empty(c: Conn) { c.field == "" && c.value == "" }

  /** Between two requests. */
  predicate Between(c: Conn) { c.ok && c.request.None? && c.headers.None? && c.deferred.None? && Empty(c) }

  /** Reading a request head: nothing has been passed on. */
  ghost predicate Assembling(c: Conn) {
    && c.ok && c.headers.Some? && FromWire(c.headers.value) && c.deferred.None?
    && c.request.Some? && !c.request.value.complete && c.request.value.calls == []
    && !c.parsing.Done? && ':' !in c.field
  }

  /** No header line is open. */
  predicate NoLine(c: Conn) { c.parsing.InField? && Empty(c) }

  /** A name has been read, and no value yet. */
  predicate HasName(c: Conn) { c.parsing.InField? && c.field != "" && c.value == "" }

  predicate HasValue(c: Conn) { c.parsing.InValue? && c.field != "" }

  predicate AtState(s: State, c: Conn) {
    if s.SHeaderFieldStart? || s.SHeadersAlmostDone? then NoLine(c) || HasValue(c)
    else if s.SHeaderField? || DiscardState(s) then HasName(c)
    else if s.SHeaderValueStart? then HasName(c) || HasValue(c)
    else if s.SHeaderValue? || ValueEdgeState(s) then HasValue(c)
    else NoLine(c)
  }

  /** Between `onHeadersComplete` and the end of the message: nothing is kept back but deferred headers. */
  predicate Passing(c: Conn) { c.ok && c.headers.None? && c.parsing.Done? && Empty(c) && c.request.Some? }

  /** A request without a body: its headers wait for the end of the message. */
  ghost predicate Waiting(c: Conn) {
    && Passing(c) && c.request.value.calls == [] && !c.request.value.complete
    && c.deferred.Some? && RequestHeaders(c.deferred.value)
  }

  /** The calls of a request with a body before its end: headers, then data. */
  ghost predicate Open(calls: seq<Call>) {
    && 1 <= |calls| <= 2 && calls[0].DecodeHeaders? && !calls[0].end && RequestHeaders(calls[0].headers)
    && (|calls| == 2 ==> calls[1].DecodeData? && !calls[1].end)
  }

  /** How many body bytes the decoder has got. */
  function BodySize(calls: seq<Call>): nat { if |calls| > 1 && calls[1].DecodeData? then |calls[1].bytes| else 0 }

  ghost predicate Streaming(c: Conn) {
    Passing(c) && c.deferred.None? && !c.request.value.complete && Open(c.request.value.calls)
  }

  /** The calls of a finished request: headers that end the stream, or headers, data, and the end of data. */
  ghost predicate WellEnded(calls: seq<Call>) {
    || (|calls| == 1 && calls[0].DecodeHeaders? && calls[0].end && RequestHeaders(calls[0].headers))
    || (|calls| >= 2 && Open(calls[..|calls| - 1]) && calls[|calls| - 1] == DecodeData("", true))
  }

  /** The body bytes a finished request has had: those its framing announced, or none for a CONNECT. */
  function BodyDue(p: Parser, c: Conn): nat { if p.verb.CONNECT? then 0 else c.expected }

  /** After the end of a request. */
  ghost predicate Finished(p: Parser, c: Conn) {
    && Passing(c) && c.deferred.None? && c.request.value.complete && WellEnded(c.request.value.calls)
    && BodySize(c.request.value.calls) == BodyDue(p, c)
  }

  /** The body bytes read and those the parser still waits for are those announced. */
  predicate Counted(p: Parser, c: Conn)
    requires c.request.Some?
  {
    BodySize(c.request.value.calls) + (if BodyRunState(p.state) then p.contentLength else 0) == c.expected
  }

  /** The states of trailers are those of headers. */
  predicate InHeaders(s: State) {
    FieldState(s) || DiscardState(s) || s.SHeaderValue? || ValueEdgeState(s) || s.SHeadersAlmostDone?
  }

  predicate AfterHead(p: Parser) {
    (p.flags.trailing && InHeaders(p.state)) || BodyState(p.state) || p.state.SMessageDone?
  }

  predicate Idle(s: State) { s.SDead? || s.SStartReq? }

  /** How codec and parser stand to each other. */
  ghost predicate InStep(p: Parser, c: Conn) {
    && !p.flags.skipBody
    && if p.errno.Paused? then Idle(p.state) && Finished(p, c)
       else if Idle(p.state) then Between(c)
       else if p.state.SHeadersDone? then
         (p.verb.CONNECT? ==> p.upgrade) &&
         if HasBody(p.flags.chunked, p.contentLength) then
           Streaming(c) && |c.request.value.calls| == 1 && c.expected == if p.flags.chunked then 0 else p.contentLength
         else Waiting(c) && c.expected == 0
       else if AfterHead(p) then !p.verb.CONNECT? && Streaming(c) && Counted(p, c)
       else !p.flags.trailing && Assembling(c) && AtState(p.state, c)
  }

  /** What the codec hears of one `case`. */
  function After(c: Conn, e: Effect, ch: char): Conn {
    HeardAll(if e.data.Some? then Heard(c, Data(e.data.value, [ch])) else c, e.notes)
  }

  lemma {:induction false} AfterNotes(c: Conn, e: Effect, ch: char)
    ensures var d := if e.data.Some? then Heard(c, Data(e.data.value, [ch])) else c;
            (e.notes == [] ==> After(c, e, ch) == d) &&
            (|e.notes| == 1 ==> After(c, e, ch) == Heard(d, e.notes[0]))
  {
    hide Heard;
    if |e.notes| == 1 {
      HeardSnoc(if e.data.Some? then Heard(c, Data(e.data.value, [ch])) else c, [], e.notes[0]);
      assert [] + [e.notes[0]] == e.notes;
    }
  }

  // ---------------------------------------------------------------- each case keeps step

  lemma {:induction false} IdleKeeps(p: Parser, ch: char, c: Conn)
    requires Inv(p) && p.errno.OK? && Idle(p.state) && InStep(p, c)
    ensures var e := StartCase(p, ch); !Failed(e.p) ==> InStep(e.p, After(c, e, ch))
  {
    hide Inv, FirstGuess, HeardAll, After, Added, Canonical;
    AfterNotes(c, StartCase(p, ch), ch);
  }

  /** A byte of the request line: the URL grows, or nothing is heard. */
  lemma {:induction false} LineKeeps(p: Parser, e: Effect, ch: char, c: Conn)
    requires p.errno.OK? && InStep(p, c) && !Idle(p.state) && !InHeaders(p.state) && LineState(p.state)
    requires e.p.errno.OK? && e.p.flags == p.flags && e.notes == [] && (e.data.None? || e.data == Some(Url))
    requires LineState(e.p.state) || e.p.state.SHeaderFieldStart?
    ensures InStep(e.p, After(c, e, ch))
  {
    hide HeardAll, After, FromWire, Streaming, Finished, Between, Waiting, Counted;
    AfterNotes(c, e, ch);
  }

  predicate LineState(s: State) {
    s.SReqMethod? || s.SReqSpacesBeforeUrl? || UrlState(s) || ProtocolState(s) || VersionState(s)
  }

  lemma {:induction false} LineEffects(p: Parser, ch: char)
    requires Inv(p) && p.errno.OK? && LineState(p.state)
    ensures var e := if UrlState(p.state) then UrlCase(p, ch) else if ProtocolState(p.state) then ProtocolCase(p, ch)
                     else if VersionState(p.state) then VersionCase(p, ch) else StartCase(p, ch);
            !Failed(e.p) ==>
              e.p.errno.OK? && e.p.flags == p.flags && e.notes == [] && (e.data.None? || e.data == Some(Url)) &&
              (LineState(e.p.state) || e.p.state.SHeaderFieldStart?)
  {
    hide Inv, MethodString, NextGuess, VersionDigit;
  }

  /** A finished header line joins the map. */
  lemma {:induction false} LastCompleted(c: Conn)
    requires Assembling(c) && (NoLine(c) || HasValue(c))
    ensures Assembling(CompleteLast(c)) && NoLine(CompleteLast(c))
  {
    hide Added, ToLower, WireName, FromWire;
    if c.field != "" {
      LowerKeepsColon(c.field);
      AddedFromWire(c.headers.value, ToLower(c.field), c.value);
    }
  }

  lemma {:induction false} NameByte(c: Conn, ch: char)
    requires Assembling(c) && IsToken(ch) && (NoLine(c) || HasName(c) || HasValue(c))
    ensures var d := Heard(c, Data(Field, [ch])); Assembling(d) && HasName(d)
  {
    hide FromWire, CompleteLast, HeardComplete, HeardEnd, HeardBody, HeardValue, HeardUrl;
    if c.parsing.InValue? { LastCompleted(c); }
    assert Heard(c, Data(Field, [ch])) == HeardField(c, [ch]);
  }

  lemma {:induction false} IgnoredLine(c: Conn, k: Kind, s: string)
    requires c.parsing.Done? && (k.Field? || k.Value?)
    ensures Heard(c, Data(k, s)) == c
  {
    hide HeardComplete, HeardEnd, HeardBody, HeardUrl, CompleteLast;
  }

  lemma {:induction false} FieldKeeps(p: Parser, ch: char, c: Conn)
    requires Inv(p) && p.errno.OK? && FieldState(p.state) && InStep(p, c)
    ensures var e := FieldCase(p, ch); !Failed(e.p) ==> InStep(e.p, After(c, e, ch))
  {
    hide Inv, IsToken, FieldStartHs, FieldStep, Open, Counted, Heard, HeardAll, FromWire, After, Finished, Between,
         Waiting;
    AfterNotes(c, FieldCase(p, ch), ch);
    if p.flags.trailing {
      IgnoredLine(c, Field, [ch]);
      CountedApart(p, FieldCase(p, ch).p, c);
    } else if IsToken(ch) {
      NameByte(c, ch);
    }
  }

  lemma {:induction false} CountedApart(p: Parser, q: Parser, c: Conn)
    requires c.request.Some? && Counted(p, c) && !BodyRunState(p.state) && !BodyRunState(q.state)
    ensures Counted(q, c)
  {
  }

  lemma {:induction false} ValueHeard(c: Conn, s: string)
    requires Assembling(c) && (HasName(c) || HasValue(c))
    ensures var d := Heard(c, Data(Value, s)); Assembling(d) && HasValue(d)
  {
    hide FromWire, HeardComplete, HeardEnd, HeardBody, HeardField, HeardUrl, CompleteLast;
  }

  lemma {:induction false} ValueStartFlags(p: Parser, ch: char)
    requires Inv(p) && p.errno.OK? && (p.state.SHeaderValueStart? || p.state.SHeaderValueDiscardWs?)
    ensures var r := ValueStart(p, ch).p;
            r.flags.trailing == p.flags.trailing && r.flags.skipBody == p.flags.skipBody && r.verb == p.verb
  {
    hide Sane, Lower, TokenStartHs;
    if p.hs.HUpgrade? {
    } else if p.hs.HTransferEncoding? {
    } else if p.hs.HContentLength? {
    } else if p.hs.HConnection? {
    }
  }

  lemma {:induction false} ValueByteFlags(p: Parser, ch: char)
    requires Inv(p) && p.errno.OK? && p.state.SHeaderValue?
    ensures var r := ValueByte(p, ch).p;
            r.flags.trailing == p.flags.trailing && r.flags.skipBody == p.flags.skipBody && r.verb == p.verb
  {
  }

  lemma {:induction false} FinishedKeep(p: Parser)
    ensures var f := FinishedFlags(p); f.trailing == p.flags.trailing && f.skipBody == p.flags.skipBody
  {
  }

  /** The effect of a byte in or around a header value, as far as the codec sees it. */
  predicate ValueEffect(p: Parser, e: Effect) {
    && e.p.flags.trailing == p.flags.trailing && e.p.flags.skipBody == p.flags.skipBody && e.p.errno.OK?
    && e.p.verb == p.verb
    && (e.data.Some? ==> e.data == Some(Value) && e.notes == [] && e.p.state.SHeaderValue?)
    && (e.notes != [] ==> e.notes == [Data(Value, "")] && e.data.None? && e.p.state.SHeaderFieldStart?)
    && (e.data.None? && e.notes == [] ==>
          || (DiscardState(e.p.state) && DiscardState(p.state))
          || (p.state.SHeaderValue? && e.p.state.SHeaderAlmostDone?)
          || (ValueEdgeState(p.state) && !p.state.SHeaderValueStart? &&
              (ValueEdgeState(e.p.state) || e.p.state.SHeaderFieldStart?)))
  }

  lemma {:induction false} ValueKeeps(p: Parser, e: Effect, ch: char, c: Conn)
    requires DiscardState(p.state) || p.state.SHeaderValue? || ValueEdgeState(p.state)
    requires p.errno.OK? && InStep(p, c) && ValueEffect(p, e)
    ensures InStep(e.p, After(c, e, ch))
  {
    hide Open, Counted, Heard, HeardAll, FromWire, After, Finished, Between, Waiting;
    AfterNotes(c, e, ch);
    if p.flags.trailing {
      IgnoredLine(c, Value, [ch]);
      IgnoredLine(c, Value, "");
      CountedApart(p, e.p, c);
    } else {
      ValueHeard(c, [ch]);
      ValueHeard(c, "");
    }
  }

  lemma {:induction false} DiscardEffects(p: Parser, ch: char)
    requires Inv(p) && p.errno.OK? && DiscardState(p.state) && !Failed(DiscardCase(p, ch).p)
    ensures ValueEffect(p, DiscardCase(p, ch))
  {
    hide ValueStart, FinishedFlags, Inv;
    FinishedKeep(p);
    if p.state.SHeaderValueDiscardWs? { ValueStartFlags(p, ch); }
  }

  lemma {:induction false} EdgeEffects(p: Parser, ch: char)
    requires Inv(p) && p.errno.OK? && ValueEdgeState(p.state) && !Failed(ValueEdgeCase(p, ch).p)
    ensures ValueEffect(p, ValueEdgeCase(p, ch))
  {
    hide ValueStart, FinishedFlags, Inv;
    FinishedKeep(p);
    if p.state.SHeaderValueStart? { ValueStartFlags(p, ch); }
  }

  lemma {:induction false} InValueEffects(p: Parser, checked: bool, ch: char)
    requires Inv(p) && p.errno.OK? && p.state.SHeaderValue? && !Failed(ValueCase(p, checked, ch).p)
    ensures ValueEffect(p, ValueCase(p, checked, ch))
  {
    hide ValueByte, IsHeaderChar, Inv;
    ValueByteFlags(p, ch);
  }

  lemma {:induction false} ValueEffects(p: Parser, checked: bool, ch: char)
    requires Inv(p) && p.errno.OK?
    ensures DiscardState(p.state) && !Failed(DiscardCase(p, ch).p) ==> ValueEffect(p, DiscardCase(p, ch))
    ensures ValueEdgeState(p.state) && !Failed(ValueEdgeCase(p, ch).p) ==> ValueEffect(p, ValueEdgeCase(p, ch))
    ensures p.state.SHeaderValue? && !Failed(ValueCase(p, checked, ch).p) ==> ValueEffect(p, ValueCase(p, checked, ch))
  {
    hide ValueEffect, DiscardCase, ValueEdgeCase, ValueCase, Inv;
    if DiscardState(p.state) && !Failed(DiscardCase(p, ch).p) { DiscardEffects(p, ch); }
    if ValueEdgeState(p.state) && !Failed(ValueEdgeCase(p, ch).p) { EdgeEffects(p, ch); }
    if p.state.SHeaderValue? && !Failed(ValueCase(p, checked, ch).p) { InValueEffects(p, checked, ch); }
  }

  lemma {:induction false} CompleteKeeps(p: Parser, c: Conn, e: Event)
    requires p.errno.OK? && Assembling(c) && (NoLine(c) || HasValue(c)) && !p.flags.skipBody
    requires p.state.SHeadersDone? && (p.verb.CONNECT? ==> p.upgrade) &&
             e == HeadersComplete(p.verb, p.major, p.minor, p.flags.chunked, p.contentLength)
    ensures InStep(p, Heard(c, e))
  {
    hide FromWire, RequestHeaders, WithRequest, CompleteLast;
    LastCompleted(c);
    var d := CompleteLast(c);
    WithRequestAppends(d.headers.value, d.request.value.url, p.verb);
  }

  lemma {:induction false} EndKeepsWaiting(p: Parser, c: Conn)
    requires Waiting(c) && c.expected == 0
    ensures Finished(p, Heard(c, MessageComplete))
  {
    hide RequestHeaders;
  }

  lemma {:induction false} EndKeepsStreaming(p: Parser, c: Conn)
    requires Streaming(c) && BodySize(c.request.value.calls) == BodyDue(p, c)
    ensures Finished(p, Heard(c, MessageComplete))
  {
    hide RequestHeaders;
    var calls := c.request.value.calls;
    var r := calls + [DecodeData("", true)];
    assert r[..|r| - 1] == calls;
  }

  lemma {:induction false} EndKeeps(p: Parser, ch: char, c: Conn)
    requires Inv(p) && p.errno.OK? && EndState(p.state) && InStep(p, c)
    ensures var e := EndCase(CODEC, p, ch); !Failed(e.p) ==> InStep(e.p, After(c, e, ch))
  {
    hide FromWire, Waiting, Streaming, Assembling, Finished, Heard, HeardAll, After, ShouldKeepAlive;
    var e := EndCase(CODEC, p, ch);
    AfterNotes(c, e, ch);
    if Failed(e.p) { return; }
    if p.state.SHeadersAlmostDone? {
      if p.flags.trailing { CountedSame(p, e.p, c); } else { CompleteKeeps(e.p, c, e.notes[0]); }
    } else if p.state.SHeadersDone? {
      if e.notes == [] {
        StartsBody(p, c);
      } else if HasBody(p.flags.chunked, p.contentLength) {
        EndKeepsStreaming(e.p, c);
      } else {
        EndKeepsWaiting(e.p, c);
      }
    } else {
      EndKeepsStreaming(e.p, c);
    }
  }

  lemma {:induction false} StartsBody(p: Parser, c: Conn)
    requires Streaming(c) && |c.request.value.calls| == 1
    ensures BodySize(c.request.value.calls) == 0
  {
  }

  lemma {:induction false} CountedSame(p: Parser, q: Parser, c: Conn)
    requires Streaming(c) && Counted(p, c) && !BodyRunState(p.state) && !BodyRunState(q.state)
    ensures Heard(c, ChunkComplete) == c && Counted(q, c)
  {
  }

  lemma {:induction false} BodyByte(c: Conn, ch: char)
    requires Streaming(c)
    ensures var d := Heard(c, Data(Body, [ch]));
            Streaming(d) && d.expected == c.expected &&
            BodySize(d.request.value.calls) == BodySize(c.request.value.calls) + 1
  {
    hide RequestHeaders, HeardComplete, HeardEnd, HeardField, HeardUrl, HeardValue;
  }

  lemma {:induction false} SizeHeard(c: Conn, n: nat)
    requires Streaming(c)
    ensures var d := Heard(c, ChunkHeader(n));
            Streaming(d) && d.request == c.request && d.expected == c.expected + n
    ensures Heard(c, ChunkComplete) == c
  {
    hide RequestHeaders, HeardComplete, HeardEnd, HeardBody, HeardField, HeardUrl, HeardValue;
  }

  /** A byte of body data. */
  lemma {:induction false} DataKeeps(p: Parser, ch: char, c: Conn)
    requires Inv(p) && p.errno.OK? && BodyRunState(p.state) && InStep(p, c)
    ensures var e := BodyCase(p, ch); InStep(e.p, After(c, e, ch))
  {
    hide Streaming, Heard, HeardAll, After, BodySize, Finished, Between, Waiting, Assembling, AtState;
    AfterNotes(c, BodyCase(p, ch), ch);
    BodyByte(c, ch);
  }

  /** A byte of a chunk size line, or of the line end after chunk data. */
  lemma {:induction false} ChunkKeeps(p: Parser, ch: char, c: Conn)
    requires Inv(p) && p.errno.OK? && ChunkState(p.state) && !p.state.SChunkData? && InStep(p, c)
    ensures var e := BodyCase(p, ch); !Failed(e.p) ==> InStep(e.p, After(c, e, ch))
  {
    hide Streaming, Heard, HeardAll, After, UnHex, AppendHexDigit, BodySize, Finished, Between, Waiting, Assembling,
         AtState;
    AfterNotes(c, BodyCase(p, ch), ch);
    SizeHeard(c, p.contentLength);
  }

  lemma {:induction false} CaseKeeps(p: Parser, checked: bool, ch: char, c: Conn)
    requires Inv(p) && p.errno.OK? && InStep(p, c)
    ensures var e := Case(CODEC, p, checked, ch); !Failed(e.p) ==> InStep(e.p, After(c, e, ch))
  {
    hide StartCase, UrlCase, ProtocolCase, VersionCase, FieldCase, DiscardCase, ValueEdgeCase, ValueCase, EndCase,
         BodyCase, Inv, InStep, After, ValueEffect;
    ValueEffects(p, checked, ch);
    var e := Case(CODEC, p, checked, ch);
    if Failed(e.p) {
    } else if Idle(p.state) {
      IdleKeeps(p, ch, c);
    } else if LineState(p.state) {
      LineEffects(p, ch);
      LineKeeps(p, e, ch, c);
    } else if FieldState(p.state) {
      FieldKeeps(p, ch, c);
    } else if EndState(p.state) {
      EndKeeps(p, ch, c);
    } else if BodyRunState(p.state) {
      DataKeeps(p, ch, c);
    } else if BodyState(p.state) {
      ChunkKeeps(p, ch, c);
    } else {
      ValueKeeps(p, e, ch, c);
    }
  }

  // ---------------------------------------------------------------- over whole runs

  lemma {:induction false} HeardNoted(c: Conn, log: seq<Event>, e: Effect, ch: char)
    ensures HeardAll(c, Noted(log, e, ch)) == After(HeardAll(c, log), e, ch)
  {
    hide Heard;
    if e.data.Some? {
      HeardEmit(c, log, Data(e.data.value, [ch]));
      HeardEmitAll(c, Emit(log, Data(e.data.value, [ch])), e.notes);
    } else {
      HeardEmitAll(c, log, e.notes);
    }
  }

  /** A byte in error is not heard of. */
  lemma {:induction false} FailSilent(p: Parser, checked: bool, ch: char)
    requires Inv(p) && p.errno.OK?
    ensures var e := Case(CODEC, p, checked, ch); Failed(e.p) ==> e.ctl.Fail? && e.data.None? && e.notes == []
  {
    hide Case, Inv, MarkRules;
    CaseChecked(CODEC, p, checked, ch);
    if BodyRunState(p.state) {
      CaseInBody(CODEC, p, checked, ch);
      BodySilent(p, ch);
    } else {
      CaseMarks(CODEC, p, ch);
      FailsByError(p, ch);
      if Failed(Case(CODEC, p, false, ch).p) { FailRule(p, Case(CODEC, p, false, ch)); }
    }
  }

  lemma {:induction false} FailRule(p: Parser, e: Effect)
    requires MarkRules(p, e) && e.ctl.Fail?
    ensures e.data.None? && e.notes == []
  {
  }

  lemma {:induction false} BodySilent(p: Parser, ch: char)
    requires Inv(p) && p.errno.OK? && BodyRunState(p.state)
    ensures !Failed(BodyCase(p, ch).p)
  {
    hide SizeCase;
  }

  /** With the callbacks of the codec only an error fails the parser. */
  lemma {:induction false} FailsByError(p: Parser, ch: char)
    requires Inv(p) && p.errno.OK?
    ensures Failed(Case(CODEC, p, false, ch).p) ==> Case(CODEC, p, false, ch).ctl.Fail?
  {
    hide Inv, StartCase, UrlCase, ProtocolCase, VersionCase, FieldCase, DiscardCase, ValueEdgeCase, ValueCase, BodyCase;
    if EndState(p.state) { assert Case(CODEC, p, false, ch) == EndCase(CODEC, p, ch); } else { NoReturn(p, ch); }
  }

  lemma {:induction false} NoReturn(p: Parser, ch: char)
    requires Inv(p) && p.errno.OK? && !EndState(p.state)
    ensures !Case(CODEC, p, false, ch).ctl.Return?
  {
    hide Inv, EndCase, ValueByte, FirstGuess, NextGuess, VersionDigit, AppendHexDigit, ValueStart;
  }

  /** What holds of the decoder at any time: no assertion has failed, and its calls are in order. */
  ghost predicate Orderly(c: Conn) {
    c.ok && (c.request.Some? ==> var calls := c.request.value.calls;
                                 if c.request.value.complete then WellEnded(calls) else Unfinished(calls))
  }

  /** In step, or orderly though the parser has failed. */
  ghost predicate Keeps(p: Parser, c: Conn) { if Failed(p) then Orderly(c) else InStep(p, c) }

  lemma {:induction false} InStepOrderly(p: Parser, c: Conn)
    requires InStep(p, c)
    ensures Orderly(c)
  {
    hide InStep, Open, WellEnded;
    TraceInStep(p, c);
  }

  lemma {:induction false} DriveKeeps(strict: bool, q: Run, ch: char, c0: Conn)
    requires Inv(q.p) && q.p.errno.OK? && InStep(q.p, HeardAll(c0, q.log))
    ensures var r := Drive(CODEC, strict, q, ch); Keeps(r.p, HeardAll(c0, r.log))
    decreases Rank(q.p.state)
  {
    hide Case, InStep, After, HeardAll, Emit, Orderly;
    var e := Case(CODEC, q.p, q.checked && !strict, ch);
    FailSilent(q.p, q.checked && !strict, ch);
    InStepOrderly(q.p, HeardAll(c0, q.log));
    CaseKeeps(q.p, q.checked && !strict, ch, HeardAll(c0, q.log));
    HeardNoted(c0, q.log, e, ch);
    if e.ctl.Again? { DriveKeeps(strict, Run(e.p, Noted(q.log, e, ch), false, q.halted, q.consumed), ch, c0); }
  }

  lemma {:induction false} FoldKeeps(strict: bool, q: Run, s: string, c0: Conn)
    requires Inv(q.p) && Keeps(q.p, HeardAll(c0, q.log))
    ensures var r := Fold(CODEC, strict, q, s); Keeps(r.p, HeardAll(c0, r.log))
    decreases |s|
  {
    hide InStep, Drive, HeardAll, Orderly;
    if s != "" {
      FoldKeeps(strict, q, s[..|s| - 1], c0);
      var r := Fold(CODEC, strict, q, s[..|s| - 1]);
      if !r.halted && r.p.errno.OK? { DriveKeeps(strict, r, s[|s| - 1], c0); }
    }
  }

  /** The run of a connection that is about to read a request. */
  function Ready(p: Parser, log: seq<Event>): Run { Run(p, log, false, false, 0) }

  lemma {:induction false} RunsKeep(q: Run, parts: seq<string>, c0: Conn)
    requires Inv(q.p) && Keeps(q.p, HeardAll(c0, q.log))
    ensures var r := Runs(CODEC, q, parts); Keeps(r.p, HeardAll(c0, r.log))
    decreases |parts|
  {
    hide InStep, HeardAll, Fold, Orderly;
    if parts != [] {
      var n := |parts| - 1;
      RunsKeep(q, parts[..n], c0);
      FoldKeeps(false, Resume(Runs(CODEC, q, parts[..n])), parts[n], c0);
    }
  }

  /** A piece of data that is not delivered leaves the decoder orderly. */
  lemma {:induction false} UndeliveredOrderly(c0: Conn, log: seq<Event>, all: seq<Event>)
    requires Undelivered(log, all) && Orderly(HeardAll(c0, all))
    ensures Orderly(HeardAll(c0, log))
  {
    hide HeardAll, Heard, Orderly, Emit;
    var k: Kind, s: string :| all == EmitSlice(log, k, s);
    if s != "" {
      HeardEmit(c0, log, Data(k, s));
      DataOrderly(HeardAll(c0, log), k, s);
    }
  }

  lemma {:induction false} DataOrderly(c: Conn, k: Kind, s: string)
    requires Orderly(Heard(c, Data(k, s)))
    ensures Orderly(c)
  {
    hide RequestHeaders, Added, ToLower;
    if k.Body? && c.request.Some? { PushedData(c.request.value.calls, s, c.request.value.complete); }
  }

  lemma {:induction false} PushedData(calls: seq<Call>, s: string, complete: bool)
    requires var r := Push(calls, DecodeData(s, false)); if complete then WellEnded(r) else Unfinished(r)
    ensures !complete && Unfinished(calls)
  {
    hide RequestHeaders;
  }

  /** What a decoder may have been called with before the end of its request. */
  ghost predicate Unfinished(calls: seq<Call>) { calls == [] || Open(calls) }

  /** What being in step says about the decoder. */
  lemma {:induction false} TraceInStep(p: Parser, c: Conn)
    requires InStep(p, c)
    ensures c.ok && (p.errno.Paused? <==> c.request.Some? && c.request.value.complete)
    ensures c.request.Some? ==> var calls := c.request.value.calls;
              if p.errno.Paused? then WellEnded(calls) && BodySize(calls) == BodyDue(p, c) else Unfinished(calls)
  {
    hide HeardAll, Open, FromWire, RequestHeaders, WellEnded;
  }

  /**
   * The decoder trace. For every sequence of slices, whether the parser takes or rejects them: no assertion of the
   * codec has failed; a stream whose request has been read to its end was called with headers that end the
   * stream, or with headers, data and an empty end of data, and its body has the announced length (a CONNECT has
   * none); a stream whose request is not finished was called with nothing, or with headers and data.
   */
  lemma {:induction false} TraceOfEveryRun(p: Parser, parts: seq<string>)
    requires Inv(p) && p.errno.OK? && Idle(p.state) && !p.flags.skipBody
    ensures var r := Runs(CODEC, Ready(p, []), parts); var c := HeardAll(NEW, r.log);
            && c.ok
            && (r.p.errno.Paused? ==> c.request.Some? && c.request.value.complete)
            && (c.request.Some? ==> var calls := c.request.value.calls;
                if c.request.value.complete then WellEnded(calls) else Unfinished(calls))
            && (!Failed(r.p) && c.request.Some? && c.request.value.complete ==>
                  r.p.errno.Paused? && BodySize(c.request.value.calls) == BodyDue(r.p, c))
  {
    hide HeardAll, InStep, WellEnded, Unfinished;
    var q := Ready(p, []);
    NothingHeard();
    BeforeFirst(p);
    RunsKeep(q, parts, NEW);
    var r := Runs(CODEC, q, parts);
    if !Failed(r.p) { TraceInStep(r.p, HeardAll(NEW, r.log)); }
  }

  lemma {:induction false} BeforeFirst(p: Parser)
    requires p.errno.OK? && Idle(p.state) && !p.flags.skipBody
    ensures InStep(p, NEW)
  {
  }

  lemma {:induction false} NothingHeard()
    ensures forall c :: HeardAll(c, []) == c
  {
  }

  /** Once the response is complete too, the connection is ready for the next request. */
  lemma {:induction false} NextRequest(p: Parser, c: Conn)
    requires p.errno.Paused? && InStep(p, c)
    ensures InStep(p.(errno := OK), c.(request := None))
  {
    hide WellEnded;
  }
}
