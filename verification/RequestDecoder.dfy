/**
 * What the server codec makes of parser callbacks: it collects header names and values into a header map,
 * decides whether the request has a body, and calls the stream's decoder.
 */
module RequestDecoder {
  import opened Chars
  import opened Methods
  import opened HeaderNames
  import opened LookupTable
  import opened HeaderList
  import opened HttpParser
  import opened ByteStream
  import opened Bodies

  /** `HeaderParsingState`. */
  datatype Parsing = InField | InValue | Done

  /** A call of the stream decoder; `end` is its `end_stream` argument. */
  datatype Call = DecodeHeaders(headers: seq<Header>, end: bool) | DecodeData(bytes: string, end: bool)

  /** `ActiveRequest`: its URL so far, whether the whole request has been read, and the calls of its decoder. */
  datatype Active = Active(url: string, complete: bool, calls: seq<Call>)

  /**
   * The fields of `ServerConnectionImpl` that callbacks change. A null header map is None. `expected` counts the
   * body bytes announced, and `ok` says that every `ES_ASSERT` of the callbacks has held so far; the code has
   * neither.
   */
  datatype Conn = Conn(parsing: Parsing, field: string, value: string, headers: Option<seq<Header>>,
                       request: Option<Active>, deferred: Option<seq<Header>>, http10: bool, expected: nat, ok: bool)

  const NEW := Conn(InField, "", "", None, None, None, false, 0, true)

  // ---------------------------------------------------------------- the callbacks

  /** The calls after one more, where data joins a preceding piece. */
  function Push(calls: seq<Call>, c: Call): seq<Call> {
    var n := |calls|;
    if c.DecodeData? && !c.end && n > 0 && calls[n - 1].DecodeData? && !calls[n - 1].end
    then calls[..n - 1] + [DecodeData(calls[n - 1].bytes + c.bytes, false)]
    else calls + [c]
  }

  /** The calls of a decoder with adjacent pieces of data joined. */
  function Joined(calls: seq<Call>): seq<Call> {
    if calls == [] then [] else Push(Joined(calls[..|calls| - 1]), calls[|calls| - 1])
  }

  /** `completeLastHeader`. Its assertions hold exactly if there is no value without a name. */
  function CompleteLast(c: Conn): Conn {
    if c.field == "" then c.(parsing := InField, ok := c.ok && c.value == "")
    else
      c.(parsing := InField, field := "", value := "", ok := c.ok && c.headers.Some?,
         headers := if c.headers.Some? then Some(Added(c.headers.value, ToLower(c.field), c.value)) else None)
  }

  function HeardField(c: Conn, s: string): Conn {
    if c.parsing.Done? then c
    else
      var d := if c.parsing.InValue? then CompleteLast(c) else c;
      d.(field := d.field + s)
  }

  function HeardValue(c: Conn, s: string): Conn {
    if c.parsing.Done? then c else c.(parsing := InValue, value := c.value + s)
  }

  function HeardUrl(c: Conn, s: string): Conn {
    if c.request.None? then c else c.(request := Some(c.request.value.(url := c.request.value.url + s)))
  }

  function HeardBody(c: Conn, s: string): Conn {
    if c.request.None? then c.(ok := c.ok && c.deferred.None?)
    else c.(ok := c.ok && c.deferred.None?, request := Some(Called(c.request.value, DecodeData(s, false))))
  }

  function Called(a: Active, call: Call): Active { a.(calls := Push(a.calls, call)) }

  /** The map with `:path` and `:method`, which `handlePath` and `onHeadersComplete` add. */
  function WithRequest(l: seq<Header>, url: string, m: Method): seq<Header> {
    Updated(Added(l, KeyOf(PATH_SLOT), url), KeyOf(METHOD_SLOT), MethodString(m))
  }

  /** Passing the finished header map on: to the decoder if there is a body, else kept until the end. */
  function PassOn(c: Conn, e: Event): Conn
    requires e.HeadersComplete? && c.request.Some? && c.headers.Some?
  {
    var a := c.request.value;
    var hs := WithRequest(c.headers.value, a.url, e.verb);
    if HasBody(e.chunked, e.contentLength)
    then c.(request := Some(Called(a.(url := ""), DecodeHeaders(hs, false))), headers := None)
    else c.(request := Some(a.(url := "")), deferred := Some(hs), headers := None)
  }

  /** What `onHeadersCompleteBase` notes before it passes the headers on. */
  function HeadNoted(c: Conn, e: Event): Conn
    requires e.HeadersComplete?
  {
    c.(http10 := c.http10 || !(e.major == 1 && e.minor == 1), parsing := Done, ok := c.ok && c.headers.Some?,
       expected := if !e.chunked && HasBody(e.chunked, e.contentLength) then e.contentLength else 0)
  }

  function HeardComplete(c0: Conn, e: Event): Conn
    requires e.HeadersComplete?
  {
    var c := HeadNoted(CompleteLast(c0), e);
    if c.request.Some? && c.headers.Some? then PassOn(c, e) else c.(headers := None)
  }

  function HeardEnd(c: Conn): Conn {
    if c.request.None? then c
    else
      var a := c.request.value.(complete := true);
      if c.deferred.Some? then c.(request := Some(Called(a, DecodeHeaders(c.deferred.value, true))), deferred := None)
      else c.(request := Some(Called(a, DecodeData("", true))))
  }

  /** One parser callback. */
  function Heard(c: Conn, e: Event): Conn {
    if e.MessageBegin? then
      c.(ok := c.ok && c.headers.None? && c.request.None?, headers := Some([]), parsing := InField,
         request := Some(Active("", false, [])))
    else if e.Data? then
      if e.kind.Url? then HeardUrl(c, e.bytes)
      else if e.kind.Field? then HeardField(c, e.bytes)
      else if e.kind.Value? then HeardValue(c, e.bytes)
      else HeardBody(c, e.bytes)
    else if e.HeadersComplete? then HeardComplete(c, e)
    else if e.ChunkHeader? then c.(expected := c.expected + e.size)
    else if e.MessageComplete? then HeardEnd(c)
    else c
  }

  function HeardAll(c: Conn, es: seq<Event>): Conn {
    if es == [] then c else Heard(HeardAll(c, es[..|es| - 1]), es[|es| - 1])
  }

  // ---------------------------------------------------------------- cutting data does not matter

  lemma {:induction false} PushTwice(calls: seq<Call>, s: string, t: string)
    ensures Push(Push(calls, DecodeData(s, false)), DecodeData(t, false)) == Push(calls, DecodeData(s + t, false))
  {
    var n := |calls|;
    if n > 0 && calls[n - 1].DecodeData? && !calls[n - 1].end {
      var b := calls[n - 1].bytes;
      assert b + (s + t) == b + s + t;
    }
  }

  /** Two pieces of data are heard like one. */
  lemma {:induction false} HeardTwice(c: Conn, k: Kind, s: string, t: string)
    ensures Heard(Heard(c, Data(k, s)), Data(k, t)) == Heard(c, Data(k, s + t))
  {
    hide Added, ToLower, Push;
    if k.Url? {
      if c.request.Some? { assert c.request.value.url + s + t == c.request.value.url + (s + t); }
    } else if k.Field? {
      var d := if c.parsing.InValue? then CompleteLast(c) else c;
      assert d.field + s + t == d.field + (s + t);
    } else if k.Value? {
      assert c.value + s + t == c.value + (s + t);
    } else {
      if c.request.Some? { PushTwice(c.request.value.calls, s, t); }
    }
  }

  lemma {:induction false} HeardSnoc(c: Conn, es: seq<Event>, e: Event)
    ensures HeardAll(c, es + [e]) == Heard(HeardAll(c, es), e)
  {
    assert (es + [e])[..|es|] == es;
  }

  lemma {:induction false} HeardConcat(c: Conn, a: seq<Event>, b: seq<Event>)
    ensures HeardAll(c, a + b) == HeardAll(HeardAll(c, a), b)
    decreases |b|
  {
    hide Heard;
    if b == [] {
      assert a + b == a;
    } else {
      var n := |b| - 1;
      HeardConcat(c, a, b[..n]);
      assert a + b == (a + b[..n]) + [b[n]];
      HeardSnoc(c, a + b[..n], b[n]);
    }
  }

  lemma {:induction false} HeardEmit(c: Conn, log: seq<Event>, e: Event)
    ensures HeardAll(c, Emit(log, e)) == Heard(HeardAll(c, log), e)
  {
    hide Heard;
    if e.Data? && LastIs(log, e.kind) {
      var n := |log| - 1;
      var d := HeardAll(c, log[..n]);
      HeardTwice(d, e.kind, log[n].bytes, e.bytes);
      HeardSnoc(c, log[..n], Data(e.kind, log[n].bytes + e.bytes));
    } else {
      HeardSnoc(c, log, e);
    }
  }

  lemma {:induction false} HeardEmitAll(c: Conn, log: seq<Event>, es: seq<Event>)
    ensures HeardAll(c, EmitAll(log, es)) == HeardAll(HeardAll(c, log), es)
    decreases |es|
  {
    hide Heard;
    if es != [] {
      var n := |es| - 1;
      HeardEmitAll(c, log, es[..n]);
      HeardEmit(c, EmitAll(log, es[..n]), es[n]);
    }
  }

  /**
   * How the parser cuts URLs, names, values and bodies into callbacks leaves no trace in the codec but the
   * cutting of the data handed to the decoder.
   */
  lemma {:induction false} HeardMerged(c: Conn, raw: seq<Event>)
    ensures HeardAll(c, Merged(raw)) == HeardAll(c, raw)
  {
    HeardEmitAll(c, [], raw);
  }

  // ---------------------------------------------------------------- letter case

  /** The letter case of a name leaves no trace once its header is complete. */
  lemma {:induction false} NameCaseUnheard(c: Conn, n: string, m: string, v: string, e: Event)
    requires !c.parsing.Done? && ToLower(n) == ToLower(m) && (e.HeadersComplete? || (e.Data? && e.kind.Field?))
    ensures HeardAll(c, [Data(Field, n), Data(Value, v), e]) == HeardAll(c, [Data(Field, m), Data(Value, v), e])
  {
    hide ToLower, HeardAll, CompleteLast, HeadNoted, PassOn;
    HeardThree(c, n, v, e);
    HeardThree(c, m, v, e);
    var d := if c.parsing.InValue? then CompleteLast(c) else c;
    LowerAppends(d.field, n);
    LowerAppends(d.field, m);
    var x, y := Heard(Heard(c, Data(Field, n)), Data(Value, v)), Heard(Heard(c, Data(Field, m)), Data(Value, v));
    CompleteLastStarts(c);
    CompletedAlike(x, y);
  }

  lemma {:induction false} HeardThree(c: Conn, n: string, v: string, e: Event)
    ensures HeardAll(c, [Data(Field, n), Data(Value, v), e]) == Heard(Heard(Heard(c, Data(Field, n)), Data(Value, v)), e)
  {
    hide Heard;
    var a, b := [Data(Field, n)], [Data(Field, n), Data(Value, v)];
    assert [] + a == a && a + [Data(Value, v)] == b && b + [e] == [Data(Field, n), Data(Value, v), e];
    HeardSnoc(c, [], Data(Field, n));
    HeardSnoc(c, a, Data(Value, v));
    HeardSnoc(c, b, e);
  }

  lemma {:induction false} LowerAppends(s: string, t: string)
    ensures ToLower(s + t) == ToLower(s) + ToLower(t)
  {
  }

  lemma {:induction false} CompleteLastStarts(c: Conn)
    ensures CompleteLast(c).parsing.InField?
  {
  }

  lemma {:induction false} CompletedAlike(x: Conn, y: Conn)
    requires x == y.(field := x.field) && ToLower(x.field) == ToLower(y.field)
    ensures CompleteLast(x) == CompleteLast(y)
  {
    hide Added, ToLower;
    assert |x.field| == |y.field|;
  }

  // ---------------------------------------------------------------- the version of the connection

  /** A request head has been read whose version is not 1.1. */
  predicate OldVersion(es: seq<Event>) {
    exists i :: 0 <= i < |es| && es[i].HeadersComplete? && !(es[i].major == 1 && es[i].minor == 1)
  }

  /** Whatever the callbacks, the connection is noted as HTTP/1.0 if and only if it was before or such a head was read. */
  lemma {:induction false} VersionHeard(c: Conn, es: seq<Event>)
    ensures HeardAll(c, es).http10 <==> c.http10 || OldVersion(es)
    decreases |es|
  {
    hide Heard;
    if es != [] {
      var n := |es| - 1;
      VersionHeard(c, es[..n]);
      VersionOfOne(HeardAll(c, es[..n]), es[n]);
      assert forall i :: 0 <= i < n ==> es[..n][i] == es[i];
    }
  }

  lemma {:induction false} VersionOfOne(c: Conn, e: Event)
    ensures Heard(c, e).http10 <==> c.http10 || (e.HeadersComplete? && !(e.major == 1 && e.minor == 1))
  {
    hide Added, ToLower, WithRequest, Push;
  }

  // ---------------------------------------------------------------- trailers

  /** Names and values behind the headers, which are trailers, leave no trace. */
  lemma {:induction false} TrailersUnheard(c: Conn, es: seq<Event>)
    requires c.parsing.Done? && forall i :: 0 <= i < |es| ==> es[i].Data? && (es[i].kind.Field? || es[i].kind.Value?)
    ensures HeardAll(c, es) == c
    decreases |es|
  {
    hide Heard;
    if es != [] {
      var n := |es| - 1;
      assert forall i :: 0 <= i < n ==> es[..n][i] == es[i];
      TrailersUnheard(c, es[..n]);
      TrailerUnheard(c, es[n]);
    }
  }

  lemma {:induction false} TrailerUnheard(c: Conn, e: Event)
    requires c.parsing.Done? && e.Data? && (e.kind.Field? || e.kind.Value?)
    ensures Heard(c, e) == c
  {
  }

  /** A chunked body with trailers ends for the decoder as one without. */
  lemma {:induction false} TrailersEnd(c: Conn, es: seq<Event>)
    requires c.parsing.Done? && forall i :: 0 <= i < |es| ==> es[i].Data? && (es[i].kind.Field? || es[i].kind.Value?)
    ensures HeardAll(c, [ChunkHeader(0)] + es + [ChunkComplete, MessageComplete]) ==
            HeardAll(c, [ChunkHeader(0), ChunkComplete, MessageComplete])
  {
    hide HeardAll;
    var last := [ChunkComplete, MessageComplete];
    HeardConcat(c, [ChunkHeader(0)] + es, last);
    HeardConcat(c, [ChunkHeader(0)], es);
    HeardConcat(c, [ChunkHeader(0)], last);
    assert [ChunkHeader(0)] + last == [ChunkHeader(0), ChunkComplete, MessageComplete];
    SizeHeard(c);
    TrailersUnheard(HeardAll(c, [ChunkHeader(0)]), es);
  }

  lemma {:induction false} SizeHeard(c: Conn)
    ensures HeardAll(c, [ChunkHeader(0)]).parsing == c.parsing
  {
    hide HeardField, HeardValue, HeardUrl, HeardBody, HeardComplete, HeardEnd;
    HeardSnoc(c, [], ChunkHeader(0));
    assert [] + [ChunkHeader(0)] == [ChunkHeader(0)];
  }
}
