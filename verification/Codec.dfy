/**
 * The server connection of the HTTP/1 codec: parser callbacks change its fields and its header map object, and
 * `Dispatch` feeds the parser. Each callback is proved against the function `Heard` of module `RequestDecoder`.
 */
module Codec {
  import opened Chars
  import opened Methods
  import opened HeaderNames
  import opened LookupTable
  import opened HeaderList
  import opened HeaderMap
  import opened HttpParser
  import opened ByteStream
  import opened HeaderCount
  import opened Execute
  import opened Fragmentation
  import opened Segments
  import opened Bodies
  import opened RequestDecoder
  import opened DecoderTrace
  import Url
  import UrlText

  lemma {:induction false} JoinedSnoc(calls: seq<Call>, c: Call)
    ensures Joined(calls + [c]) == Push(Joined(calls), c)
  {
    assert (calls + [c])[..|calls|] == calls;
  }

  lemma {:induction false} JoinedNothing()
    ensures Joined([]) == []
  {
  }

  /** The objects a header map pointer stands for. */
  ghost function Owned(m: HeaderMapImpl?): set<object>
    reads m
  {
    if m == null then {} else {m} + set e: object | e in m.headers
  }

  ghost function PairsOf(m: HeaderMapImpl?): Option<seq<Header>>
    reads m, if m == null then [] else m.headers
  {
    if m == null then None else Some(m.Pairs())
  }

  // ---------------------------------------------------------------- the path

  /** URLs that are taken over as they are: paths, the wildcard, and all of them unless absolute URLs are allowed. */
  predicate TakenOver(url: string, m: Method, allowAbsolute: bool) {
    At(url, 0) == '/' || (m.OPTIONS? && At(url, 0) == '*') || !allowAbsolute || m.CONNECT?
  }

  /** The headers with `:path`, and with the host of an absolute URL; None for a protocol error. */
  ghost function PathHandled(l: seq<Header>, url: string, m: Method, allowAbsolute: bool): Option<seq<Header>> {
    if TakenOver(url, m, allowAbsolute) then Some(Added(l, KeyOf(PATH_SLOT), url))
    else if Url.Absolute(url) then
      Some(Added(Updated(l, KeyOf(HOST_SLOT), Url.NewHost(url)), KeyOf(PATH_SLOT), Url.NewPath(url)))
    else None
  }

  /** URLs of which `handlePath` reads the right parts: an authority has to end within 65535 bytes. */
  predicate InReach(url: string, m: Method, allowAbsolute: bool) {
    TakenOver(url, m, allowAbsolute) || Url.InReach(false, url)
  }

  /**
   * What the targets of RFC 7230 (section 5.3) are taken for. A path is the path; a written absolute URL, if allowed,
   * gives the host and the path; "*" is a path for OPTIONS only.
   */
  lemma {:induction false} TargetsHandled(l: seq<Header>, url: string, m: Method)
    ensures PathHandled(l, url, m, false) == Some(Added(l, ":path", url))
    ensures url != "" && url[0] == '/' ==> PathHandled(l, url, m, true) == Some(Added(l, ":path", url))
    ensures PathHandled(l, url, CONNECT, true) == Some(Added(l, ":path", url))
    ensures PathHandled(l, "*", OPTIONS, true) == Some(Added(l, ":path", "*"))
    ensures !m.OPTIONS? && !m.CONNECT? ==> PathHandled(l, "*", m, true).None?
  {
    hide Added, Updated, Url.NewHost, Url.NewPath;
    assert KeyOf(PATH_SLOT) == ":path";
    StarIsNoUrl();
  }

  lemma {:induction false} StarIsNoUrl()
    ensures !Url.Absolute("*")
  {
    hide Url.UrlAccepted, Url.Below, Url.HostLevels, Url.MeetsAt, Url.HostAccepted;
    var s := "*";
    assert s[..0] == "" && s[..1] == s;
    assert Url.StateAfter(false, s) == SReqPath;
    var levels := Url.Levels(false, s);
    assert levels == [50];
    assert Url.Authority(false, s) == "" by { assert Url.AuthorityStart(false, s) == 0 == Url.AuthorityEnd(false, s); }
    assert 10 !in Url.AllLevels(false, s);
  }

  lemma {:induction false} AbsoluteHandled(l: seq<Header>, w: UrlText.Written, m: Method)
    requires w.Ok() && Url.PortNumber(false, w.Text()) <= 0xffff && !m.CONNECT? && !w.site.v6
    ensures PathHandled(l, w.Text(), m, true) ==
            Some(Added(Updated(l, ":authority", w.site.host + w.site.PortText()), ":path",
                       if |w.path| % 0x1_0000 != 0 then w.Rest() else "/"))
  {
    hide Added, Updated, Url.Absolute, Url.NewHost, Url.NewPath, Url.PortNumber, Url.InReach;
    assert KeyOf(PATH_SLOT) == ":path" && KeyOf(HOST_SLOT) == ":authority";
    UrlText.WrittenCut(w);
    SchemeFirst(w);
  }

  lemma {:induction false} SchemeFirst(w: UrlText.Written)
    requires w.Ok()
    ensures At(w.Text(), 0) != '/' && At(w.Text(), 0) != '*'
  {
    assert At(w.Text(), 0) == w.scheme[0];
  }

  /** `handlePath`. An absolute URL replaces the host header (section 5.4 of RFC 7230). */
  method HandlePath(headers: HeaderMapImpl, url: string, m: Method, allowAbsolute: bool) returns (ok: bool)
    requires headers.Valid()
    modifies headers, headers.headers
    ensures headers.Valid() && fresh(Owned(headers) - old(Owned(headers)))
    ensures !ok ==> headers.Pairs() == old(headers.Pairs())
    ensures InReach(url, m, allowAbsolute) ==>
              var r := PathHandled(old(headers.Pairs()), url, m, allowAbsolute);
              ok == r.Some? && (ok ==> headers.Pairs() == r.value)
  {
    hide HeaderMapImpl.Valid, KeyOf, Added, Updated, Url.Absolute, Url.NewHost, Url.NewPath, Url.InReach;
    if TakenOver(url, m, allowAbsolute) {
      headers.InsertByKey(KeyOf(PATH_SLOT), url);
      return true;
    }
    var cut := Url.CutAbsolute(url);
    if cut.None? { return false; }
    headers.InsertValue(HOST_SLOT, cut.value.0);
    headers.InsertByKey(KeyOf(PATH_SLOT), cut.value.1);
    return true;
  }

  /** `handlePath` under the default settings, then the method. */
  method AddRequestLine(headers: HeaderMapImpl, url: string, m: Method)
    requires headers.Valid()
    modifies headers, headers.headers
    ensures headers.Valid() && fresh(Owned(headers) - old(Owned(headers)))
    ensures headers.Pairs() == WithRequest(old(headers.Pairs()), url, m)
  {
    hide HeaderMapImpl.Valid, KeyOf, Added, Updated, MethodString;
    var ok := HandlePath(headers, url, m, false);
    headers.InsertValue(METHOD_SLOT, MethodString(m));
  }

  // ---------------------------------------------------------------- the connection

  /** The answer to one slice: as for the run over it, or a header overflow. */
  ghost predicate Answered(p: Parser, c: nat, raw0: seq<Event>, data: string, st: Parser, nread: nat, raw: seq<Event>)
    requires Inv(p)
  {
    var v := Ready(p, Merged(raw0));
    var r := Fold(CODEC, false, v, data);
    || Overflowed(CODEC, c, v, st, raw, data)
    || (Agrees(st, raw, r.consumed, r) &&
         (!Failed(st) ==> nread == Tally(CODEC, c, v, data) && !Overfull(CODEC, c, v, data)))
  }

  /** The answer to the first `n` slices for a parser that stood at `p` with its counter at `c`. */
  ghost predicate ReadAs(p: Parser, c: nat, parts: seq<string>, n: nat, st: Parser, nread: nat, raw: seq<Event>)
    requires Inv(p) && n <= |parts|
  {
    var q := Ready(p, []);
    || (exists i: nat :: i < n && OverflowedAt(CODEC, c, q, parts, i, st, raw))
    || Answer(CODEC, c, q, parts, n, st, nread, raw, Runs(CODEC, q, parts[..n]).consumed)
  }

  lemma {:induction false} NothingRead(p: Parser, c: nat, parts: seq<string>)
    requires Inv(p) && p.errno.OK?
    ensures ReadAs(p, c, parts, 0, p, c, [])
  {
    var q := Ready(p, []);
    assert parts[..0] == [];
    assert Answer(CODEC, c, q, parts, 0, p, c, [], 0);
  }

  /** One more slice. */
  lemma {:induction false} SliceRead(p: Parser, c: nat, parts: seq<string>, i: nat, st0: Parser, nread0: nat,
                                     raw0: seq<Event>,
                                     st: Parser, nread: nat, raw: seq<Event>)
    requires Inv(p) && Inv(st0) && st0.errno.OK? && i < |parts| && ReadAs(p, c, parts, i, st0, nread0, raw0)
    requires Answered(st0, nread0, raw0, parts[i], st, nread, raw)
    ensures ReadAs(p, c, parts, i + 1, st, nread, raw)
  {
    hide Fold, Runs, RunsTally, Overflowed, Tally, Overfull, Undelivered, Merged, Inv, PassesLimit;
    OverflowIsError();
    var q, v := Ready(p, []), Ready(st0, Merged(raw0));
    var parsed := Runs(CODEC, q, parts[..i]).consumed;
    SliceAnswered(CODEC, c, q, parts, i, v, nread0, raw0, parsed, st, nread, raw, Fold(CODEC, false, v, parts[i]).consumed);
  }

  lemma {:induction false} OverflowIsError()
    ensures forall cb, c, q: Run, p, raw, data :: Inv(q.p) && Overflowed(cb, c, q, p, raw, data) ==> p.errno.HeaderOverflow?
  {
  }

  /** What the decoder has been called with after the slices. */
  lemma {:induction false} ReadKeeps(p: Parser, c: nat, parts: seq<string>, n: nat, st: Parser, nread: nat,
                                     raw: seq<Event>, c0: Conn)
    requires Inv(p) && n <= |parts| && ReadAs(p, c, parts, n, st, nread, raw) && InStep(p, c0) && p.errno.OK?
    ensures Keeps(st, HeardAll(c0, raw))
  {
    hide Fold, Runs, HeardAll, InStep, Orderly, Merged, RunsTally, Tally, Overfull, Undelivered;
    var q := Ready(p, []);
    NothingHeard();
    HeardMerged(c0, raw);
    if i: nat :| i < n && OverflowedAt(CODEC, c, q, parts, i, st, raw) {
      var r := Runs(CODEC, q, parts[..i]);
      RunsKeep(q, parts[..i], c0);
      var k: nat :| k <= |parts[i]| && Undelivered(Merged(raw), Fold(CODEC, false, Resume(r), parts[i][..k]).log);
      FoldKeeps(false, Resume(r), parts[i][..k], c0);
      KeepsOrderly(Fold(CODEC, false, Resume(r), parts[i][..k]).p,
            HeardAll(c0, Fold(CODEC, false, Resume(r), parts[i][..k]).log));
      UndeliveredOrderly(c0, Merged(raw), Fold(CODEC, false, Resume(r), parts[i][..k]).log);
    } else {
      RunsKeep(q, parts[..n], c0);
      if Failed(st) { UndeliveredOrderly(c0, Merged(raw), Runs(CODEC, q, parts[..n]).log); }
    }
  }

  lemma {:induction false} KeepsOrderly(p: Parser, c: Conn)
    requires Keeps(p, c)
    ensures Orderly(c)
  {
    hide InStep, Orderly;
    if !Failed(p) { InStepOrderly(p, c); }
  }

  /** A request that is not complete leaves the parser running. */
  lemma {:induction false} StillRunning(p: Parser, c: Conn)
    requires Keeps(p, c) && !Failed(p) && !(c.request.Some? && c.request.value.complete)
    ensures p.errno.OK?
  {
    hide InStep, Orderly;
    TraceInStep(p, c);
  }

  lemma {:induction false} ReadInStep(p: Parser, c: Conn)
    requires Keeps(p, c) && !Failed(p)
    ensures InStep(p, c) && Orderly(c)
    ensures c.request.Some? && c.request.value.complete ==>
            p.errno.Paused? && BodySize(c.request.value.calls) == BodyDue(p, c)
  {
    hide InStep, Orderly;
    InStepOrderly(p, c);
    TraceInStep(p, c);
  }

  lemma {:induction false} UnpausedRun(parser: RequestParser)
    requires parser.Valid() && !Failed(parser.st)
    ensures Inv(parser.st.(errno := OK))
  {
  }

  /** The part of `dispatchSlice` that concerns the parser, which is unpaused first. */
  method Feed(parser: RequestParser, data: string)
    requires parser.Valid() && parser.cb == CODEC && !Failed(parser.st) && |data| < 0x8000_0000
    modifies parser
    ensures parser.Valid() && old(parser.log) <= parser.log && Inv(old(parser.st).(errno := OK))
    ensures data != "" ==>
              Answered(old(parser.st).(errno := OK), old(parser.nread), old(parser.log), data, parser.st, parser.nread,
                    parser.log)
    ensures data == "" ==>
              && parser.log == old(parser.log) && parser.nread == old(parser.nread)
              && parser.st == old(parser.st).(errno := if Idle(old(parser.st).state) then OK else InvalidEofState)
  {
    hide RunInv, Fold, Merged, RequestParser.Valid, Overflowed, Undelivered, Tally, Overfull;
    UnpausedRun(parser);
    parser.Pause(false);
    var parsed := parser.Execute(data);
  }

  class ServerConnection {
    const parser: RequestParser
    var parsing: Parsing             // header_parsing_state_
    var field: string                // current_header_field_
    var value: string                // current_header_value_
    var headers: HeaderMapImpl?      // current_header_map_
    var request: Option<Active>      // active_request_, with the calls of its decoder as they were made
    var deferred: HeaderMapImpl?     // deferred_end_stream_headers_
    var http10: bool                 // protocol_ is Http10
    ghost var expected: nat
    ghost var ok: bool

    ghost function Maps(): set<object>
      reads this, headers, deferred
    {
      Owned(headers) + Owned(deferred)
    }

    /** The connection as a value. */
    ghost function View(): Conn
      reads this, Maps(), headers, deferred
    {
      Conn(parsing, field, value, PairsOf(headers),
           if request.None? then None else Some(request.value.(calls := Joined(request.value.calls))),
           PairsOf(deferred), http10, expected, ok)
    }

    ghost predicate Valid()
      reads this, Maps(), headers, deferred, parser
    {
      && parser.Valid() && parser.cb == CODEC
      && (headers != null ==> headers.Valid())
      && (deferred != null ==> deferred.Valid())
      && Owned(headers) !! Owned(deferred)
    }

    constructor ()
      ensures Valid() && fresh(parser) && Maps() == {} && View() == NEW && parser.st == INIT && parser.log == []
    {
      hide RequestParser.Valid, RunInv, HeaderMapImpl.Valid, HeaderMapImpl.Pairs;
      parser := new RequestParser(CODEC);
      parsing, field, value, headers, request, deferred, http10 := InField, "", "", null, None, null, false;
      expected, ok := 0, true;
    }

    /** `completeLastHeader`. */
    method CompleteLastHeader()
      requires Valid()
      modifies this, Maps()
      ensures Valid() && View() == CompleteLast(old(View())) && fresh(Maps() - old(Maps()))
      ensures deferred == old(deferred) && headers == old(headers)
    {
      hide HeaderMapImpl.Valid, Added, ToLower, RunInv, RequestParser.Valid, HeaderMapImpl.Pairs, Joined;
      ok := ok && (if field == "" then value == "" else headers != null);
      if field != "" {
        if headers != null { headers.InsertByKey(ToLower(field), value); }
        field, value := "", "";
      }
      parsing := InField;
    }

    method OnMessageBegin()
      requires Valid()
      modifies this
      ensures Valid() && View() == Heard(old(View()), MessageBegin) && fresh(Maps() - old(Maps()))
    {
      hide RunInv, RequestParser.Valid, HeaderMapImpl.Valid, HeaderMapImpl.Pairs, Joined, HeardField, HeardComplete,
           HeardEnd, HeardBody, HeardValue, HeardUrl;
      JoinedNothing();
      ok := ok && headers == null && request.None?;
      headers := new HeaderMapImpl();
      parsing, request := InField, Some(Active("", false, []));
    }

    method OnUrl(data: string)
      requires Valid()
      modifies this`request
      ensures Valid() && View() == Heard(old(View()), Data(Url, data)) && Maps() == old(Maps())
    {
      hide RequestParser.Valid, RunInv, HeaderMapImpl.Valid, HeaderMapImpl.Pairs, Joined, HeardComplete, HeardEnd,
           HeardBody, HeardField, HeardValue;
      if request.Some? { request := Some(request.value.(url := request.value.url + data)); }
    }

    method OnHeaderField(data: string)
      requires Valid()
      modifies this, Maps()
      ensures Valid() && View() == Heard(old(View()), Data(Field, data)) && fresh(Maps() - old(Maps()))
    {
      hide RunInv, HeaderMapImpl.Valid, CompleteLast, RequestParser.Valid, HeaderMapImpl.Pairs, Joined, HeardComplete,
           HeardEnd, HeardBody, HeardValue, HeardUrl;
      if parsing.Done? { return; }
      if parsing.InValue? { CompleteLastHeader(); }
      field := field + data;
    }

    method OnHeaderValue(data: string)
      requires Valid()
      modifies this`parsing, this`value
      ensures Valid() && View() == Heard(old(View()), Data(Value, data)) && Maps() == old(Maps())
    {
      hide RequestParser.Valid, RunInv, HeaderMapImpl.Valid, HeaderMapImpl.Pairs, Joined, HeardComplete, HeardEnd,
           HeardBody, HeardField, HeardUrl;
      if parsing.Done? { return; }
      parsing, value := InValue, value + data;
    }

    /** The fields `onHeadersCompleteBase` sets by itself. */
    method NoteHead(e: Event)
      requires Valid() && e.HeadersComplete?
      modifies this`http10, this`ok, this`expected, this`parsing
      ensures Valid() && View() == HeadNoted(old(View()), e) && Maps() == old(Maps())
    {
      hide RunInv, HeaderMapImpl.Valid, HeaderMapImpl.Pairs, HasBody, Joined, RequestParser.Valid, Owned, CompleteLast,
           PassOn;
      http10 := http10 || !(e.major == 1 && e.minor == 1);
      ok := ok && headers != null;
      expected := if !e.chunked && HasBody(e.chunked, e.contentLength) then e.contentLength else 0;
      parsing := Done;
    }

    /** The header map pointer is reset. */
    method DropHeaders()
      requires Valid()
      modifies this`headers
      ensures Valid() && View() == old(View()).(headers := None) && Maps() <= old(Maps())
    {
      hide RequestParser.Valid, RunInv, HeaderMapImpl.Valid, HeaderMapImpl.Pairs;
      headers := null;
    }

    /** `onHeadersCompleteBase`; the event carries the parser fields it reads. */
    method OnHeadersCompleteBase(e: Event)
      requires Valid() && e.HeadersComplete?
      modifies this, Maps()
      ensures Valid() && View() == Heard(old(View()), e) && fresh(Maps() - old(Maps()))
    {
      hide Valid, CompleteLast, PassOn, HeadNoted, Joined, HeardField, HeardEnd, HeardBody, HeardValue, HeardUrl,
           HasBody, HeaderMapImpl.Pairs;
      CompleteLastHeader();
      NoteHead(e);
      if request.Some? && headers != null { OnHeadersComplete(e); }
      DropHeaders();
    }

    /** The header map being collected gets the path and the method; the URL has served its purpose. */
    method TakeRequestLine(verb: Method)
      requires Valid() && request.Some? && headers != null
      modifies this`request, Owned(headers)
      ensures Valid() && headers == old(headers) && fresh(Owned(headers) - old(Owned(headers)))
      ensures var c := old(View());
              View() == c.(headers := Some(WithRequest(c.headers.value, c.request.value.url, verb)),
                           request := Some(c.request.value.(url := "")))
    {
      hide HeaderMapImpl.Valid, RunInv, WithRequest, Joined, HeaderMapImpl.Pairs, RequestParser.Valid;
      AddRequestLine(headers, request.value.url, verb);
      request := Some(request.value.(url := ""));
    }

    /** `onHeadersComplete` of the server connection: the header map goes to the decoder or is kept back. */
    method OnHeadersComplete(e: Event)
      requires Valid() && e.HeadersComplete? && request.Some? && headers != null
      modifies this`request, this`deferred, this`headers, Owned(headers)
      ensures Valid() && View() == PassOn(old(View()), e) && fresh(Maps() - old(Maps())) && headers == null
    {
      hide HeaderMapImpl.Valid, RunInv, WithRequest, Joined, Push, HeaderMapImpl.Pairs, HasBody, RequestParser.Valid;
      TakeRequestLine(e.verb);
      var m := headers;
      headers := null;
      if HasBody(e.chunked, e.contentLength) {
        Call(DecodeHeaders(m.Pairs(), false));
      } else {
        deferred := m;
      }
    }

    /** One call of the stream decoder. */
    method Call(c: Call)
      requires request.Some?
      modifies this`request
      ensures request == Some(old(request.value).(calls := old(request.value.calls) + [c]))
      ensures Joined(request.value.calls) == Push(Joined(old(request.value.calls)), c)
    {
      JoinedSnoc(request.value.calls, c);
      request := Some(request.value.(calls := request.value.calls + [c]));
    }

    method OnBody(data: string)
      requires Valid()
      modifies this`request, this`ok
      ensures Valid() && View() == Heard(old(View()), Data(Body, data)) && Maps() == old(Maps())
    {
      hide RunInv, Joined, Push, RequestParser.Valid, HeaderMapImpl.Valid, HeaderMapImpl.Pairs, HeardComplete, HeardEnd,
           HeardField, HeardValue, HeardUrl;
      ok := ok && deferred == null;
      if request.Some? { Call(DecodeData(data, false)); }
    }

    method OnMessageComplete()
      requires Valid()
      modifies this`request, this`deferred
      ensures Valid() && View() == Heard(old(View()), MessageComplete) && Maps() <= old(Maps())
    {
      hide RunInv, Joined, RequestParser.Valid, HeaderMapImpl.Valid, HeaderMapImpl.Pairs, HeardComplete, HeardField,
           HeardUrl, HeardBody, HeardValue, Push;
      if request.Some? {
        request := Some(request.value.(complete := true));
        if deferred != null {
          Call(DecodeHeaders(deferred.Pairs(), true));
          deferred := null;
        } else {
          Call(DecodeData("", true));
        }
      }
    }

    /** The settings table: which method each callback calls. */
    method Deliver(e: Event)
      requires Valid()
      modifies this, Maps()
      ensures Valid() && View() == Heard(old(View()), e) && fresh(Maps() - old(Maps()))
    {
      hide RunInv, HeardField, HeardComplete, HeardEnd, HeardBody, HeardValue, HeardUrl, Joined, HeaderMapImpl.Valid,
           HeaderMapImpl.Pairs, RequestParser.Valid;
      match e
      case MessageBegin => OnMessageBegin();
      case Data(kind, bytes) =>
        match kind {
          case Url => OnUrl(bytes);
          case Field => OnHeaderField(bytes);
          case Value => OnHeaderValue(bytes);
          case Body => OnBody(bytes);
        }
      case HeadersComplete(_, _, _, _, _) => OnHeadersCompleteBase(e);
      case ChunkHeader(size) => expected := expected + size;
      case ChunkComplete =>
      case MessageComplete => OnMessageComplete();
    }

    /** A parser is no header map. */
    lemma {:induction false} ParserApart()
      ensures parser !in Maps()
    {
    }

    /** Callbacks in the order the parser runs them. */
    method DeliverAll(es: seq<Event>)
      requires Valid()
      modifies this, Maps()
      ensures Valid() && View() == HeardAll(old(View()), es) && fresh(Maps() - old(Maps()))
    {
      hide Valid, Heard;
      var i := 0;
      while i < |es|
        invariant 0 <= i <= |es| && Valid() && fresh(Maps() - old(Maps()))
        invariant View() == HeardAll(old(View()), es[..i])
      {
        assert es[..i + 1][..i] == es[..i];
        Deliver(es[i]);
        i := i + 1;
      }
      assert es[..i] == es;
    }

    /**
     * `dispatch` and `dispatchSlice`: the parser is unpaused and fed, and its callbacks arrive in order. An empty
     * slice is an error unless the parser is between two requests.
     */
    method Dispatch(data: string) returns (failed: bool)
      requires Valid() && !Failed(parser.st) && |data| < 0x8000_0000
      modifies this, parser, Maps()
      ensures Valid() && failed == Failed(parser.st) && fresh(Maps() - old(Maps()))
      ensures old(parser.log) <= parser.log
      ensures View() == HeardAll(old(View()), parser.log[|old(parser.log)|..])
      ensures data != "" ==>
                Answered(old(parser.st).(errno := OK), old(parser.nread), old(parser.log), data, parser.st,
                      parser.nread, parser.log)
      ensures data == "" ==>
                && parser.log == old(parser.log) && View() == old(View()) && parser.nread == old(parser.nread)
                && parser.st == old(parser.st).(errno := if Idle(old(parser.st).state) then OK else InvalidEofState)
    {
      hide RunInv, Fold, Merged, HeardAll, HeaderMapImpl.Valid, HeaderMapImpl.Pairs, RequestParser.Valid, Answered,
           Idle;
      ParserApart();
      var n := |parser.log|;
      NothingHeard();
      Feed(parser, data);
      failed := Failed(parser.st);
      if data == "" { assert parser.log[n..] == []; }
      DeliverAll(parser.log[n..]);
    }

    /** Whether the request being read has come to its end. */
    predicate RequestComplete()
      reads this
    {
      request.Some? && request.value.complete
    }

    /**
     * Reading one request: slices are dispatched until it is complete or an error stops the parser. Whatever the
     * bytes, no assertion has failed and the decoder has been called in order. Parser, header map and decoder end as
     * they do for the run over the slices used; only the header bytes of a slice can pass the header limit.
     */
    method ReadRequest(parts: seq<string>) returns (used: nat, failed: bool)
      requires Valid() && !Failed(parser.st) && Idle(parser.st.state) && InStep(parser.st.(errno := OK), View())
      requires parts != [] && forall i :: 0 <= i < |parts| ==> 0 < |parts[i]| < 0x8000_0000
      modifies this, parser, Maps()
      ensures Valid() && 0 < used <= |parts| && failed == Failed(parser.st) && fresh(Maps() - old(Maps()))
      ensures Orderly(View()) && View() == HeardAll(old(View()), parser.log)
      ensures !failed ==> var c := View();
                && InStep(parser.st, c) && (used == |parts| || RequestComplete())
                && (RequestComplete() ==>
                      parser.st.errno.Paused? && BodySize(c.request.value.calls) == BodyDue(parser.st, c))
      ensures ReadAs(old(parser.st).(errno := OK), old(parser.nread), parts, used, parser.st, parser.nread, parser.log)
    {
      hide RunInv, Merged, HeardAll, HeaderMapImpl.Valid, HeaderMapImpl.Pairs, RequestParser.Valid, InStep, ReadAs,
           Orderly, Keeps, Joined, PairsOf;
      ghost var p, c, d := parser.st.(errno := OK), View(), parser.nread;
      UnpausedRun(parser);
      parser.ForgetLog();
      NothingHeard();
      NothingRead(p, d, parts);
      used, failed := ReadSlices(p, d, c, parts);
      KeepsOrderly(parser.st, View());
      if !failed { ReadInStep(parser.st, View()); }
    }

    /** The loop over the slices. */
    method ReadSlices(ghost p: Parser, ghost c: nat, ghost c0: Conn, parts: seq<string>) returns (used: nat,
                      failed: bool)
      requires Valid() && Inv(p) && p.errno.OK? && InStep(p, c0) && Progress(p, c, c0, parts, 0) && !Failed(parser.st)
      requires parts != [] && forall i :: 0 <= i < |parts| ==> 0 < |parts[i]| < 0x8000_0000
      modifies this, parser, Maps()
      ensures Valid() && 0 < used <= |parts| && failed == Failed(parser.st) && fresh(Maps() - old(Maps()))
      ensures Progress(p, c, c0, parts, used) && (failed || used == |parts| || RequestComplete())
    {
      hide RequestParser.Valid, HeaderMapImpl.Valid, InStep, ReadAs, Keeps, Inv, Joined, HeardAll, HeaderMapImpl.Pairs;
      used, failed := 0, false;
      while used < |parts| && !failed && (used == 0 || !RequestComplete())
        invariant 0 <= used <= |parts| && Valid() && fresh(Maps() - old(Maps())) && failed == Failed(parser.st)
        invariant Progress(p, c, c0, parts, used) && (used == 0 ==> !failed)
      {
        if used > 0 { StillRunning(parser.st, View()); }
        failed := ReadSlice(p, c, c0, parts, used);
        used := used + 1;
      }
    }

    /** Where reading stands after `n` slices, for a parser that began at `p` and a connection that began at `c0`. */
    ghost predicate Progress(p: Parser, c: nat, c0: Conn, parts: seq<string>, n: nat)
      requires Inv(p) && n <= |parts|
      reads this, Maps(), headers, deferred, parser
    {
      && View() == HeardAll(c0, parser.log)
      && (if n == 0 then parser.st.(errno := OK) == p else Keeps(parser.st, View()))
      && ReadAs(p, c, parts, n, if n == 0 then p else parser.st, parser.nread, parser.log)
    }

    /** The next slice of a request. */
    method ReadSlice(ghost p: Parser, ghost c: nat, ghost c0: Conn, parts: seq<string>, i: nat) returns (failed: bool)
      requires Valid() && Inv(p) && p.errno.OK? && InStep(p, c0) && i < |parts| && Progress(p, c, c0, parts, i)
      requires 0 < |parts[i]| < 0x8000_0000 && !Failed(parser.st) && (i > 0 ==> parser.st.errno.OK?)
      modifies this, parser, Maps()
      ensures Valid() && failed == Failed(parser.st) && fresh(Maps() - old(Maps())) && Progress(p, c, c0, parts, i + 1)
    {
      hide RunInv, Merged, HeardAll, HeaderMapImpl.Valid, HeaderMapImpl.Pairs, RequestParser.Valid, InStep, ReadAs,
           Orderly, Keeps, Answered;
      ghost var log, st, n := parser.log, parser.st.(errno := OK), parser.nread;
      UnpausedRun(parser);
      failed := Dispatch(parts[i]);
      SliceRead(p, c, parts, i, st, n, log, parser.st, parser.nread, parser.log);
      HeardConcat(c0, log, parser.log[|log|..]);
      assert log + parser.log[|log|..] == parser.log;
      ReadKeeps(p, c, parts, i + 1, parser.st, parser.nread, parser.log, c0);
    }

    /** `onEncodeComplete`: the response has been written, and a request that is complete is done with. */
    method OnEncodeComplete()
      requires Valid() && request.Some?
      modifies this`request
      ensures Valid() && View() == old(View()).(request := if old(RequestComplete()) then None else old(View()).request)
      ensures Maps() == old(Maps())
    {
      hide RunInv, HeaderMapImpl.Valid, HeaderMapImpl.Pairs, RequestParser.Valid;
      if request.value.complete { request := None; }
    }
  }
}
