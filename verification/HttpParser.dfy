/**
 * The request half of the HTTP/1 parser as a state machine: one call of `Case` is one pass through the
 * parser's big switch for one byte, in strict mode.
 */
module HttpParser {
  import opened Chars
  import opened Methods

  datatype State =
    | SDead | SStartReq | SReqMethod | SReqSpacesBeforeUrl
    | SReqSchema | SReqSchemaSlash | SReqSchemaSlashSlash | SReqServerStart | SReqServer | SReqServerWithAt
    | SReqPath | SReqQueryStringStart | SReqQueryString | SReqFragmentStart | SReqFragment
    | SReqHttpStart | SReqHttpH | SReqHttpHT | SReqHttpHTT | SReqHttpHTTP
    | SReqFirstHttpMajor | SReqHttpMajor | SReqFirstHttpMinor | SReqHttpMinor | SReqLineAlmostDone
    | SHeaderFieldStart | SHeaderField | SHeaderValueDiscardWs | SHeaderValueDiscardWsAlmostDone
    | SHeaderValueDiscardLws | SHeaderValueStart | SHeaderValue | SHeaderValueLws | SHeaderAlmostDone
    | SChunkSizeStart | SChunkSize | SChunkParameters | SChunkSizeAlmostDone
    | SHeadersAlmostDone | SHeadersDone
    | SChunkData | SChunkDataAlmostDone | SChunkDataDone | SBodyIdentity | SMessageDone

  /** States up to `s_headers_done` count towards the header size limit. */
  predicate ParsingHeader(s: State) {
    !s.SChunkData? && !s.SChunkDataAlmostDone? && !s.SChunkDataDone? && !s.SBodyIdentity? && !s.SMessageDone?
  }

  datatype HeaderState =
    | HGeneral | HC | HCO | HCON
    | HMatchingConnection | HMatchingProxyConnection | HMatchingContentLength | HMatchingTransferEncoding
    | HMatchingUpgrade
    | HConnection | HContentLength | HTransferEncoding | HUpgrade
    | HMatchingTransferEncodingChunked | HMatchingConnectionTokenStart | HMatchingConnectionKeepAlive
    | HMatchingConnectionClose | HMatchingConnectionUpgrade | HMatchingConnectionToken
    | HTransferEncodingChunked | HConnectionKeepAlive | HConnectionClose | HConnectionUpgrade

  datatype Errno =
    | OK | CbHeadersComplete | InvalidEofState | HeaderOverflow | ClosedConnection | InvalidVersion
    | InvalidMethod | InvalidUrl | LfExpected | InvalidHeaderToken | InvalidContentLength
    | UnexpectedContentLength | InvalidChunkSize | InvalidConstant | Strict | Paused

  datatype Flags = Flags(chunked: bool, keepAlive: bool, close: bool, connectionUpgrade: bool, trailing: bool,
                         upgrade: bool, skipBody: bool, contentLength: bool)

  const NO_FLAGS := Flags(false, false, false, false, false, false, false, false)

  /** The fields of `struct http_parser` a request uses, but for the header size counter `nread`. */
  datatype Parser = Parser(state: State, hs: HeaderState, index: nat, flags: Flags, contentLength: nat,
                           major: nat, minor: nat, verb: Method, errno: Errno, upgrade: bool)

  /** The parser after `http_parser_init(HTTP_REQUEST)`. */
  const INIT := Parser(SStartReq, HGeneral, 0, NO_FLAGS, 0, 0, 0, DELETE, OK, false)

  datatype Kind = Url | Field | Value | Body

  /** One call of a settings callback. */
  datatype Event =
    | MessageBegin
    | Data(kind: Kind, bytes: string)
    | HeadersComplete(verb: Method, major: nat, minor: nat, chunked: bool, contentLength: nat)
    | ChunkHeader(size: nat)
    | ChunkComplete
    | MessageComplete

  /**
   * What the callbacks do to the parser: the value `on_headers_complete` returns, and whether it or
   * `on_message_complete` pauses the parser. Every other callback returns 0.
   */
  datatype Callbacks = Callbacks(headersResult: int, pauseHeaders: bool, pauseComplete: bool)

  /** Where control goes after a `case`: the next byte, `reexecute`, `error`, or a return. */
  datatype Control = Next | Again | Fail | Return(advance: bool)

  /**
   * The effect of a `case` on one byte. `data` is the kind of callback data this byte belongs to, `flush` a
   * data callback run before this byte, `notes` the notifications raised.
   */
  datatype Effect = Effect(p: Parser, data: Option<Kind>, flush: Option<Kind>, notes: seq<Event>, ctl: Control)

  function Go(p: Parser, s: State): Effect { Effect(p.(state := s), None, None, [], Next) }

  function Redo(p: Parser, s: State): Effect { Effect(p.(state := s), None, None, [], Again) }

  function Err(p: Parser, e: Errno): Effect { Effect(p.(errno := e), None, None, [], Fail) }

  function Take(p: Parser, k: Kind): Effect { Effect(p, Some(k), None, [], Next) }

  /** `STRICT_CHECK` on one expected byte. */
  function Expect(p: Parser, ok: bool, s: State): Effect { if ok then Go(p, s) else Err(p, Strict) }

  // ---------------------------------------------------------------- invariant

  /** The states in which header names are matched. */
  predicate FieldHs(h: HeaderState) {
    h.HGeneral? || h.HC? || h.HCO? || h.HCON? || h.HMatchingConnection? || h.HMatchingProxyConnection? ||
    h.HMatchingContentLength? || h.HMatchingTransferEncoding? || h.HMatchingUpgrade? || h.HConnection? ||
    h.HContentLength? || h.HTransferEncoding? || h.HUpgrade?
  }

  /** The states in which header values are matched. */
  predicate ValueHs(h: HeaderState) {
    h.HGeneral? || h.HContentLength? || h.HMatchingTransferEncodingChunked? || h.HMatchingConnectionTokenStart? ||
    h.HMatchingConnectionKeepAlive? || h.HMatchingConnectionClose? || h.HMatchingConnectionUpgrade? ||
    h.HMatchingConnectionToken? || h.HTransferEncodingChunked? || h.HConnectionKeepAlive? ||
    h.HConnectionClose? || h.HConnectionUpgrade?
  }

  predicate ChunkState(s: State) {
    s.SChunkSizeStart? || s.SChunkSize? || s.SChunkParameters? || s.SChunkSizeAlmostDone? || s.SChunkData? ||
    s.SChunkDataAlmostDone? || s.SChunkDataDone?
  }

  /** An upper bound of `index` in each name or value matcher: it always points inside the matched string. */
  function IndexBound(h: HeaderState): nat {
    if h.HC? then 0
    else if h.HCO? then 1
    else if h.HCON? then 2
    else if h.HMatchingConnection? then 8
    else if h.HMatchingProxyConnection? then 14
    else if h.HMatchingContentLength? then 12
    else if h.HMatchingTransferEncoding? then 15
    else if h.HMatchingUpgrade? then 5
    else if h.HMatchingTransferEncodingChunked? then 5
    else if h.HMatchingConnectionKeepAlive? then 8
    else if h.HMatchingConnectionClose? then 3
    else if h.HMatchingConnectionUpgrade? then 5
    else if h.HMatchingConnectionTokenStart? then 0
    else 16
  }

  predicate Failed(p: Parser) { !p.errno.OK? && !p.errno.Paused? }

  /** Everything the parser's own assertions rely on. */
  predicate Inv(p: Parser) {
    Failed(p) ||
    (&& p.contentLength <= ULLONG_MAX
     && (p.flags.trailing ==> p.flags.chunked)
     && (ChunkState(p.state) ==> p.flags.chunked)
     && (ChunkState(p.state) && !p.state.SChunkSizeStart? ==> p.contentLength < ULLONG_MAX)
     && (p.state.SBodyIdentity? || p.state.SChunkData? ==> 0 < p.contentLength < ULLONG_MAX)
     && (p.state.SChunkDataAlmostDone? ==> p.contentLength == 0)
     && (p.state.SHeaderField? ==> FieldHs(p.hs) && p.index <= IndexBound(p.hs))
     && (p.state.SHeaderValue? ==> ValueHs(p.hs) && p.index <= IndexBound(p.hs))
     && (p.state.SHeaderValue? && p.hs.HContentLength? ==> p.contentLength < ULLONG_MAX))
  }

  /** The states that hold a name, value or URL open, and the kind of data it is. */
  function OpenKind(s: State): Option<Kind> {
    if s.SHeaderField? then Some(Field) else if s.SHeaderValue? then Some(Value)
    else if UrlState(s) then Some(Url) else None
  }

  /**
   * Facts every `case` shares: a byte that leaves a name, value or URL open belongs to it, `reexecute` never
   * jumps into the middle of one, and only an error or a pause stops the parser.
   */
  predicate Sane(r: Effect) {
    match r.ctl
    case Next => r.p.errno.OK? && (OpenKind(r.p.state).Some? ==> r.data == OpenKind(r.p.state) && r.notes == [])
    case Again => r.p.errno.OK? && OpenKind(r.p.state).None? && !BodyRunState(r.p.state)
    case Fail => Failed(r.p)
    case Return(_) => Failed(r.p) || OpenKind(r.p.state).None?
  }

  /** The states that take a whole stretch of body at once. */
  predicate BodyRunState(s: State) { s.SBodyIdentity? || s.SChunkData? }

  // ---------------------------------------------------------------- request line

  function ParseUrlChar(s: State, ch: char): State {
    if ch == ' ' || ch == CR || ch == LF || ch == TAB || ch as int == 12 then SDead
    else
      if s.SReqSpacesBeforeUrl? then
        if ch == '/' || ch == '*' then SReqPath else if IsAlpha(ch) then SReqSchema else SDead
      else if s.SReqSchema? then if IsAlpha(ch) then s else if ch == ':' then SReqSchemaSlash else SDead
      else if s.SReqSchemaSlash? then if ch == '/' then SReqSchemaSlashSlash else SDead
      else if s.SReqSchemaSlashSlash? then if ch == '/' then SReqServerStart else SDead
      else if s.SReqServerWithAt? then if ch == '@' then SDead else ServerChar(ch)
      else if s.SReqServerStart? then ServerChar(ch)
      else if s.SReqServer? then ServerChar(ch)
      else if s.SReqPath? then
        if IsUrlChar(ch) then s else if ch == '?' then SReqQueryStringStart
        else if ch == '#' then SReqFragmentStart else SDead
      else if s.SReqQueryStringStart? then QueryChar(ch)
      else if s.SReqQueryString? then QueryChar(ch)
      else if s.SReqFragmentStart? then
        if IsUrlChar(ch) || ch == '?' then SReqFragment else if ch == '#' then s else SDead
      else if s.SReqFragment? then if IsUrlChar(ch) || ch == '?' || ch == '#' then s else SDead
      else SDead
  }

  function ServerChar(ch: char): State {
    if ch == '/' then SReqPath
    else if ch == '?' then SReqQueryStringStart
    else if ch == '@' then SReqServerWithAt
    else if IsUserInfoChar(ch) || ch == '[' || ch == ']' then SReqServer
    else SDead
  }

  function QueryChar(ch: char): State {
    if IsUrlChar(ch) || ch == '?' then SReqQueryString else if ch == '#' then SReqFragmentStart else SDead
  }

  /** States in which a URL is open, so that a new slice starts inside the URL. */
  predicate UrlState(s: State) {
    s.SReqPath? || s.SReqSchema? || s.SReqSchemaSlash? || s.SReqSchemaSlashSlash? || s.SReqServerStart? ||
    s.SReqServer? || s.SReqServerWithAt? || s.SReqQueryStringStart? || s.SReqQueryString? ||
    s.SReqFragmentStart? || s.SReqFragment?
  }

  function UrlByte(p: Parser, s: State, ch: char): (r: Effect)
    ensures r.ctl.Next? ==> UrlState(r.p.state) && r.data == Some(Url)
  {
    var next := ParseUrlChar(s, ch);
    if next.SDead? then Err(p.(state := SDead), InvalidUrl) else Take(p.(state := next), Url)
  }

  predicate StartState(s: State) { s.SDead? || s.SStartReq? || s.SReqMethod? || s.SReqSpacesBeforeUrl? }

  /** The first byte of a request. */
  function FirstByte(p: Parser, ch: char): (r: Effect)
    requires Inv(p) && p.errno.OK? && p.state.SStartReq?
    ensures Inv(r.p) && Sane(r) && (r.ctl.Next? || r.ctl.Fail?)
  {
    if ch == CR || ch == LF then Go(p, SStartReq)
    else
      var p1 := p.(flags := NO_FLAGS, contentLength := ULLONG_MAX);
      var guess := FirstGuess(ch);
      if !IsAlpha(ch) then Err(p1, InvalidMethod)
      else if guess.None? then Err(p1.(verb := DELETE, index := 1), InvalidMethod)
      else Effect(p1.(verb := guess.value, index := 1, state := SReqMethod), None, None, [MessageBegin], Next)
  }

  /** One more byte of the method, or the space behind it. */
  function MethodByte(p: Parser, ch: char): (r: Effect)
    requires Inv(p) && p.errno.OK? && p.state.SReqMethod?
    ensures Inv(r.p) && Sane(r) && (r.ctl.Next? || r.ctl.Fail?)
  {
    if ch == ' ' && At(MethodString(p.verb), p.index) == NUL then
      Go(p.(index := p.index + 1), SReqSpacesBeforeUrl)
    else
      var guess := NextGuess(p.verb, p.index, ch);
      if guess.None? then Err(p, InvalidMethod)
      else Go(p.(verb := guess.value, index := p.index + 1), SReqMethod)
  }

  function StartCase(p: Parser, ch: char): (r: Effect)
    requires Inv(p) && p.errno.OK? && StartState(p.state)
    ensures Inv(r.p) && Sane(r)
  {
    if p.state.SDead? then if ch == CR || ch == LF then Go(p, SDead) else Err(p, ClosedConnection)
    else if p.state.SStartReq? then FirstByte(p, ch)
    else if p.state.SReqMethod? then MethodByte(p, ch)
    else
      if ch == ' ' then Go(p, SReqSpacesBeforeUrl)
      else UrlByte(p, if p.verb.CONNECT? then SReqServerStart else SReqSpacesBeforeUrl, ch)
  }

  function UrlCase(p: Parser, ch: char): (r: Effect)
    requires Inv(p) && p.errno.OK? && UrlState(p.state)
    ensures Inv(r.p) && Sane(r)
    ensures r.flush.Some? ==> r.flush == Some(Url) && r.ctl.Next? && !UrlState(r.p.state)
    ensures r.ctl.Next? && r.flush.None? ==> UrlState(r.p.state) && r.data == Some(Url)
  {
    if p.state.SReqSchema? || p.state.SReqSchemaSlash? || p.state.SReqSchemaSlashSlash? ||
       p.state.SReqServerStart?
    then
      if ch == ' ' || ch == CR || ch == LF then Err(p, InvalidUrl) else UrlByte(p, p.state, ch)
    else if ch == ' ' then Effect(p.(state := SReqHttpStart), None, Some(Url), [], Next)
    else if ch == CR || ch == LF then
      Effect(p.(major := 0, minor := 9, state := if ch == CR then SReqLineAlmostDone else SHeaderFieldStart),
             None, Some(Url), [], Next)
    else UrlByte(p, p.state, ch)
  }

  predicate ProtocolState(s: State) {
    s.SReqHttpStart? || s.SReqHttpH? || s.SReqHttpHT? || s.SReqHttpHTT? || s.SReqHttpHTTP?
  }

  function ProtocolCase(p: Parser, ch: char): (r: Effect)
    requires Inv(p) && p.errno.OK? && ProtocolState(p.state)
    ensures Inv(r.p) && Sane(r)
    ensures r.ctl.Next? || r.ctl.Fail?
  {
    if p.state.SReqHttpStart? then
      if ch == 'H' then Go(p, SReqHttpH) else if ch == ' ' then Go(p, SReqHttpStart) else Err(p, InvalidConstant)
    else if p.state.SReqHttpH? then Expect(p, ch == 'T', SReqHttpHT)
    else if p.state.SReqHttpHT? then Expect(p, ch == 'T', SReqHttpHTT)
    else if p.state.SReqHttpHTT? then Expect(p, ch == 'P', SReqHttpHTTP)
    else Expect(p, ch == '/', SReqFirstHttpMajor)
  }

  predicate VersionState(s: State) {
    s.SReqFirstHttpMajor? || s.SReqHttpMajor? || s.SReqFirstHttpMinor? || s.SReqHttpMinor? ||
    s.SReqLineAlmostDone?
  }

  /** One more digit of a version number, at most 999. */
  function VersionDigit(v: nat, ch: char): Option<nat> {
    if !IsNum(ch) || v * 10 + Digit(ch) > 999 then None else Some(v * 10 + Digit(ch))
  }

  /** A byte of the major version number, or the point behind it. */
  function MajorCase(p: Parser, ch: char): (r: Effect)
    requires Inv(p) && p.errno.OK? && (p.state.SReqFirstHttpMajor? || p.state.SReqHttpMajor?)
    ensures Inv(r.p) && Sane(r)
    ensures r.ctl.Next? || r.ctl.Fail?
  {
    if p.state.SReqFirstHttpMajor? then
      if ch < '1' || ch > '9' then Err(p, InvalidVersion) else Go(p.(major := Digit(ch)), SReqHttpMajor)
    else if ch == '.' then Go(p, SReqFirstHttpMinor)
    else
      var v := VersionDigit(p.major, ch);
      if v.None? then Err(p, InvalidVersion) else Go(p.(major := v.value), SReqHttpMajor)
  }

  function VersionCase(p: Parser, ch: char): (r: Effect)
    requires Inv(p) && p.errno.OK? && VersionState(p.state)
    ensures Inv(r.p) && Sane(r)
    ensures r.ctl.Next? || r.ctl.Fail?
  {
    if p.state.SReqFirstHttpMajor? || p.state.SReqHttpMajor? then MajorCase(p, ch)
    else if p.state.SReqFirstHttpMinor? then
      if !IsNum(ch) then Err(p, InvalidVersion) else Go(p.(minor := Digit(ch)), SReqHttpMinor)
    else if p.state.SReqHttpMinor? then
      if ch == CR then Go(p, SReqLineAlmostDone)
      else if ch == LF then Go(p, SHeaderFieldStart)
      else
        var v := VersionDigit(p.minor, ch);
        if v.None? then Err(p, InvalidVersion) else Go(p.(minor := v.value), SReqHttpMinor)
    else if ch != LF then Err(p, LfExpected)
    else Go(p, SHeaderFieldStart)
  }

  // ---------------------------------------------------------------- header names

  const CONNECTION := "connection"
  const PROXY_CONNECTION := "proxy-connection"
  const CONTENT_LENGTH := "content-length"
  const TRANSFER_ENCODING := "transfer-encoding"
  const UPGRADE := "upgrade"
  const CHUNKED := "chunked"
  const KEEP_ALIVE := "keep-alive"
  const CLOSE := "close"

  /** The header state chosen by the first byte `c` (already a token, in lower case) of a name. */
  function FieldStartHs(c: char): (h: HeaderState)
    ensures FieldHs(h)
  {
    match c
    case 'c' => HC
    case 'p' => HMatchingProxyConnection
    case 't' => HMatchingTransferEncoding
    case 'u' => HMatchingUpgrade
    case _ => HGeneral
  }

  /** One step of matching `name`: stay, reach `done` on its last character, or give up. */
  function MatchStep(name: string, index: nat, c: char, stay: HeaderState, done: HeaderState, miss: HeaderState)
    : HeaderState
  {
    if index > |name| || c != At(name, index) then miss
    else if index == |name| - 1 then done
    else stay
  }

  /** The name matcher on one more token byte `ch`: header state and index. */
  function FieldStep(hs: HeaderState, index: nat, ch: char): (r: (HeaderState, nat))
    requires FieldHs(hs) && index <= IndexBound(hs) && IsToken(ch)
    ensures FieldHs(r.0) && r.1 <= IndexBound(r.0)
  {
    var c := Token(ch);
    if hs.HGeneral? then (HGeneral, index)
    else if hs.HC? then (if c == 'o' then HCO else HGeneral, index + 1)
    else if hs.HCO? then (if c == 'n' then HCON else HGeneral, index + 1)
    else if hs.HCON? then
      (if c == 'n' then HMatchingConnection else if c == 't' then HMatchingContentLength else HGeneral, index + 1)
    else if hs.HMatchingConnection? then (MatchStep(CONNECTION, index + 1, c, hs, HConnection, HGeneral), index + 1)
    else if hs.HMatchingProxyConnection? then
      (MatchStep(PROXY_CONNECTION, index + 1, c, hs, HConnection, HGeneral), index + 1)
    else if hs.HMatchingContentLength? then
      (MatchStep(CONTENT_LENGTH, index + 1, c, hs, HContentLength, HGeneral), index + 1)
    else if hs.HMatchingTransferEncoding? then
      (MatchStep(TRANSFER_ENCODING, index + 1, c, hs, HTransferEncoding, HGeneral), index + 1)
    else if hs.HMatchingUpgrade? then (MatchStep(UPGRADE, index + 1, c, hs, HUpgrade, HGeneral), index + 1)
    else (if ch != ' ' then HGeneral else hs, index)
  }

  predicate FieldState(s: State) { s.SHeaderFieldStart? || s.SHeaderField? }

  function FieldCase(p: Parser, ch: char): (r: Effect)
    requires Inv(p) && p.errno.OK? && FieldState(p.state)
    ensures Inv(r.p) && Sane(r)
    ensures r.ctl.Again? ==> r.p.state.SHeadersAlmostDone?
  {
    if p.state.SHeaderFieldStart? then
      if ch == CR then Go(p, SHeadersAlmostDone)
      else if ch == LF then Redo(p, SHeadersAlmostDone)
      else if !IsToken(ch) then Err(p, InvalidHeaderToken)
      else Take(p.(index := 0, state := SHeaderField, hs := FieldStartHs(Token(ch))), Field)
    else
      if IsToken(ch) then
        var r := FieldStep(p.hs, p.index, ch);
        Take(p.(hs := r.0, index := r.1), Field)
      else if ch == ':' then Effect(p.(state := SHeaderValueDiscardWs), None, Some(Field), [], Next)
      else Err(p, InvalidHeaderToken)
  }

  // ---------------------------------------------------------------- header values

  /** The first byte of a header value. */
  function ValueStart(p: Parser, ch: char): (r: Effect)
    requires Inv(p) && p.errno.OK?
    requires p.state.SHeaderValueStart? || p.state.SHeaderValueDiscardWs?
    ensures Inv(r.p) && Sane(r)
    ensures r.ctl.Next? ==> r.p.state.SHeaderValue? && r == Take(r.p, Value)
    ensures r.ctl.Next? || (r.ctl.Fail? && r == Err(r.p, r.p.errno))
  {
    var q := p.(state := SHeaderValue, index := 0);
    var c := Lower(ch);
    if p.hs.HUpgrade? then Take(q.(flags := q.flags.(upgrade := true), hs := HGeneral), Value)
    else if p.hs.HTransferEncoding? then
      Take(q.(hs := if c == 'c' then HMatchingTransferEncodingChunked else HGeneral), Value)
    else if p.hs.HContentLength? then
      if !IsNum(ch) then Err(q, InvalidContentLength)
      else if q.flags.contentLength then Err(q, UnexpectedContentLength)
      else Take(q.(flags := q.flags.(contentLength := true), contentLength := Digit(ch)), Value)
    else if p.hs.HConnection? then
      Take(q.(hs := TokenStartHs(c)), Value)
    else if p.hs.HMatchingConnectionTokenStart? then Take(q, Value)
    else Take(q.(hs := HGeneral), Value)
  }

  /** `content_length = content_length * 10 + digit` in 64 bits, guarded as in the source. */
  function AppendDigit(length: nat, d: nat): (r: Option<nat>)
    requires d < 10
    ensures r.Some? ==> r.value == length * 10 + d && r.value < ULLONG_MAX
  {
    if (ULLONG_MAX - 10) / 10 < length then None else Some((length * 10 + d) % UINT64_RANGE)
  }

  /** `content_length = content_length * 16 + digit` in 64 bits, guarded as in the source. */
  function AppendHexDigit(size: nat, d: nat): (r: Option<nat>)
    requires d < 16
    ensures r.Some? ==> r.value == size * 16 + d && r.value < ULLONG_MAX
  {
    if (ULLONG_MAX - 16) / 16 < size then None else Some((size * 16 + d) % UINT64_RANGE)
  }

  /** Matching one more byte `c` of the literal value `name`. */
  function ValueMatch(p: Parser, name: string, c: char, done: HeaderState, miss: HeaderState): (r: Effect)
    requires Inv(p) && p.errno.OK? && p.state.SHeaderValue?
    requires IndexBound(p.hs) + 2 == |name| && |name| <= 17
    requires ValueHs(done) && ValueHs(miss) && IndexBound(done) == 16 && IndexBound(miss) == 16
    requires !done.HContentLength? && !miss.HContentLength?
    ensures Inv(r.p) && r.p.state.SHeaderValue? && r == Take(r.p, Value)
  {
    Take(p.(index := p.index + 1, hs := MatchStep(name, p.index + 1, c, p.hs, done, miss)), Value)
  }

  /** The state a `Connection` token takes at its first byte `c`. */
  function TokenStartHs(c: char): (h: HeaderState)
    ensures ValueHs(h) && !h.HContentLength?
  {
    if c == 'k' then HMatchingConnectionKeepAlive
    else if c == 'c' then HMatchingConnectionClose
    else if c == 'u' then HMatchingConnectionUpgrade
    else HMatchingConnectionToken
  }

  /** The `Connection` value matcher: a list of tokens separated by commas. */
  function ConnectionByte(p: Parser, ch: char): (r: Effect)
    requires Inv(p) && p.errno.OK? && p.state.SHeaderValue?
    requires !p.hs.HContentLength? && !p.hs.HTransferEncodingChunked? && !p.hs.HMatchingTransferEncodingChunked?
    ensures Inv(r.p) && r.p.state.SHeaderValue? && r == Take(r.p, Value)
  {
    var c := Lower(ch);
    if p.hs.HMatchingConnectionTokenStart? then
      if c == 'k' || c == 'c' || c == 'u' || IsToken(c) then Take(p.(hs := TokenStartHs(c)), Value)
      else if c == ' ' || c == TAB then Take(p, Value)
      else Take(p.(hs := HGeneral), Value)
    else if p.hs.HMatchingConnectionKeepAlive? then
      ValueMatch(p, KEEP_ALIVE, c, HConnectionKeepAlive, HMatchingConnectionToken)
    else if p.hs.HMatchingConnectionClose? then
      ValueMatch(p, CLOSE, c, HConnectionClose, HMatchingConnectionToken)
    else if p.hs.HMatchingConnectionUpgrade? then
      ValueMatch(p, UPGRADE, c, HConnectionUpgrade, HMatchingConnectionToken)
    else if p.hs.HMatchingConnectionToken? then
      if ch == ',' then Take(p.(hs := HMatchingConnectionTokenStart, index := 0), Value) else Take(p, Value)
    else if p.hs.HGeneral? then Take(p, Value)
    else if ch == ',' then
      Take(p.(flags := ConnectionFlags(p), hs := HMatchingConnectionTokenStart, index := 0), Value)
    else if ch != ' ' then Take(p.(hs := HMatchingConnectionToken), Value)
    else Take(p, Value)
  }

  /** The value matcher on one byte that is neither CR nor LF. */
  function ValueByte(p: Parser, ch: char): (r: Effect)
    requires Inv(p) && p.errno.OK? && p.state.SHeaderValue?
    ensures Inv(r.p)
    ensures r.ctl.Next? ==> r.p.state.SHeaderValue? && r.p.errno.OK? && r == Take(r.p, Value)
    ensures r.ctl.Next? || (r.ctl.Fail? && Failed(r.p) && r == Err(p, r.p.errno))
    ensures p.hs.HGeneral? ==> r == Take(p, Value)
  {
    if p.hs.HContentLength? then
      if ch == ' ' then Take(p, Value)
      else if !IsNum(ch) then Err(p, InvalidContentLength)
      else
        var t := AppendDigit(p.contentLength, Digit(ch));
        if t.None? then Err(p, InvalidContentLength) else Take(p.(contentLength := t.value), Value)
    else if p.hs.HMatchingTransferEncodingChunked? then
      ValueMatch(p, CHUNKED, Lower(ch), HTransferEncodingChunked, HGeneral)
    else if p.hs.HTransferEncodingChunked? then
      if ch != ' ' then Take(p.(hs := HGeneral), Value) else Take(p, Value)
    else ConnectionByte(p, ch)
  }

  /** The flag a completed `Connection` token sets. */
  function ConnectionFlags(p: Parser): (f: Flags)
    ensures f.chunked == p.flags.chunked && f.trailing == p.flags.trailing
    ensures f.contentLength == p.flags.contentLength && f.skipBody == p.flags.skipBody
  {
    if p.hs.HConnectionKeepAlive? then p.flags.(keepAlive := true)
    else if p.hs.HConnectionClose? then p.flags.(close := true)
    else if p.hs.HConnectionUpgrade? then p.flags.(connectionUpgrade := true)
    else p.flags
  }

  /** The flags a finished header sets. */
  function FinishedFlags(p: Parser): (f: Flags)
    ensures f.trailing ==> p.flags.trailing
    ensures p.flags.chunked ==> f.chunked
  {
    if p.hs.HTransferEncodingChunked? then p.flags.(chunked := true) else ConnectionFlags(p)
  }

  predicate DiscardState(s: State) {
    s.SHeaderValueDiscardWs? || s.SHeaderValueDiscardWsAlmostDone? || s.SHeaderValueDiscardLws?
  }

  /** White space before a header value, which may turn out to be empty. */
  function DiscardCase(p: Parser, ch: char): (r: Effect)
    requires Inv(p) && p.errno.OK? && DiscardState(p.state)
    ensures Inv(r.p) && Sane(r) && r.flush.None?
    ensures r.ctl.Again? ==> r.p.state.SHeaderFieldStart? && p.state.SHeaderValueDiscardLws?
    ensures r.ctl.Next? || r.ctl.Fail? || r.ctl.Again?
  {
    if p.state.SHeaderValueDiscardWs? then
      if ch == ' ' || ch == TAB then Go(p, p.state)
      else if ch == CR then Go(p, SHeaderValueDiscardWsAlmostDone)
      else if ch == LF then Go(p, SHeaderValueDiscardLws)
      else ValueStart(p, ch)
    else if p.state.SHeaderValueDiscardWsAlmostDone? then Expect(p, ch == LF, SHeaderValueDiscardLws)
    else if ch == ' ' || ch == TAB then Go(p, SHeaderValueDiscardWs)
    else Effect(p.(flags := FinishedFlags(p), state := SHeaderFieldStart), None, None, [Data(Value, "")], Again)
  }

  /**
   * Inside a header value. `checked` says that this byte lies in a stretch of a general value the parser
   * skips with `memchr`, without testing `IS_HEADER_CHAR`.
   */
  function ValueCase(p: Parser, checked: bool, ch: char): (r: Effect)
    requires Inv(p) && p.errno.OK? && p.state.SHeaderValue?
    ensures Inv(r.p) && Sane(r) && !r.ctl.Return?
    ensures r.ctl.Again? ==> r.p.state.SHeaderAlmostDone?
    ensures r.flush.Some? ==> r.flush == Some(Value) && (ch == CR || ch == LF)
  {
    if ch == CR then Effect(p.(state := SHeaderAlmostDone), None, Some(Value), [], Next)
    else if ch == LF then Effect(p.(state := SHeaderAlmostDone), None, Some(Value), [], Again)
    else if !IsHeaderChar(ch) && !(checked && p.hs.HGeneral?) then Err(p, InvalidHeaderToken)
    else ValueByte(p, ch)
  }

  predicate ValueEdgeState(s: State) { s.SHeaderValueStart? || s.SHeaderValueLws? || s.SHeaderAlmostDone? }

  /** The start of a header value line and the end of one, which the next line may continue. */
  function ValueEdgeCase(p: Parser, ch: char): (r: Effect)
    requires Inv(p) && p.errno.OK? && ValueEdgeState(p.state)
    ensures Inv(r.p) && Sane(r) && !r.ctl.Return? && r.flush.None?
    ensures r.ctl.Again? ==> p.state.SHeaderValueLws? && (r.p.state.SHeaderValueStart? || r.p.state.SHeaderFieldStart?)
  {
    if p.state.SHeaderValueStart? then ValueStart(p, ch)
    else if p.state.SHeaderAlmostDone? then if ch != LF then Err(p, LfExpected) else Go(p, SHeaderValueLws)
    else if ch == ' ' || ch == TAB then Redo(p, SHeaderValueStart)
    else Redo(p.(flags := FinishedFlags(p)), SHeaderFieldStart)
  }

  // ---------------------------------------------------------------- end of headers, body

  /** `http_should_keep_alive` of a request parser. */
  predicate ShouldKeepAlive(p: Parser) {
    if p.major > 0 && p.minor > 0 then !p.flags.close else p.flags.keepAlive
  }

  function NewMessage(p: Parser): State { if ShouldKeepAlive(p) then SStartReq else SDead }

  /** `UPDATE_STATE(NEW_MESSAGE()); CALLBACK_NOTIFY(message_complete)`, then a return if `exit`. */
  function Complete(cb: Callbacks, p: Parser, exit: bool): Effect {
    var q := p.(state := NewMessage(p), errno := if cb.pauseComplete then Paused else OK);
    Effect(q, None, None, [MessageComplete], if cb.pauseComplete || exit then Return(true) else Next)
  }

  predicate HasBody(chunked: bool, contentLength: nat) { chunked || 0 < contentLength < ULLONG_MAX }

  predicate EndState(s: State) { s.SHeadersAlmostDone? || s.SHeadersDone? || s.SMessageDone? }

  /** The line feed of the blank line behind the headers: `on_headers_complete`, or the end of the trailers. */
  function BlankLineCase(cb: Callbacks, p: Parser, ch: char): (r: Effect)
    requires Inv(p) && p.errno.OK? && p.state.SHeadersAlmostDone?
    ensures Inv(r.p) && Sane(r)
    ensures r.ctl.Again? ==> r.p.state.SHeadersDone? || r.p.state.SMessageDone?
  {
    if ch != LF then Err(p, Strict)
    else if p.flags.trailing then Effect(p.(state := SMessageDone), None, None, [ChunkComplete], Again)
    else if p.flags.chunked && p.flags.contentLength then Err(p, UnexpectedContentLength)
    else
      var up := (p.flags.upgrade && p.flags.connectionUpgrade) || p.verb.CONNECT?;
      var note := HeadersComplete(p.verb, p.major, p.minor, p.flags.chunked, p.contentLength);
      var q := p.(state := SHeadersDone, upgrade := up || cb.headersResult == 2);
      if cb.headersResult !in {0, 1, 2} then
        Effect(q.(upgrade := up, errno := CbHeadersComplete), None, None, [note], Return(false))
      else
        var q' := if cb.headersResult == 0 then q else q.(flags := q.flags.(skipBody := true));
        if cb.pauseHeaders then Effect(q'.(errno := Paused), None, None, [note], Return(false))
        else Effect(q', None, None, [note], Again)
  }

  function EndCase(cb: Callbacks, p: Parser, ch: char): (r: Effect)
    requires Inv(p) && p.errno.OK? && EndState(p.state)
    ensures Inv(r.p) && Sane(r)
    ensures r.ctl.Again? ==> p.state.SHeadersAlmostDone? && (r.p.state.SHeadersDone? || r.p.state.SMessageDone?)
  {
    if p.state.SHeadersAlmostDone? then BlankLineCase(cb, p, ch)
    else if p.state.SHeadersDone? then
      if ch != LF then Err(p, Strict)
      else if p.upgrade && (p.verb.CONNECT? || p.flags.skipBody || !HasBody(p.flags.chunked, p.contentLength)) then
        Complete(cb, p, true)
      else if p.flags.skipBody then Complete(cb, p, false)
      else if p.flags.chunked then Go(p, SChunkSizeStart)
      else if p.contentLength == 0 then Complete(cb, p, false)
      else if p.contentLength != ULLONG_MAX then Go(p, SBodyIdentity)
      else Complete(cb, p, false)
    else Complete(cb, p, p.upgrade)
  }

  predicate BodyState(s: State) { ChunkState(s) || s.SBodyIdentity? }

  /** A byte of body data. */
  function DataCase(p: Parser, ch: char): (r: Effect)
    requires Inv(p) && p.errno.OK? && BodyRunState(p.state)
    ensures Inv(r.p) && Sane(r)
    ensures r.ctl.Again? ==> p.state.SBodyIdentity? && r.p.state.SMessageDone?
  {
    var q := p.(contentLength := p.contentLength - 1);
    if p.state.SChunkData? then Take(if q.contentLength == 0 then q.(state := SChunkDataAlmostDone) else q, Body)
    else if q.contentLength == 0 then Effect(q.(state := SMessageDone), Some(Body), None, [], Again)
    else Take(q, Body)
  }

  predicate SizeState(s: State) { s.SChunkSizeStart? || s.SChunkSize? || s.SChunkParameters? }

  /** A byte of a chunk size, or of its parameters. */
  function SizeCase(p: Parser, ch: char): (r: Effect)
    requires Inv(p) && p.errno.OK? && SizeState(p.state)
    ensures Inv(r.p) && Sane(r) && !r.ctl.Again?
  {
    if p.state.SChunkSizeStart? then
      if UnHex(ch) == -1 then Err(p, InvalidChunkSize) else Go(p.(contentLength := UnHex(ch)), SChunkSize)
    else if p.state.SChunkSize? then
      if ch == CR then Go(p, SChunkSizeAlmostDone)
      else if UnHex(ch) == -1 then
        if ch == ';' || ch == ' ' then Go(p, SChunkParameters) else Err(p, InvalidChunkSize)
      else
        var t := AppendHexDigit(p.contentLength, UnHex(ch));
        if t.None? then Err(p, InvalidContentLength) else Go(p.(contentLength := t.value), SChunkSize)
    else if ch == CR then Go(p, SChunkSizeAlmostDone)
    else Go(p, SChunkParameters)
  }

  function BodyCase(p: Parser, ch: char): (r: Effect)
    requires Inv(p) && p.errno.OK? && BodyState(p.state)
    ensures Inv(r.p) && Sane(r)
    ensures r.ctl.Again? ==> p.state.SBodyIdentity? && r.p.state.SMessageDone?
  {
    if BodyRunState(p.state) then DataCase(p, ch)
    else if SizeState(p.state) then SizeCase(p, ch)
    else if p.state.SChunkSizeAlmostDone? then
      if ch != LF then Err(p, Strict)
      else
        var q := if p.contentLength == 0 then p.(flags := p.flags.(trailing := true), state := SHeaderFieldStart)
                 else p.(state := SChunkData);
        Effect(q, None, None, [ChunkHeader(p.contentLength)], Next)
    else if p.state.SChunkDataAlmostDone? then
      if ch != CR then Err(p, Strict) else Effect(p.(state := SChunkDataDone), None, Some(Body), [], Next)
    else
      if ch != LF then Err(p, Strict) else Effect(p.(state := SChunkSizeStart), None, None, [ChunkComplete], Next)
  }

  // ---------------------------------------------------------------- the switch

  /** How many `reexecute` jumps a state can still lead to on one byte. */
  function Rank(s: State): nat {
    if s.SHeaderValueLws? then 4
    else if s.SHeaderValueDiscardLws? then 4
    else if s.SHeaderValue? then 4
    else if s.SBodyIdentity? then 4
    else if s.SHeaderFieldStart? then 3
    else if s.SHeadersAlmostDone? then 2
    else 0
  }

  /** The parser's switch: one `case` on byte `ch`. Each `reexecute` lowers the rank of the state. */
  function Case(cb: Callbacks, p: Parser, checked: bool, ch: char): (r: Effect)
    requires Inv(p) && p.errno.OK?
    ensures Inv(r.p) && Sane(r)
    ensures r.ctl.Again? ==> Rank(r.p.state) < Rank(p.state)
  {
    if StartState(p.state) then StartCase(p, ch)
    else if UrlState(p.state) then UrlCase(p, ch)
    else if ProtocolState(p.state) then ProtocolCase(p, ch)
    else if VersionState(p.state) then VersionCase(p, ch)
    else if FieldState(p.state) then FieldCase(p, ch)
    else if DiscardState(p.state) then DiscardCase(p, ch)
    else if ValueEdgeState(p.state) then ValueEdgeCase(p, ch)
    else if p.state.SHeaderValue? then ValueCase(p, checked, ch)
    else if EndState(p.state) then EndCase(cb, p, ch)
    else BodyCase(p, ch)
  }
}
