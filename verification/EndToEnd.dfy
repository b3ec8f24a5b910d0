/**
 * End to end: a request written by the encoder, cut in any way on its way, and read by the codec reaches the
 * stream decoder as it was: method, path, every header in order, and the body.
 */
module EndToEnd {
  import opened Chars
  import opened Methods
  import opened HeaderNames
  import opened LookupTable
  import opened HeaderList
  import opened HttpParser
  import opened ByteStream
  import opened HeaderCount
  import Execute
  import opened Fragmentation
  import opened Recognize
  import opened Lengths
  import opened Segments
  import opened TokenLists
  import opened HeaderLines
  import opened Bodies
  import opened Request
  import opened HeaderRoom
  import opened RequestDecoder
  import opened DecoderTrace
  import opened Codec
  import opened Encoder

  // ---------------------------------------------------------------- what goes out

  /** The headers of `l` under their names on the wire. */
  function Translated(l: seq<Header>): seq<Header> {
    if l == [] then []
    else
      var h := l[|l| - 1];
      Translated(l[..|l| - 1]) + if WireKey(h.name).None? then [] else [Header(WireKey(h.name).value, h.value)]
  }

  /** The headers of `l` that go out at all. */
  function Kept(l: seq<Header>): seq<Header> {
    if l == [] then []
    else var h := l[|l| - 1]; Kept(l[..|l| - 1]) + if WireKey(h.name).None? then [] else [h]
  }

  function FramingOf(l: seq<Header>, m: Mode): seq<Header> {
    if Framing(l, m).None? then [] else [Framing(l, m).value]
  }

  function WireList(l: seq<Header>, m: Mode): seq<Header> { Translated(l) + FramingOf(l, m) }

  /** The headers that come back: those that went out, and the one the encoder added. */
  function Received(l: seq<Header>, m: Mode): seq<Header> { Kept(l) + FramingOf(l, m) }

  lemma {:induction false} LinesAreBlock(l: seq<Header>)
    ensures LinesOf(l) == Block(Translated(l))
    decreases |l|
  {
    hide Line, WireKey;
    if l != [] {
      var n := |l| - 1;
      LinesAreBlock(l[..n]);
      var t := Translated(l[..n]);
      if WireKey(l[n].name).Some? {
        BlockSnoc(t, Header(WireKey(l[n].name).value, l[n].value));
      } else {
        assert t + [] == t && LinesOf(l[..n]) + "" == LinesOf(l[..n]);
      }
    }
  }

  lemma {:induction false} BlockSnoc(t: seq<Header>, h: Header)
    ensures Block(t + [h]) == Block(t) + Line(h.name, h.value)
  {
    assert (t + [h])[..|t|] == t;
  }

  lemma {:induction false} TextIsHead(verb: Method, path: string, l: seq<Header>, m: Mode)
    ensures RequestText(MethodString(verb), path, l, m) == Head(verb, path, WireList(l, m))
  {
    hide LinesOf, Block, Translated, Line, MethodString, Framing;
    LinesAreBlock(l);
    assert REQUEST_POSTFIX == PROTOCOL;
    var t := Translated(l);
    if Framing(l, m).Some? {
      BlockSnoc(t, Framing(l, m).value);
    } else {
      assert t + [] == t && Block(t) + "" == Block(t);
    }
    var v := MethodString(verb);
    var b := Block(WireList(l, m));
    assert HeadersText(l, m) == b + CRLF;
    assert v + " " + path + PROTOCOL + (b + CRLF) == v + " " + path + PROTOCOL + b + CRLF;
  }

  // ---------------------------------------------------------------- what can be sent

  /** A header that can go out and come back: a lower-case token name or `:authority`, and a one-line value. */
  ghost predicate HeaderOk(h: Header) {
    WireKey(h.name).Some? ==>
      && IsValue(h.value)
      && (h.name == KeyOf(HOST_SLOT) ||
         (h.name != "" && h.name[0] != ':' && AllTokens(h.name) && ToLower(h.name) == h.name))
      && (h.name == KeyOf(CONTENT_LENGTH_SLOT) ==>
            h.value != "" && AllDigits(h.value) && ReadDecimal(h.value).Some?)
  }

  /** The length the headers announce. */
  function Announced(l: seq<Header>): Option<nat> {
    var h := Get(l, KeyOf(CONTENT_LENGTH_SLOT));
    if h.Some? && AllDigits(h.value.value) then Some(DecimalValue(h.value.value)) else None
  }

  /** A request that can be sent and read back; `parts` are the pieces of its body. */
  ghost predicate Sendable(m: Method, path: string, l: seq<Header>, parts: seq<string>) {
    && ListOk(l) && (forall i :: 0 <= i < |l| ==> HeaderOk(l[i])) && !HasKey(l, KeyOf(TRANSFER_ENCODING_SLOT))
    && !m.CONNECT? && IsPath(path) && ChunksOk(parts)
    && (HasLength(l) ==> Announced(l) == Some(|Join(parts)|))
  }

  lemma {:induction false} FramingKeys()
    ensures KeyOf(CONTENT_LENGTH_SLOT) == CONTENT_LENGTH && KeyOf(TRANSFER_ENCODING_SLOT) == TRANSFER_ENCODING
    ensures KeyOf(HOST_SLOT) == ":authority"
    ensures LowerToken(CONTENT_LENGTH) && LowerToken(TRANSFER_ENCODING) && LowerToken(HOST_LEGACY)
  {
    hide Keys0, LowerToken;
    LengthToken();
    EncodingToken();
  }

  lemma {:induction false} LengthToken()
    ensures LowerToken(CONTENT_LENGTH) && LowerToken(HOST_LEGACY)
  {
  }

  lemma {:induction false} EncodingToken()
    ensures LowerToken(TRANSFER_ENCODING)
  {
  }

  predicate LowerToken(s: string) { AllTokens(s) && ToLower(s) == s }

  /** A lower-case token name is its own token string. */
  lemma {:induction false} LowerTokens(s: string)
    requires AllTokens(s) && ToLower(s) == s
    ensures Tokens(s) == s
  {
    forall i | 0 <= i < |s|
      ensures Token(s[i]) == s[i]
    {
      assert LowerCase(s[i]) == s[i];
      OneToken(s[i]);
    }
  }

  lemma {:induction false} OneToken(c: char)
    requires IsToken(c) && LowerCase(c) == c
    ensures Token(c) == c
  {
  }

  /** The name on the wire of a header that can be sent. */
  lemma {:induction false} WireName(h: Header)
    requires HeaderOk(h) && WireKey(h.name).Some?
    ensures var k := WireKey(h.name).value;
            && k == (if h.name == KeyOf(HOST_SLOT) then HOST_LEGACY else h.name)
            && k != "" && AllTokens(k) && ToLower(k) == k && Tokens(k) == k
    ensures HOST_LEGACY != CONTENT_LENGTH && HOST_LEGACY != TRANSFER_ENCODING
  {
    hide AllTokens, Tokens;
    FramingKeys();
    LowerTokens(WireKey(h.name).value);
  }

  /** Which framing header a line is. */
  lemma {:induction false} LineKinds(h: Header)
    requires HeaderOk(h) && WireKey(h.name).Some?
    ensures var k := WireKey(h.name).value;
            && k != "" && AllTokens(k) && (IsLength(k) <==> h.name == KeyOf(CONTENT_LENGTH_SLOT))
            && (IsTransferEncoding(k) <==> h.name == KeyOf(TRANSFER_ENCODING_SLOT))
  {
    hide KeyOf, AllTokens, Tokens, IsValue, WireKey, LowerToken, ToLower, AllDigits;
    FramingKeys();
    WireName(h);
  }

  /** One more header line. */
  lemma {:induction false} LineAdded(t: seq<Header>, h: Header, length: Option<nat>)
    requires BlockOk(t) && FrameOf(t) == Frame(false, length)
    requires HeaderOk(h) && WireKey(h.name).Some? && h.name != KeyOf(TRANSFER_ENCODING_SLOT)
    requires h.name == KeyOf(CONTENT_LENGTH_SLOT) ==> length.None?
    ensures var r := t + [Header(WireKey(h.name).value, h.value)];
            && BlockOk(r)
            && (h.name != KeyOf(CONTENT_LENGTH_SLOT) ==> FrameOf(r) == Frame(false, length))
            && (h.name == KeyOf(CONTENT_LENGTH_SLOT) ==>
                 AllDigits(h.value) && FrameOf(r) == Frame(false, Some(DecimalValue(h.value))))
  {
    hide KeyOf, AllTokens, IsValue, WireKey, IsChunkedValue, AllDigits, DecimalValue, ReadDecimal, IsLength,
         IsTransferEncoding, ToLower;
    LineKinds(h);
    assert (t + [Header(WireKey(h.name).value, h.value)])[..|t|] == t;
  }

  /** The header lines of the first `i` headers can be sent, and announce the length if it is among them. */
  lemma {:induction false} TranslatedOk(m: Method, path: string, l: seq<Header>, parts: seq<string>, i: nat)
    requires Sendable(m, path, l, parts) && i <= |l|
    ensures BlockOk(Translated(l[..i]))
    ensures FrameOf(Translated(l[..i])) ==
            Frame(false, if HasKey(l[..i], KeyOf(CONTENT_LENGTH_SLOT)) then Announced(l) else None)
  {
    hide KeyOf, WireKey, HeaderOk, ListOk, BlockOk, FrameOf, ChunksOk, SlotOf, IsPath, HasKey, AllDigits, DecimalValue,
         Join;
    if i == 0 {
      NothingTranslated();
    } else {
      var n := i - 1;
      var h := l[n];
      TranslatedOk(m, path, l, parts, n);
      assert l[..i][..n] == l[..n] && l[..i] == l[..n] + [h];
      HasKeySnoc(l[..n], h);
      LengthKey();
      IsKey(l, n);
      if WireKey(h.name).Some? {
        if h.name == KeyOf(CONTENT_LENGTH_SLOT) {
          NotBefore(l, n);
          GetOnce(l, n);
        }
        LineAdded(Translated(l[..n]), h, if HasKey(l[..n], KeyOf(CONTENT_LENGTH_SLOT)) then Announced(l) else None);
      } else {
        assert Translated(l[..n]) + [] == Translated(l[..n]);
      }
    }
  }

  lemma {:induction false} NothingTranslated()
    ensures forall l: seq<Header> :: Translated(l[..0]) == [] && !HasKey(l[..0], KeyOf(CONTENT_LENGTH_SLOT))
    ensures BlockOk([]) && FrameOf([]) == Frame(false, None)
  {
  }

  lemma {:induction false} IsKey(l: seq<Header>, n: nat)
    requires n < |l|
    ensures HasKey(l, l[n].name)
  {
  }

  lemma {:induction false} LengthKey()
    ensures WireKey(KeyOf(CONTENT_LENGTH_SLOT)).Some? && SlotOf(KeyOf(CONTENT_LENGTH_SLOT)).Some?
    ensures SlotOf(KeyOf(TRANSFER_ENCODING_SLOT)).Some?
    ensures KeyOf(CONTENT_LENGTH_SLOT) != KeyOf(HOST_SLOT)
  {
    hide SlotOf;
    SlotExact(KeyOf(CONTENT_LENGTH_SLOT), CONTENT_LENGTH_SLOT);
    SlotExact(KeyOf(TRANSFER_ENCODING_SLOT), TRANSFER_ENCODING_SLOT);
  }

  lemma {:induction false} NotBefore(l: seq<Header>, n: nat)
    requires ListOk(l) && n < |l| && SlotOf(l[n].name).Some?
    ensures !HasKey(l[..n], l[n].name)
  {
    hide SlotOf, Canonical;
    forall j | 0 <= j < n
      ensures l[..n][j].name != l[n].name
    {
      assert l[..n][j] == l[j];
    }
  }

  /** The framing the parser sees: chunks, the announced length, or no body. */
  lemma {:induction false} WireFrame(m: Method, path: string, l: seq<Header>, parts: seq<string>)
    requires Sendable(m, path, l, parts)
    ensures var mode := Mode(parts == [], false, false);
            && HeadOk(m, path, WireList(l, mode))
            && FrameOf(WireList(l, mode)) ==
               (if ChunkedAfter(l, mode) then Frame(true, None)
                else Frame(false, Some(|Join(parts)|)))
  {
    hide SlotOf, Canonical, KeyOf, Tokens, IsChunkedValue, Join, IsPath, Translated, Announced, AllTokens, IsValue;
    var mode := Mode(parts == [], false, false);
    TranslatedOk(m, path, l, parts, |l|);
    assert l[..|l|] == l;
    var t := Translated(l);
    FramingNames();
    FramingValues();
    if Framing(l, mode).Some? {
      assert (t + FramingOf(l, mode))[..|t|] == t;
      if parts == [] { assert Join(parts) == "" by { NoParts(); } }
    } else {
      assert t + [] == t;
    }
  }

  lemma {:induction false} FramingNames()
    ensures forall x: Inline :: x in {CONTENT_LENGTH_SLOT, TRANSFER_ENCODING_SLOT} ==>
              KeyOf(x) != "" && AllTokens(KeyOf(x)) && Tokens(KeyOf(x)) == KeyOf(x)
    ensures KeyOf(CONTENT_LENGTH_SLOT) == CONTENT_LENGTH && KeyOf(TRANSFER_ENCODING_SLOT) == TRANSFER_ENCODING
  {
    hide KeyOf, Tokens, AllTokens;
    FramingKeys();
    LowerTokens(CONTENT_LENGTH);
    LowerTokens(TRANSFER_ENCODING);
  }

  lemma {:induction false} NoParts()
    ensures Join([]) == ""
  {
  }

  lemma {:induction false} FramingValues()
    ensures IsChunkedValue("chunked") && IsValue("chunked") && IsValue("0") && AllDigits("0")
    ensures DecimalValue("0") == 0 && ReadDecimal("0").Some?
  {
    assert "0"[..0] == "";
    assert forall i :: 0 <= i < 7 ==> CHUNKED[i] == "chunked"[i];
    assert forall i :: 0 <= i < 7 ==> Lower(CHUNKED[i]) == CHUNKED[i];
  }

  // ---------------------------------------------------------------- what comes back

  function Lowered(hs: seq<Header>): seq<Header> {
    if hs == [] then []
    else Lowered(hs[..|hs| - 1]) + [Header(ToLower(hs[|hs| - 1].name), hs[|hs| - 1].value)]
  }

  /** The codec after one more header line, which closes the line before. */
  lemma {:induction false} HeardLine(d: Conn, h: Header)
    requires d.ok && d.headers.Some? && (NoLine(d) || HasValue(d)) && h.name != ""
    ensures HeardAll(d, [Data(Field, h.name), Data(Value, h.value)]) ==
            d.(headers := if d.parsing.InValue? then Some(Added(d.headers.value, ToLower(d.field), d.value)) else d.headers,
               parsing := InValue, field := h.name, value := h.value)
  {
    hide Added, ToLower;
    HeardSnoc(d, [Data(Field, h.name)], Data(Value, h.value));
    HeardSnoc(d, [], Data(Field, h.name));
    NothingHeard();
    assert [] + [Data(Field, h.name)] == [Data(Field, h.name)];
    assert [Data(Field, h.name)] + [Data(Value, h.value)] == [Data(Field, h.name), Data(Value, h.value)];
    assert "" + h.name == h.name && "" + h.value == h.value;
  }

  /** The codec after a header block, whose last line is still open. */
  lemma {:induction false} HeardBlock(c: Conn, hs: seq<Header>)
    requires c.ok && c.headers == Some([]) && NoLine(c) && hs != []
    requires forall i :: 0 <= i < |hs| ==> hs[i].name != ""
    ensures var n := |hs| - 1;
            HeardAll(c, BlockEvents(hs)) ==
            c.(headers := Some(AddedAll([], Lowered(hs[..n]))), parsing := InValue, field := hs[n].name,
                  value := hs[n].value)
    decreases |hs|
  {
    hide Added, ToLower, HeardAll;
    var n := |hs| - 1;
    HeardConcat(c, BlockEvents(hs[..n]), [Data(Field, hs[n].name), Data(Value, hs[n].value)]);
    if n == 0 {
      NothingHeard();
      assert hs[..0] == [];
    } else {
      HeardBlock(c, hs[..n]);
      assert hs[..n][..n - 1] == hs[..n - 1];
      LowerSnoc(hs, n);
    }
    HeardLine(HeardAll(c, BlockEvents(hs[..n])), hs[n]);
  }

  lemma {:induction false} LowerSnoc(hs: seq<Header>, n: nat)
    requires 0 < n <= |hs|
    ensures AddedAll([], Lowered(hs[..n])) ==
            Added(AddedAll([], Lowered(hs[..n - 1])), ToLower(hs[n - 1].name), hs[n - 1].value)
  {
    hide Added;
    assert hs[..n][..n - 1] == hs[..n - 1];
    var t := Lowered(hs[..n - 1]);
    var r := Lowered(hs[..n]);
    assert r[..|r| - 1] == t;
  }

  /** The codec after a whole request head. */
  lemma {:induction false} HeardHead(c0: Conn, m: Method, path: string, hs: seq<Header>)
    requires Between(c0) && hs != [] && forall i :: 0 <= i < |hs| ==> hs[i].name != ""
    requires FromWire(AddedAll([], Lowered(hs)))
    ensures var c := HeardAll(c0, HeadEvents(m, path, hs)); var f := FrameOf(hs);
            var all := AddedAll([], Lowered(hs)) +
                [Header(KeyOf(PATH_SLOT), path), Header(KeyOf(METHOD_SLOT), MethodString(m))];
            && c.ok && c.request.Some? && !c.request.value.complete
            && (if FrameHasBody(f) then c.deferred.None? && c.request.value.calls == [DecodeHeaders(all, false)]
                else c.deferred == Some(all) && c.request.value.calls == [])
  {
    hide Added, ToLower, KeyOf, MethodString, FrameOf, WithRequest, FromWire, BlockEvents, Lowered, AddedAll;
    var start := [MessageBegin, Data(Url, path)];
    var e := HeadersComplete(m, 1, 1, FrameOf(hs).chunked, BodyLength(FrameOf(hs)));
    HeardStart(c0, path);
    var c := HeardAll(c0, start);
    HeardBlock(c, hs);
    HeardConcat(c0, start, BlockEvents(hs));
    HeardSnoc(c0, start + BlockEvents(hs), e);
    var d := HeardAll(c, BlockEvents(hs));
    var n := |hs|;
    assert hs[..n] == hs;
    LowerSnoc(hs, n);
    WithRequestAppends(AddedAll([], Lowered(hs)), path, m);
    assert CompleteLast(d).headers == Some(AddedAll([], Lowered(hs)));
  }

  /** The request line is heard. */
  lemma {:induction false} HeardStart(c0: Conn, path: string)
    requires Between(c0)
    ensures HeardAll(c0, [MessageBegin, Data(Url, path)]) ==
            c0.(parsing := InField, headers := Some([]), request := Some(Active(path, false, [])))
  {
    hide HeardField, HeardValue, HeardBody, HeardComplete, HeardEnd;
    HeardSnoc(c0, [MessageBegin], Data(Url, path));
    HeardSnoc(c0, [], MessageBegin);
    assert [] + [MessageBegin] == [MessageBegin] && [MessageBegin] + [Data(Url, path)] == [MessageBegin, Data(Url, path)];
    NothingHeard();
    assert "" + path == path;
  }

  /** A list of headers taken from `l`, none of them a pseudo header but `:authority`. */
  ghost predicate TakenFrom(k: seq<Header>, l: seq<Header>) {
    (forall key :: HasKey(k, key) ==> HasKey(l, key)) && forall i :: 0 <= i < |k| ==> DecoderTrace.WireName(k[i].name)
  }

  lemma {:induction false} TakenGrows(k: seq<Header>, l: seq<Header>, h: Header)
    requires TakenFrom(k, l)
    ensures TakenFrom(k, l + [h]) && (DecoderTrace.WireName(h.name) ==> TakenFrom(k + [h], l + [h]))
  {
    hide HasKey, DecoderTrace.WireName;
    HasKeySnoc(l, h);
    HasKeySnoc(k, h);
  }

  /** The header list read back, line by line. */
  lemma {:induction false} ReadBack(l: seq<Header>, i: nat)
    requires ListOk(l) && i <= |l| && forall k :: 0 <= k < |l| ==> HeaderOk(l[k])
    ensures AddedAll([], Lowered(Translated(l[..i]))) == Kept(l[..i]) && TakenFrom(Kept(l[..i]), l[..i])
  {
    hide KeyOf, HeaderOk, ListOk, WireKey, TakenFrom, SlotOf, Canonical, ToLower, Added;
    if i == 0 {
      NothingKept(l);
    } else {
      var n := i - 1;
      var h := l[n];
      ReadBack(l, n);
      assert l[..i][..n] == l[..n] && l[..i] == l[..n] + [h];
      var t, k := Translated(l[..n]), Kept(l[..n]);
      TakenGrows(k, l[..n], h);
      if WireKey(h.name).Some? {
        AddedBack(l, n, k);
        LowerLast(t, Header(WireKey(h.name).value, h.value));
      } else {
        assert t + [] == t && k + [] == k;
      }
    }
  }

  lemma {:induction false} LowerLast(t: seq<Header>, w: Header)
    ensures AddedAll([], Lowered(t + [w])) == Added(AddedAll([], Lowered(t)), ToLower(w.name), w.value)
  {
    hide Added;
    assert (t + [w])[..|t|] == t && (t + [w])[..|t| + 1] == t + [w];
    LowerSnoc(t + [w], |t| + 1);
  }

  lemma {:induction false} NothingKept(l: seq<Header>)
    ensures Translated(l[..0]) == [] && Kept(l[..0]) == [] && AddedAll([], Lowered([])) == []
    ensures TakenFrom([], l[..0])
  {
  }

  /** A header that went out is added under its own name: `host` turns into `:authority` again. */
  lemma {:induction false} AddedBack(l: seq<Header>, n: nat, k: seq<Header>)
    requires ListOk(l) && n < |l| && HeaderOk(l[n]) && WireKey(l[n].name).Some? && TakenFrom(k, l[..n])
    ensures Added(k, ToLower(WireKey(l[n].name).value), l[n].value) == k + [l[n]]
    ensures DecoderTrace.WireName(l[n].name)
  {
    hide KeyOf, SlotOf, ToLower, AllTokens, Tokens, IsValue, AllDigits, ReadDecimal;
    var h := l[n];
    WireName(h);
    SlotExact(HOST_LEGACY, HOST_SLOT);
    var key := WireKey(h.name).value;
    assert Canonical(key) == h.name;
    CanonicalTwice(key);
    if SlotOf(key).Some? { NotBefore(l, n); }
    if h.name != KeyOf(HOST_SLOT) { TokensHaveNoColon(h.name); }
  }

  lemma {:induction false} TokensHaveNoColon(s: string)
    requires AllTokens(s)
    ensures ':' !in s
  {
  }

  /** The headers of a request come back as they went out, with the framing header at the end. */
  lemma {:induction false} HeadersBack(m: Method, path: string, l: seq<Header>, parts: seq<string>)
    requires Sendable(m, path, l, parts)
    ensures var mode := Mode(parts == [], false, false);
            && AddedAll([], Lowered(WireList(l, mode))) == Received(l, mode) && FromWire(Received(l, mode))
            && WireList(l, mode) != [] && forall i :: 0 <= i < |WireList(l, mode)| ==> WireList(l, mode)[i].name != ""
  {
    hide KeyOf, HeaderOk, WireKey, HasKey, SlotOf, ToLower, IsPath, ChunksOk, Join, Translated, Kept;
    var mode := Mode(parts == [], false, false);
    ReadBack(l, |l|);
    assert l[..|l|] == l;
    NamesThere(l, |l|);
    FramingKeys();
    AddFraming(l, mode);
  }

  lemma {:induction false} NamesThere(l: seq<Header>, i: nat)
    requires i <= |l| && forall k :: 0 <= k < |l| ==> HeaderOk(l[k])
    ensures forall k :: 0 <= k < |Translated(l[..i])| ==> Translated(l[..i])[k].name != ""
    ensures HasLength(l[..i]) ==> Translated(l[..i]) != []
  {
    hide KeyOf, HeaderOk, WireKey, HasKey;
    if i == 0 {
      NothingTranslated();
    } else {
      NamesThere(l, i - 1);
      assert l[..i][..i - 1] == l[..i - 1] && l[..i] == l[..i - 1] + [l[i - 1]];
      HasKeySnoc(l[..i - 1], l[i - 1]);
      LengthKey();
      if WireKey(l[i - 1].name).Some? { WireName(l[i - 1]); }
    }
  }

  lemma {:induction false} AddFraming(l: seq<Header>, mode: Mode)
    requires ListOk(l) && !mode.http10 && !mode.interim && !HasKey(l, KeyOf(TRANSFER_ENCODING_SLOT))
    requires AddedAll([], Lowered(Translated(l))) == Kept(l) && TakenFrom(Kept(l), l)
    ensures AddedAll([], Lowered(WireList(l, mode))) == Received(l, mode) && FromWire(Received(l, mode))
  {
    hide KeyOf, HasKey, SlotOf, ToLower, Translated, Kept, ListOk, Lowered, AddedAll, Added, DecoderTrace.WireName;
    var t := Translated(l);
    NothingOk();
    AddedAllOk([], Lowered(t), |Lowered(t)|);
    assert Lowered(t)[..|Lowered(t)|] == Lowered(t);
    if Framing(l, mode).None? {
      assert t + [] == t && Kept(l) + [] == Kept(l);
    } else {
      var f := Framing(l, mode).value;
      LowerLast(t, f);
      FramingAdds(Kept(l), f);
    }
  }

  lemma {:induction false} NothingOk()
    ensures ListOk([])
  {
  }

  lemma {:induction false} FramingAdds(k: seq<Header>, f: Header)
    requires f.name == KeyOf(CONTENT_LENGTH_SLOT) || f.name == KeyOf(TRANSFER_ENCODING_SLOT)
    requires !HasKey(k, f.name) && ListOk(k)
    ensures Added(k, ToLower(f.name), f.value) == k + [f] && ListOk(k + [f]) && DecoderTrace.WireName(f.name)
  {
    hide SlotOf, HasKey, ListOk, ToLower;
    FramingKeys();
    SlotExact(f.name, if f.name == KeyOf(CONTENT_LENGTH_SLOT) then CONTENT_LENGTH_SLOT else TRANSFER_ENCODING_SLOT);
    TokensHaveNoColon(f.name);
    AddedOk(k, f.name, f.value);
  }

  lemma {:induction false} AddedAllOk(l: seq<Header>, hs: seq<Header>, n: nat)
    requires ListOk(l) && n <= |hs|
    ensures ListOk(AddedAll(l, hs[..n]))
  {
    hide ListOk, Added;
    if n > 0 {
      AddedAllOk(l, hs, n - 1);
      assert hs[..n][..n - 1] == hs[..n - 1];
      AddedOk(AddedAll(l, hs[..n - 1]), hs[n - 1].name, hs[n - 1].value);
    }
  }

  // ---------------------------------------------------------------- the whole way

  /** The calls the stream decoder should get: headers, body and end, with the body in one piece. */
  function Expected(m: Method, path: string, l: seq<Header>, parts: seq<string>): seq<Call> {
    var mode := Mode(parts == [], false, false);
    var hs := Received(l, mode) + [Header(KeyOf(PATH_SLOT), path), Header(KeyOf(METHOD_SLOT), MethodString(m))];
    var body := Join(parts);
    if ChunkedAfter(l, mode) || body != "" then
      [DecodeHeaders(hs, false)] + (if body == "" then [] else [DecodeData(body, false)]) + [DecodeData("", true)]
    else [DecodeHeaders(hs, true)]
  }

  lemma {:induction false} BodyTexts(parts: seq<string>)
    ensures BodyText(parts, true) == Chunks(parts) && BodyText(parts, false) == Join(parts)
    decreases |parts|
  {
    hide Chunk;
    if parts != [] { BodyTexts(parts[..|parts| - 1]); }
  }

  /** What follows the head of a request in the callback log. */
  function BodyEvents(l: seq<Header>, parts: seq<string>): seq<Event> {
    if ChunkedAfter(l, Mode(parts == [], false, false))
    then ChunkEvents(parts) + [ChunkHeader(0), ChunkComplete, MessageComplete]
    else if Join(parts) != "" then [Data(Body, Join(parts)), MessageComplete]
    else [MessageComplete]
  }

  /** The length of a body that can be sent is a length the parser can read. */
  lemma {:induction false} LengthFits(m: Method, path: string, l: seq<Header>, parts: seq<string>)
    requires Sendable(m, path, l, parts) && HasLength(l)
    ensures |Join(parts)| < ULLONG_MAX
  {
    hide KeyOf, SlotOf, AllTokens, IsValue, Join, DecimalValue, ReadDecimal, ListOk, IsPath, ToLower, WireKey,
         AllDigits;
    LengthKey();
    var h := HeaderList.Get(l, KeyOf(CONTENT_LENGTH_SLOT)).value;
    assert HeaderOk(h);
    ReadDecimalExact(h.value);
  }

  /** No header has the parser hear the token "close". */
  predicate KeepsOpen(l: seq<Header>) { !TokenSent(l, CLOSE) }

  /** The header lines say what the headers say about the connection. */
  lemma {:induction false} WireTokens(m: Method, path: string, l: seq<Header>, parts: seq<string>, w: string)
    requires Sendable(m, path, l, parts)
    ensures TokenSent(WireList(l, Mode(parts == [], false, false)), w) <==> TokenSent(l, w)
  {
    hide KeyOf, HeaderOk, WireKey, IsPath, ListOk, Translated, IsConnection, Announced, ChunksOk, Join, TokenSent, Sent;
    LineTokens(l, |l|, w);
    assert l[..|l|] == l;
    FramingKeys();
    LowerTokens(CONTENT_LENGTH);
    LowerTokens(TRANSFER_ENCODING);
    NotConnection(CONTENT_LENGTH);
    NotConnection(TRANSFER_ENCODING);
    var mode, t := Mode(parts == [], false, false), Translated(l);
    if Framing(l, mode).Some? {
      SentLast(t, Framing(l, mode).value, w);
    } else {
      assert t + [] == t;
    }
  }

  lemma {:induction false} SentLast(t: seq<Header>, h: Header, w: string)
    ensures TokenSent(t + [h], w) <==> TokenSent(t, w) || (IsConnection(h.name) && Sent(h.value, w))
  {
    hide TokenSent, Sent, IsConnection;
    SentSnoc(t + [h], w);
    assert (t + [h])[..|t|] == t;
  }

  lemma {:induction false} NotConnection(name: string)
    requires Tokens(name) == name && (name == CONTENT_LENGTH || name == TRANSFER_ENCODING || name == HOST_LEGACY)
    ensures !IsConnection(name)
  {
    hide Tokens;
    assert CONNECTION[1] == 'o' && PROXY_CONNECTION[0] == 'p';
    assert |CONTENT_LENGTH| != |CONNECTION| && |TRANSFER_ENCODING| != |CONNECTION|;
  }

  lemma {:induction false} LineTokens(l: seq<Header>, i: nat, w: string)
    requires i <= |l| && forall k :: 0 <= k < |l| ==> HeaderOk(l[k])
    ensures TokenSent(Translated(l[..i]), w) <==> TokenSent(l[..i], w)
  {
    hide KeyOf, HeaderOk, WireKey, IsConnection, TokenSent, Sent;
    if i == 0 {
      NoTokens(l, w);
    } else {
      LineTokens(l, i - 1, w);
      var h, t := l[i - 1], Translated(l[..i - 1]);
      assert l[..i][..i - 1] == l[..i - 1] && l[..i] == l[..i - 1] + [h];
      SentLast(l[..i - 1], h, w);
      if WireKey(h.name).Some? {
        SentLast(t, Header(WireKey(h.name).value, h.value), w);
        SameKind(h);
      } else {
        assert t + [] == t;
        PseudoIsNone(h.name);
      }
    }
  }

  lemma {:induction false} NoTokens(l: seq<Header>, w: string)
    ensures !TokenSent(l[..0], w) && !TokenSent(Translated(l[..0]), w)
  {
  }

  /** A header is a `Connection` exactly if its line is one. */
  lemma {:induction false} SameKind(h: Header)
    requires HeaderOk(h) && WireKey(h.name).Some?
    ensures IsConnection(WireKey(h.name).value) <==> IsConnection(h.name)
  {
    hide Tokens, WireKey, AllTokens, IsValue, ToLower;
    WireName(h);
    FramingKeys();
    HostIsOwn();
    NotConnection(HOST_LEGACY);
    PseudoIsNone(KeyOf(HOST_SLOT));
  }

  /** No pseudo header is a `Connection`. */
  lemma {:induction false} PseudoIsNone(name: string)
    ensures At(name, 0) == ':' ==> !IsConnection(name)
    ensures WireKey(name).None? ==> At(name, 0) == ':'
  {
    if At(name, 0) == ':' { assert Tokens(name)[0] == NUL; }
  }

  lemma {:induction false} HostIsOwn()
    ensures Tokens(HOST_LEGACY) == HOST_LEGACY
  {
    FramingKeys();
    LowerTokens(HOST_LEGACY);
  }

  /** The parser's run over a whole request: it is complete with the last byte, and not before. */
  lemma {:induction false} MessageRun(p: Parser, m: Method, path: string, l: seq<Header>, parts: seq<string>)
    requires Inv(p) && p.errno.OK? && p.state.SStartReq? && Sendable(m, path, l, parts)
    ensures var w := MessageText(MethodString(m), path, l, parts, false);
            var r := Fold(CODEC, true, Ready(p, []), w); var mode := Mode(parts == [], false, false);
            && r.p.errno.Paused? && r.halted && r.consumed == |w|
            && r.log == HeadEvents(m, path, WireList(l, mode)) + BodyEvents(l, parts)
            && r.p.state == if KeepsOpen(l) then SStartReq else SDead
  {
    hide Fold, Sendable, HeadEvents, RequestText, BodyText, KeepsOpen, WireList, BodyEvents, Head, MessageText,
         ChunkedAfter;
    if ChunkedAfter(l, Mode(parts == [], false, false)) { ChunkedMessage(p, m, path, l, parts); }
    else { PlainMessage(p, m, path, l, parts); }
  }

  /** The text is the head and what stands behind it. */
  lemma {:induction false} MessageParts(m: Method, path: string, l: seq<Header>, parts: seq<string>)
    ensures var mode := Mode(parts == [], false, false); var head := Head(m, path, WireList(l, mode));
            MessageText(MethodString(m), path, l, parts, false) ==
            head + if ChunkedAfter(l, mode) then Chunks(parts) + LAST_CHUNK else Join(parts)
  {
    hide MethodString, WireList, Chunks, Join, RequestText, BodyText, HasLength, Head;
    var mode := Mode(parts == [], false, false);
    TextIsHead(m, path, l, mode);
    BodyTexts(parts);
    var head, body := Head(m, path, WireList(l, mode)), BodyText(parts, ChunkedAfter(l, mode));
    assert head + body + LAST_CHUNK == head + (body + LAST_CHUNK);
    assert head + body + "" == head + body;
  }

  /** The run over the head. */
  lemma {:induction false} HeadRun(p: Parser, m: Method, path: string, l: seq<Header>, parts: seq<string>)
    requires Inv(p) && p.errno.OK? && p.state.SStartReq? && Sendable(m, path, l, parts)
    ensures var mode := Mode(parts == [], false, false); var hs := WireList(l, mode); var f := FrameOf(hs);
            var head := Head(m, path, hs); var r := Fold(CODEC, true, Ready(p, []), head);
            && r.consumed == |head|
            && f == (if ChunkedAfter(l, mode) then Frame(true, None) else Frame(false, Some(|Join(parts)|)))
            && (FrameHasBody(f) ==>
                  && Live(r) && r.log == HeadEvents(m, path, hs) && r.p.contentLength == BodyLength(f)
                  && NewMessage(r.p) == (if KeepsOpen(l) then SStartReq else SDead)
                  && if f.chunked then r.p.state.SChunkSizeStart? else r.p.state.SBodyIdentity?)
            && (!FrameHasBody(f) ==>
                  && r.p.errno.Paused? && r.halted && r.log == HeadEvents(m, path, hs) + [MessageComplete]
                  && r.p.state == if KeepsOpen(l) then SStartReq else SDead)
  {
    hide Fold, Sendable, MethodString, WireList, Join, HeadEvents, TokenSent, HasLength, Head, HeadOk, FrameOf,
         FrameHasBody, ChunkedAfter, BodyLength;
    var hs := WireList(l, Mode(parts == [], false, false));
    WireFrame(m, path, l, parts);
    HeadRoundTrip(Ready(p, []), m, path, hs);
    WireTokens(m, path, l, parts, CLOSE);
    assert [] + HeadEvents(m, path, hs) == HeadEvents(m, path, hs);
  }

  lemma {:induction false} ChunkedMessage(p: Parser, m: Method, path: string, l: seq<Header>, parts: seq<string>)
    requires Inv(p) && p.errno.OK? && p.state.SStartReq? && Sendable(m, path, l, parts)
    requires ChunkedAfter(l, Mode(parts == [], false, false))
    ensures var w := MessageText(MethodString(m), path, l, parts, false);
            var r := Fold(CODEC, true, Ready(p, []), w); var mode := Mode(parts == [], false, false);
            && r.p.errno.Paused? && r.halted && r.consumed == |w|
            && r.log == HeadEvents(m, path, WireList(l, mode)) + BodyEvents(l, parts)
            && r.p.state == if KeepsOpen(l) then SStartReq else SDead
  {
    hide Fold, Sendable, MethodString, WireList, Chunks, ChunkEvents, Join, HeadEvents, KeepsOpen, ChunkedAfter, Head,
         MessageText, FrameOf, NewMessage;
    var q := Ready(p, []);
    MessageParts(m, path, l, parts);
    HeadRun(p, m, path, l, parts);
    var hs := WireList(l, Mode(parts == [], false, false));
    var head, events := Head(m, path, hs), HeadEvents(m, path, hs);
    ChunkedRoundTrip(Fold(CODEC, true, q, head), parts) by { SmallChunks(m, path, l, parts); }
    FoldConcat(CODEC, true, q, head, Chunks(parts) + LAST_CHUNK);
    var last := [ChunkHeader(0), ChunkComplete, MessageComplete];
    assert events + ChunkEvents(parts) + last == events + (ChunkEvents(parts) + last);
  }

  lemma {:induction false} PlainMessage(p: Parser, m: Method, path: string, l: seq<Header>, parts: seq<string>)
    requires Inv(p) && p.errno.OK? && p.state.SStartReq? && Sendable(m, path, l, parts)
    requires !ChunkedAfter(l, Mode(parts == [], false, false))
    ensures var w := MessageText(MethodString(m), path, l, parts, false);
            var r := Fold(CODEC, true, Ready(p, []), w); var mode := Mode(parts == [], false, false);
            && r.p.errno.Paused? && r.halted && r.consumed == |w|
            && r.log == HeadEvents(m, path, WireList(l, mode)) + BodyEvents(l, parts)
            && r.p.state == if KeepsOpen(l) then SStartReq else SDead
  {
    hide Fold, Sendable, MethodString, WireList, Join, HeadEvents, KeepsOpen, Head, MessageText, FrameOf, HasLength,
         ShouldKeepAlive;
    var q, body := Ready(p, []), Join(parts);
    MessageParts(m, path, l, parts);
    HeadRun(p, m, path, l, parts);
    var hs := WireList(l, Mode(parts == [], false, false));
    var head := Head(m, path, hs);
    var r := Fold(CODEC, true, q, head);
    if HasLength(l) { LengthFits(m, path, l, parts); } else { NoParts(); }
    FoldConcat(CODEC, true, q, head, body);
    if body != "" {
      HeadEventsEnd(m, path, hs);
      IdentitySegment(r, body);
    } else {
      assert head + body == head;
      FoldNothing(CODEC, r);
    }
  }

  lemma {:induction false} SmallChunks(m: Method, path: string, l: seq<Header>, parts: seq<string>)
    requires Sendable(m, path, l, parts)
    ensures ChunksOk(parts)
  {
  }

  lemma {:induction false} HeadEventsEnd(m: Method, path: string, hs: seq<Header>)
    ensures !LastIs(HeadEvents(m, path, hs), Body)
  {
  }

  /** The codec hears the pieces of a chunked body as one. */
  lemma {:induction false} HeardChunks(c: Conn, parts: seq<string>)
    requires c.ok && c.request.Some? && c.deferred.None? && |c.request.value.calls| == 1
    requires c.request.value.calls[0].DecodeHeaders?
    ensures var d := HeardAll(c, ChunkEvents(parts));
            && d.ok && d.deferred.None? && d.request.Some? && d.request.value.complete == c.request.value.complete
            && d.request.value.calls ==
               c.request.value.calls + if Join(parts) == "" then [] else [DecodeData(Join(parts), false)]
    decreases |parts|
  {
    hide Heard;
    if parts == [] {
      assert c.request.value.calls + [] == c.request.value.calls;
    } else {
      var n := |parts| - 1;
      var s := parts[n];
      HeardChunks(c, parts[..n]);
      if s == "" {
        assert Join(parts[..n]) + "" == Join(parts[..n]) && ChunkEvents(parts[..n]) + [] == ChunkEvents(parts[..n]);
      } else {
        HeardConcat(c, ChunkEvents(parts[..n]), [ChunkHeader(|s|), Data(Body, s), ChunkComplete]);
        HeardChunk(HeardAll(c, ChunkEvents(parts[..n])), Join(parts[..n]), s);
      }
    }
  }

  lemma {:induction false} HeardChunk(c: Conn, b: string, s: string)
    requires c.ok && c.request.Some? && c.deferred.None? && s != ""
    requires var calls := c.request.value.calls; |calls| >= 1 && calls[0].DecodeHeaders? &&
                                                 calls == [calls[0]] + if b == "" then [] else [DecodeData(b, false)]
    ensures var d := HeardAll(c, [ChunkHeader(|s|), Data(Body, s), ChunkComplete]);
            && d.ok && d.deferred.None? && d.request.Some? && d.request.value.complete == c.request.value.complete
            && d.request.value.calls == [c.request.value.calls[0], DecodeData(b + s, false)]
  {
    hide HeardAll, HeardField, HeardValue, HeardUrl, HeardComplete, HeardEnd;
    NothingHeard();
    HeardSnoc(c, [], ChunkHeader(|s|));
    HeardSnoc(c, [ChunkHeader(|s|)], Data(Body, s));
    HeardSnoc(c, [ChunkHeader(|s|), Data(Body, s)], ChunkComplete);
    assert [] + [ChunkHeader(|s|)] == [ChunkHeader(|s|)];
    assert [ChunkHeader(|s|)] + [Data(Body, s)] == [ChunkHeader(|s|), Data(Body, s)];
    assert [ChunkHeader(|s|), Data(Body, s)] + [ChunkComplete] == [ChunkHeader(|s|), Data(Body, s), ChunkComplete];
    if b == "" { assert b + s == s; }
  }

  /** What the decoder has been called with after the whole request. */
  lemma {:induction false} MessageHeard(c0: Conn, m: Method, path: string, l: seq<Header>, parts: seq<string>)
    requires Between(c0) && Sendable(m, path, l, parts)
    ensures var c := HeardAll(c0, HeadEvents(m, path, WireList(l, Mode(parts == [], false, false))) + BodyEvents(l, parts));
            && c.ok && c.request.Some? && c.request.value.complete && c.request.value.calls == Expected(m, path, l, parts)
            && (c.http10 <==> c0.http10)
  {
    hide Sendable, WireList, Received, ChunkEvents, Join, HeadEvents, HeardAll, KeyOf, MethodString, FromWire, Lowered,
         AddedAll, BlockEvents;
    var mode := Mode(parts == [], false, false);
    var hs := WireList(l, mode);
    HeadersBack(m, path, l, parts);
    WireFrame(m, path, l, parts);
    HeardHead(c0, m, path, hs);
    NoOldVersion(m, path, hs, l, parts);
    VersionHeard(c0, HeadEvents(m, path, hs) + BodyEvents(l, parts));
    HeardConcat(c0, HeadEvents(m, path, hs), BodyEvents(l, parts));
    var c := HeardAll(c0, HeadEvents(m, path, hs));
    if ChunkedAfter(l, mode) {
      HeardChunks(c, parts);
      HeardConcat(c, ChunkEvents(parts), [ChunkHeader(0), ChunkComplete, MessageComplete]);
      LastChunkHeard(HeardAll(c, ChunkEvents(parts)));
    } else {
      if HasLength(l) { LengthFits(m, path, l, parts); } else { NoParts(); }
      EndHeard(c, Join(parts));
    }
  }

  /** Of the events of an encoded request only the end of its head has a version, and that is 1.1. */
  lemma {:induction false} NoOldVersion(m: Method, path: string, hs: seq<Header>, l: seq<Header>, parts: seq<string>)
    ensures !OldVersion(HeadEvents(m, path, hs) + BodyEvents(l, parts))
  {
    hide BlockEvents, ChunkEvents, FrameOf, ChunkedAfter, Join;
    BlockHasNoVersion(hs);
    ChunksHaveNoVersion(parts);
  }

  lemma {:induction false} ChunksHaveNoVersion(parts: seq<string>)
    ensures forall i :: 0 <= i < |ChunkEvents(parts)| ==> !ChunkEvents(parts)[i].HeadersComplete?
    decreases |parts|
  {
    if parts != [] { ChunksHaveNoVersion(parts[..|parts| - 1]); }
  }

  lemma {:induction false} LastChunkHeard(c: Conn)
    requires c.ok && c.request.Some? && c.deferred.None?
    ensures var d := HeardAll(c, [ChunkHeader(0), ChunkComplete, MessageComplete]);
            && d.ok && d.request.Some? && d.request.value.complete
            && d.request.value.calls == c.request.value.calls + [DecodeData("", true)]
  {
    hide HeardAll, HeardField, HeardValue, HeardUrl, HeardComplete, HeardBody;
    NothingHeard();
    HeardSnoc(c, [], ChunkHeader(0));
    HeardSnoc(c, [ChunkHeader(0)], ChunkComplete);
    HeardSnoc(c, [ChunkHeader(0), ChunkComplete], MessageComplete);
    assert [] + [ChunkHeader(0)] == [ChunkHeader(0)];
    assert [ChunkHeader(0)] + [ChunkComplete] == [ChunkHeader(0), ChunkComplete];
    assert [ChunkHeader(0), ChunkComplete] + [MessageComplete] == [ChunkHeader(0), ChunkComplete, MessageComplete];
  }

  lemma {:induction false} EndHeard(c: Conn, body: string)
    requires c.ok && c.request.Some? &&
             (body != "" ==> c.deferred.None? && |c.request.value.calls| == 1 && c.request.value.calls[0].DecodeHeaders?)
    requires body == "" ==> c.deferred.Some? && c.request.value.calls == []
    ensures var d := HeardAll(c, if body == "" then [MessageComplete] else [Data(Body, body), MessageComplete]);
            && d.ok && d.request.Some? && d.request.value.complete
            && d.request.value.calls == if body == "" then [DecodeHeaders(c.deferred.value, true)]
                                        else [c.request.value.calls[0], DecodeData(body, false), DecodeData("", true)]
  {
    hide HeardAll, HeardField, HeardValue, HeardUrl, HeardComplete;
    NothingHeard();
    HeardSnoc(c, [], if body == "" then MessageComplete else Data(Body, body));
    assert [] + [MessageComplete] == [MessageComplete] && [] + [Data(Body, body)] == [Data(Body, body)];
    HeardSnoc(c, [Data(Body, body)], MessageComplete);
    assert [Data(Body, body)] + [MessageComplete] == [Data(Body, body), MessageComplete];
  }

  /** The bytes of a request as the encoder writes them. */
  function Wire(m: Method, path: string, l: seq<Header>, parts: seq<string>): string {
    MessageText(MethodString(m), path, l, parts, false)
  }

  /** The bytes of its head. */
  function WireHead(m: Method, path: string, l: seq<Header>, parts: seq<string>): string {
    RequestText(MethodString(m), path, l, Mode(parts == [], false, false))
  }

  /**
   * End to end. The bytes the encoder writes for a request, cut into slices in any way, complete the request with
   * their last byte, and the stream decoder is called with the headers that were sent, in order, with the framing
   * header the encoder added and `:path` and `:method` at the end, and with the body that was sent. It may be the
   * first request of a connection or a later one.
   */
  lemma {:induction false} EndToEnd(p: Parser, c0: Conn, m: Method, path: string, l: seq<Header>, parts: seq<string>,
                                    cuts: seq<string>)
    requires Inv(p) && p.errno.OK? && p.state.SStartReq? && Between(c0) && Sendable(m, path, l, parts)
    requires NonEmpty(cuts) && Join(cuts) == Wire(m, path, l, parts)
    ensures var r := Runs(CODEC, Ready(p, []), cuts); var c := HeardAll(c0, r.log);
            && r.p.errno.Paused? && r.consumed == |Join(cuts)|
            && c.ok && c.request.Some? && c.request.value.complete
            && c.request.value.calls == Expected(m, path, l, parts)
            && (c.http10 <==> c0.http10)
            && r.p.state == if KeepsOpen(l) then SStartReq else SDead
  {
    hide Fold, Sendable, MethodString, HeardAll, Runs, KeepsOpen, Join, Expected, HeadEvents, BodyEvents, WireList,
         MessageText, Between;
    MessageRun(p, m, path, l, parts);
    StrictSplit(CODEC, Ready(p, []), cuts);
    MessageHeard(c0, m, path, l, parts);
  }

  /**
   * The version on the wire. However a request head of version `a.b` is cut, behind it the connection is noted as
   * HTTP/1.0 exactly if it was before or the version is not 1.1; so " HTTP/1.0" has it noted, and " HTTP/1.1" has not.
   */
  lemma {:induction false} VersionNoted(p: Parser, c0: Conn, m: Method, path: string, a: string, b: string, hs: seq<Header>,
                                        cuts: seq<string>)
    requires Inv(p) && p.errno.OK? && p.state.SStartReq? && HeadOk(m, path, hs) && IsVersion(a, b)
    requires NonEmpty(cuts) && Join(cuts) == HeadOf(m, path, a, b, hs)
    ensures var c := HeardAll(c0, Runs(CODEC, Ready(p, []), cuts).log);
            && (c.http10 <==> c0.http10 || DecimalValue(a) != 1 || DecimalValue(b) != 1)
            && (|a| == |b| == 1 ==> (c.http10 <==> c0.http10 || Protocol(a, b) != " HTTP/1.1" + CRLF))
  {
    hide Fold, HeadOf, HeadOk, Runs, HeardAll, Join, OldVersion, DecimalValue, AllDigits, FrameHasBody, Closes,
         HeadEventsOf, Inv;
    HeadRead(Ready(p, []), m, path, a, b, hs);
    StrictSplit(CODEC, Ready(p, []), cuts);
    var es := HeadEventsOf(m, path, DecimalValue(a), DecimalValue(b), hs);
    assert [] + es == es;
    VersionOfHead(m, path, DecimalValue(a), DecimalValue(b), hs);
    VersionHeard(c0, es);
    VersionHeard(c0, es + [MessageComplete]);
    if |a| == |b| == 1 { OneDigitVersion(a, b); }
  }

  lemma {:induction false} VersionOfHead(m: Method, path: string, a: nat, b: nat, hs: seq<Header>)
    ensures var es := HeadEventsOf(m, path, a, b, hs);
            && (OldVersion(es) <==> a != 1 || b != 1) && (OldVersion(es + [MessageComplete]) <==> a != 1 || b != 1)
  {
    hide BlockEvents, FrameOf;
    BlockHasNoVersion(hs);
    var es := HeadEventsOf(m, path, a, b, hs);
    var n := |es| - 1;
    assert es[n].HeadersComplete? && (es + [MessageComplete])[n] == es[n];
    assert forall i :: 0 <= i < n ==> !es[i].HeadersComplete?;
  }

  lemma {:induction false} OneDigitVersion(a: string, b: string)
    requires |a| == |b| == 1 && AllDigits(a) && AllDigits(b)
    ensures Protocol(a, b) == " HTTP/1.1" + CRLF <==> DecimalValue(a) == 1 && DecimalValue(b) == 1
  {
    OneDigit(a);
    OneDigit(b);
    var s, t := Protocol(a, b), " HTTP/1.1" + CRLF;
    assert s[6] == a[0] && s[8] == b[0] && t[6] == '1' && t[8] == '1';
    if a[0] == '1' && b[0] == '1' { assert a == "1" && b == "1"; }
  }

  /** A proper part of the slices leaves the parser running; all of them complete the request. */
  lemma {:induction false} PartOfTheWay(p: Parser, m: Method, path: string, l: seq<Header>, parts: seq<string>,
                                        cuts: seq<string>,
                                        i: nat)
    requires Inv(p) && p.errno.OK? && p.state.SStartReq? && Sendable(m, path, l, parts) && i <= |cuts|
    requires NonEmpty(cuts) && Join(cuts) == Wire(m, path, l, parts)
    ensures var r := Runs(CODEC, Ready(p, []), cuts[..i]);
            !Failed(r.p) && (i < |cuts| ==> r.p.errno.OK?)
  {
    hide Fold, Sendable, MethodString, Runs, Join, MessageText, Expected, HeardAll, HeadEvents, BodyEvents, WireList;
    MessageRun(p, m, path, l, parts);
    if i == |cuts| {
      assert cuts[..i] == cuts;
      StrictSplit(CODEC, Ready(p, []), cuts);
    } else {
      JoinRest(cuts, i);
      var rest := Join(cuts)[|Join(cuts[..i])|..];
      TookPrefix(CODEC, true, Ready(p, []), Join(cuts[..i]), rest);
      StrictSplit(CODEC, Ready(p, []), cuts[..i]);
    }
  }

  /** The slices up to `i` join to a proper prefix. */
  lemma {:induction false} JoinRest(cuts: seq<string>, i: nat)
    requires NonEmpty(cuts) && i <= |cuts|
    ensures |Join(cuts[..i])| <= |Join(cuts)| && Join(cuts) == Join(cuts[..i]) + Join(cuts)[|Join(cuts[..i])|..]
    ensures i < |cuts| ==> |Join(cuts[..i])| < |Join(cuts)|
    decreases |cuts| - i
  {
    if i == |cuts| {
      assert cuts[..i] == cuts;
    } else {
      JoinSnoc(cuts, i);
      JoinRest(cuts, i + 1);
    }
  }

  // ---------------------------------------------------------------- the header size limit

  /** Of a whole request only the head counts, and at most ten bytes at a time after it. */
  lemma {:induction false} MessageCount(c: nat, p: Parser, m: Method, path: string, l: seq<Header>, parts: seq<string>)
    requires Inv(p) && p.errno.OK? && p.state.SStartReq? && Sendable(m, path, l, parts)
    ensures var w, h, q := Wire(m, path, l, parts), WireHead(m, path, l, parts), Ready(p, []);
            && h <= w && Count(CODEC, true, c, q, w) <= 2
            && forall i :: 0 <= i <= |w| ==> Count(CODEC, true, c, q, w[..i]) <= if i < |h| then c + |h| else 10
  {
    hide Fold, Sendable, MethodString, WireList, RequestText, BodyText, EndText, Count, Bounded, Head, HeadEvents,
         FrameOf, BodyRest, KeepsOpen, BlockOk, IsPath, TokenSent;
    var q, mode, h := Ready(p, []), Mode(parts == [], false, false), WireHead(m, path, l, parts);
    WireFrame(m, path, l, parts);
    TextIsHead(m, path, l, mode);
    HeadCount(c, q, m, path, WireList(l, mode));
    var n := RestBounded(p, m, path, l, parts);
    WireParts(m, path, l, parts);
    HeadThenBody(c, q, h, BodyRest(l, parts), n);
  }

  /** What follows the head of a request on the wire. */
  function BodyRest(l: seq<Header>, parts: seq<string>): string {
    if ChunkedAfter(l, Mode(parts == [], false, false)) then Chunks(parts) + LAST_CHUNK else Join(parts)
  }

  lemma {:induction false} WireParts(m: Method, path: string, l: seq<Header>, parts: seq<string>)
    requires Sendable(m, path, l, parts)
    ensures Wire(m, path, l, parts) == WireHead(m, path, l, parts) + BodyRest(l, parts)
  {
    hide RequestText, BodyText, Chunks, Join, MethodString, Sendable, ChunkedAfter;
    BodyTexts(parts);
    var h, c := WireHead(m, path, l, parts), ChunkedAfter(l, Mode(parts == [], false, false));
    if c {
      ChunkedHasParts(l, parts);
      assert h + Chunks(parts) + LAST_CHUNK == h + (Chunks(parts) + LAST_CHUNK);
    } else {
      assert h + Join(parts) + "" == h + Join(parts);
    }
  }

  lemma {:induction false} ChunkedHasParts(l: seq<Header>, parts: seq<string>)
    requires ChunkedAfter(l, Mode(parts == [], false, false))
    ensures parts != []
  {
  }

  /** Behind the head at most ten bytes are counted at a time. */
  lemma {:induction false} RestBounded(p: Parser, m: Method, path: string, l: seq<Header>,
                                       parts: seq<string>) returns (n: nat)
    requires Inv(p) && p.errno.OK? && p.state.SStartReq? && Sendable(m, path, l, parts)
    ensures var r := Fold(CODEC, true, Ready(p, []), WireHead(m, path, l, parts));
            n <= 2 && Bounded(0, r, BodyRest(l, parts), 10, n)
  {
    hide Fold, Sendable, MethodString, WireList, Chunks, Join, RequestText, Bounded, Head, HeadEvents, FrameOf,
         KeepsOpen, BlockOk, IsPath, ChunkedAfter, TokenSent;
    var mode := Mode(parts == [], false, false);
    var hs := WireList(l, mode);
    WireFrame(m, path, l, parts);
    TextIsHead(m, path, l, mode);
    HeadRoundTrip(Ready(p, []), m, path, hs);
    var r := Fold(CODEC, true, Ready(p, []), WireHead(m, path, l, parts));
    if ChunkedAfter(l, mode) {
      SmallChunks(m, path, l, parts);
      ChunkedCount(r, parts);
      n := 2;
    } else {
      n := 0;
      PlainLength(m, path, l, parts);
      if Join(parts) != "" { DataCount(0, r, Join(parts), 10); } else { NothingBounded(r); }
    }
  }

  lemma {:induction false} PlainLength(m: Method, path: string, l: seq<Header>, parts: seq<string>)
    requires Sendable(m, path, l, parts) && !ChunkedAfter(l, Mode(parts == [], false, false))
    ensures |Join(parts)| < ULLONG_MAX
  {
    hide Sendable, HasLength;
    if HasLength(l) { LengthFits(m, path, l, parts); } else { NoParts(); }
  }

  lemma {:induction false} NothingBounded(q: Run)
    requires Inv(q.p)
    ensures Bounded(0, q, "", 10, 0)
  {
  }

  lemma {:induction false} HeadThenBody(c: nat, q: Run, h: string, body: string, n: nat)
    requires Inv(q.p) && n <= 2 && Bounded(c, q, h, c + |h|, 0) && Bounded(0, Fold(CODEC, true, q, h), body, 10, n)
    ensures Count(CODEC, true, c, q, h + body) <= 2
    ensures forall i :: 0 <= i <= |h + body| ==>
            Count(CODEC, true, c, q, (h + body)[..i]) <= if i < |h| then c + |h| else 10
  {
    hide Fold, Count;
    CountConcat(CODEC, true, c, q, h, body);
    forall i | 0 <= i <= |h + body|
      ensures Count(CODEC, true, c, q, (h + body)[..i]) <= if i < |h| then c + |h| else 10
    {
      if i < |h| {
        assert (h + body)[..i] == h[..i];
      } else {
        assert (h + body)[..i] == h + body[..i - |h|];
        CountConcat(CODEC, true, c, q, h, body[..i - |h|]);
      }
    }
  }

  /** The first `n` slices hold the head, and there is room for its bytes and one more for each of these slices. */
  ghost predicate HeadFits(c: nat, head: string, cuts: seq<string>, n: nat) {
    n <= |cuts| && |Join(cuts[..n])| >= |head| && c + |head| + n <= MAX_HEADER_SIZE
  }

  /** No slice passes the limit then, however long the body and however it is cut. */
  lemma {:induction false} CutsFit(c: nat, p: Parser, m: Method, path: string, l: seq<Header>, parts: seq<string>,
                                   cuts: seq<string>, n: nat)
    requires Inv(p) && p.errno.OK? && p.state.SStartReq? && Sendable(m, path, l, parts)
    requires NonEmpty(cuts) && Join(cuts) == Wire(m, path, l, parts) && HeadFits(c, WireHead(m, path, l, parts), cuts, n)
    ensures forall k: nat :: !PassesLimit(CODEC, c, Ready(p, []), cuts, k)
    ensures RunsTally(CODEC, c, Ready(p, []), cuts) <= 4
  {
    hide Fold, Sendable, MethodString, MessageText, RequestText, WireList, Join, PassesLimit, Count, HeadEvents,
         BodyEvents, RunsTally, Steady;
    var q, w := Ready(p, []), Wire(m, path, l, parts);
    MessageRun(p, m, path, l, parts);
    MessageCount(c, p, m, path, l, parts);
    forall k: nat
      ensures !PassesLimit(CODEC, c, q, cuts, k)
    {
      if k < |cuts| {
        JoinRest(cuts, k);
        if k >= n { JoinUpTo(cuts, n, k); }
        MessageFits(c, q, cuts, k);
      } else {
        NoSlice(c, q, cuts, k);
      }
    }
    StrictIsSteady(CODEC, q, w);
    TallyBound(CODEC, c, q, cuts);
    StrictCount(c, q, w, |w|);
    assert w[..|w|] == w;
  }

  lemma {:induction false} JoinUpTo(cuts: seq<string>, n: nat, k: nat)
    requires n <= k <= |cuts|
    ensures |Join(cuts[..n])| <= |Join(cuts[..k])|
  {
    JoinBound(cuts[..k], n);
    assert cuts[..k][..n] == cuts[..n];
  }

  // ---------------------------------------------------------------- the connection object

  /**
   * A server connection between two requests reads the request from any slices of it whose head stays within the
   * header limit; the body may be of any size.
   */
  method Receive(s: ServerConnection, cuts: seq<string>, ghost m: Method, ghost path: string, ghost l: seq<Header>,
                 ghost parts: seq<string>, ghost n: nat)
    requires s.Valid() && !Failed(s.parser.st) && s.parser.st.state.SStartReq? &&
             InStep(s.parser.st.(errno := OK), s.View())
    requires Sendable(m, path, l, parts) && forall i :: 0 <= i < |cuts| ==> 0 < |cuts[i]| < 0x8000_0000
    requires Join(cuts) == Wire(m, path, l, parts) && HeadFits(s.parser.nread, WireHead(m, path, l, parts), cuts, n)
    modifies s, s.parser, s.Maps()
    ensures s.Valid() && s.RequestComplete() && s.View().request.value.calls == Expected(m, path, l, parts)
    ensures InStep(s.parser.st, s.View()) && s.parser.st.errno.Paused? && s.parser.nread <= 4
    ensures s.http10 == old(s.http10)
    ensures s.parser.st.state == if KeepsOpen(l) then SStartReq else SDead
    ensures fresh(s.Maps() - old(s.Maps()))
  {
    hide Fold, Sendable, MethodString, Runs, Join, MessageText, RequestText, Expected, HeardAll, InStep,
         ServerConnection.Valid, RunsTally, PassesLimit, Merged, Execute.Undelivered, ReadAs, Between, Orderly,
         KeepsOpen;
    ghost var p, c0, c := s.parser.st.(errno := OK), s.View(), s.parser.nread;
    CanStart(s, p);
    WireThere(m, path, l, parts);
    var used, failed := s.ReadRequest(cuts);
    ReadWhole(p, c, c0, m, path, l, parts, cuts, n, used, s.parser.st, s.parser.nread, s.parser.log);
    if used < |cuts| { CompleteIsPaused(s); }
    HeardMerged(c0, s.parser.log);
  }

  lemma {:induction false} CanStart(s: ServerConnection, p: Parser)
    requires s.Valid() && !Failed(s.parser.st) && s.parser.st.state.SStartReq? && p == s.parser.st.(errno := OK)
    requires InStep(p, s.View())
    ensures Inv(p) && Between(s.View())
  {
    hide Between;
    UnpausedRun(s.parser);
  }

  lemma {:induction false} WireThere(m: Method, path: string, l: seq<Header>, parts: seq<string>)
    ensures Wire(m, path, l, parts) != "" && Join([]) == ""
  {
    hide HeadersText, BodyText, MethodString;
  }

  /** Reading ends with the last slice, with the request as it was sent. */
  lemma {:induction false} ReadWhole(p: Parser, c: nat, c0: Conn, m: Method, path: string, l: seq<Header>,
                                     parts: seq<string>,
                                     cuts: seq<string>, n: nat, used: nat, st: Parser, nread: nat, raw: seq<Event>)
    requires Inv(p) && p.errno.OK? && p.state.SStartReq? && Between(c0) && Sendable(m, path, l, parts)
    requires NonEmpty(cuts) && Join(cuts) == Wire(m, path, l, parts) && HeadFits(c, WireHead(m, path, l, parts), cuts, n)
    requires used <= |cuts| && ReadAs(p, c, cuts, used, st, nread, raw)
    ensures !Failed(st) && (used < |cuts| ==> st.errno.OK?)
    ensures used == |cuts| ==> st.errno.Paused? && nread <= 4 && st.state == if KeepsOpen(l) then SStartReq else SDead
    ensures used == |cuts| ==> var d := HeardAll(c0, Merged(raw));
              && d.request.Some? && d.request.value.complete && d.request.value.calls == Expected(m, path, l, parts)
              && (d.http10 <==> c0.http10)
  {
    hide Fold, Sendable, MethodString, Runs, Join, MessageText, RequestText, Expected, HeardAll, RunsTally, Merged,
         Execute.Undelivered, Tally, Between;
    CutsFit(c, p, m, path, l, parts, cuts, n);
    PartOfTheWay(p, m, path, l, parts, cuts, used);
    assert forall i: nat :: i < |cuts| ==> !OverflowedAt(CODEC, c, Ready(p, []), cuts, i, st, raw) by {
      forall i: nat | i < |cuts|
        ensures !OverflowedAt(CODEC, c, Ready(p, []), cuts, i, st, raw)
      {
        assert !PassesLimit(CODEC, c, Ready(p, []), cuts, i);
      }
    }
    if used == |cuts| {
      assert cuts[..used] == cuts;
      EndToEnd(p, c0, m, path, l, parts, cuts);
    }
  }

  lemma {:induction false} CompleteIsPaused(s: ServerConnection)
    requires InStep(s.parser.st, s.View()) && s.RequestComplete()
    ensures s.parser.st.errno.Paused?
  {
    hide InStep;
    TraceInStep(s.parser.st, s.View());
  }

  // ---------------------------------------------------------------- one request after another

  datatype Message = Message(verb: Method, path: string, headers: seq<Header>, body: seq<string>)

  /** A request that can be sent, and slices of it of which the first `n` hold a head within the limit. */
  ghost predicate Arrives(m: Message, cuts: seq<string>, n: nat) {
    && Sendable(m.verb, m.path, m.headers, m.body) && Join(cuts) == Wire(m.verb, m.path, m.headers, m.body)
    && (forall i :: 0 <= i < |cuts| ==> 0 < |cuts[i]| < 0x8000_0000)
    && HeadFits(4, WireHead(m.verb, m.path, m.headers, m.body), cuts, n)
  }

  /** The calls of the decoder of a request, with adjacent pieces of data joined, are those it should get. */
  predicate Served(m: Message, calls: seq<Call>) { Joined(calls) == Expected(m.verb, m.path, m.headers, m.body) }

  /** A connection between two requests: it holds no header map, and hardly a header byte is counted. */
  ghost predicate AtRest(s: ServerConnection)
    reads s, s.Maps(), s.headers, s.deferred, s.parser
  {
    && s.Valid() && !Failed(s.parser.st) && InStep(s.parser.st.(errno := OK), s.View()) && s.parser.nread <= 4
    && (s.parser.st.state.SStartReq? || s.parser.st.state.SDead?) && s.Maps() == {}
  }

  /** The requests served so far: all but the last leave the connection open, and the last if it is not dead. */
  ghost predicate AllServed(ms: seq<Message>, traces: seq<seq<Call>>, dead: bool) {
    && |traces| <= |ms| && (dead <==> traces != [] && !KeepsOpen(ms[|traces| - 1].headers))
    && (forall k :: 0 <= k < |traces| - 1 ==> KeepsOpen(ms[k].headers))
    && forall k :: 0 <= k < |traces| ==> Served(ms[k], traces[k])
  }

  lemma {:induction false} NoneServed(ms: seq<Message>)
    ensures AllServed(ms, [], false)
  {
  }

  lemma {:induction false} OneMoreServed(ms: seq<Message>, traces: seq<seq<Call>>, calls: seq<Call>)
    requires AllServed(ms, traces, false) && |traces| < |ms| && Served(ms[|traces|], calls)
    ensures AllServed(ms, traces + [calls], !KeepsOpen(ms[|traces|].headers))
  {
    hide Served, KeepsOpen;
  }

  /**
   * A connection kept alive: requests are read one after another, each answered before the next arrives, and each
   * reaches its own decoder as it was sent. Reading ends early exactly behind a request that closes the connection,
   * and the version noted for the connection stays what it was.
   */
  method Serve(s: ServerConnection, slices: seq<seq<string>>, ghost ms: seq<Message>, ghost heads: seq<nat>)
    returns (traces: seq<seq<Call>>)
    requires AtRest(s) && s.parser.st.state.SStartReq? && |ms| == |slices| == |heads|
    requires forall k :: 0 <= k < |ms| ==> Arrives(ms[k], slices[k], heads[k])
    modifies s, s.parser
    ensures AtRest(s) && s.http10 == old(s.http10)
    ensures AllServed(ms, traces, s.parser.st.state.SDead?) && (|traces| < |ms| ==> s.parser.st.state.SDead?)
  {
    hide KeepsOpen, Arrives, AllServed, AtRest, Served;
    traces := [];
    NoneServed(ms);
    while |traces| < |slices| && !s.parser.st.state.SDead?
      invariant AtRest(s) && |traces| <= |ms| && s.http10 == old(s.http10)
      invariant AllServed(ms, traces, s.parser.st.state.SDead?)
    {
      Restarts(s);
      var calls := ServeOne(s, slices[|traces|], ms[|traces|], heads[|traces|]);
      OneMoreServed(ms, traces, calls);
      traces := traces + [calls];
    }
  }

  lemma {:induction false} Restarts(s: ServerConnection)
    requires AtRest(s) && !s.parser.st.state.SDead?
    ensures s.parser.st.state.SStartReq?
  {
  }

  /** One request and its answer. */
  method ServeOne(s: ServerConnection, cuts: seq<string>, ghost m: Message, ghost n: nat) returns (calls: seq<Call>)
    requires AtRest(s) && s.parser.st.state.SStartReq? && Arrives(m, cuts, n)
    modifies s, s.parser
    ensures AtRest(s) && s.parser.st.errno.Paused? && Served(m, calls)
    ensures s.http10 == old(s.http10) && s.parser.st.state == if KeepsOpen(m.headers) then SStartReq else SDead
  {
    hide KeepsOpen, ServerConnection.Valid, InStep, Expected, Sendable, Wire, WireHead, Joined;
    Receive(s, cuts, m.verb, m.path, m.headers, m.body, n);
    calls := s.request.value.calls;
    NextRequest(s.parser.st, s.View());
    s.OnEncodeComplete();
    IdleAgain(s.parser.st, s.View());
    NoMaps(s);
  }

  lemma {:induction false} NoMaps(s: ServerConnection)
    requires s.parser.st.errno.Paused? && InStep(s.parser.st.(errno := OK), s.View()) && s.View().request.None?
    ensures s.Maps() == {}
  {
    hide FromWire, RequestHeaders, Open;
  }

  lemma {:induction false} IdleAgain(p: Parser, c: Conn)
    requires p.errno.Paused? && InStep(p.(errno := OK), c) && c.request.None?
    ensures Idle(p.state)
  {
    hide FromWire, RequestHeaders, Open;
  }

  /** A parser that has closed its connection rejects whatever comes but line ends. */
  lemma {:induction false} DeadRejects(q: Run, s: string, i: nat)
    requires Inv(q.p) && q.p.errno.OK? && !q.halted && q.p.state.SDead? && i < |s| && s[i] != CR && s[i] != LF
    requires forall k :: 0 <= k < i ==> s[k] == CR || s[k] == LF
    ensures var r := Fold(CODEC, false, q, s); r.p.errno.ClosedConnection? && r.consumed == q.consumed + i && r.log == q.log
  {
    hide Case, Step, Fold, Inv;
    DeadSkips(q, s[..i]);
    assert s == s[..i] + s[i..] && s[i..] == [s[i]] + s[i + 1..];
    FoldConcat(CODEC, false, q, s[..i], s[i..]);
    var r := Fold(CODEC, false, q, s[..i]);
    FoldConcat(CODEC, false, r, [s[i]], s[i + 1..]);
    DeadByte(r, s[i]);
    FoldStopped(CODEC, false, Fold(CODEC, false, r, [s[i]]), s[i + 1..]);
  }

  lemma {:induction false} DeadSkips(q: Run, s: string)
    requires Inv(q.p) && q.p.errno.OK? && !q.halted && q.p.state.SDead?
    requires forall k :: 0 <= k < |s| ==> s[k] == CR || s[k] == LF
    ensures var r := Fold(CODEC, false, q, s);
            r.p == q.p && !r.halted && r.consumed == q.consumed + |s| && r.log == q.log
    decreases |s|
  {
    hide Case, Inv;
    if s != "" {
      var n := |s| - 1;
      DeadSkips(q, s[..n]);
      CaseGroups(CODEC, q.p, s[n]);
      DeadCase(Fold(CODEC, false, q, s[..n]), s[n]);
    }
  }

  lemma {:induction false} DeadCase(q: Run, ch: char)
    requires Inv(q.p) && q.p.errno.OK? && q.p.state.SDead?
    ensures Case(CODEC, q.p, q.checked, ch) == if ch == CR || ch == LF then Go(q.p, SDead) else Err(q.p, ClosedConnection)
  {
    hide Inv;
  }

  lemma {:induction false} DeadByte(q: Run, ch: char)
    requires Inv(q.p) && q.p.errno.OK? && !q.halted && q.p.state.SDead? && ch != CR && ch != LF
    ensures var r := Fold(CODEC, false, q, [ch]);
            r.p.errno.ClosedConnection? && r.halted && r.consumed == q.consumed && r.log == q.log
  {
    hide Case, Inv;
    DeadCase(q, ch);
    FoldSnoc(CODEC, false, q, "", ch);
    assert "" + [ch] == [ch];
  }
}
