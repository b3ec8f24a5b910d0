/** What the byte-by-byte run makes of one header line, and so of a whole header block. */
module HeaderLines {
  import opened Chars
  import opened HeaderNames
  import opened HttpParser
  import opened ByteStream
  import opened Recognize
  import opened Lengths
  import opened Segments
  import opened TokenLists

  // ---------------------------------------------------------------- name

  lemma {:induction false} NameSegment(cb: Callbacks, q: Run, s: string)
    requires Live(q) && q.p.state.SHeaderFieldStart? && s != "" && AllTokens(s) && !LastIs(q.log, Field)
    ensures var r := Moved(q, q.p.(state := SHeaderField, hs := NameState(s).0, index := NameState(s).1),
                           q.log + [Data(Field, s)], |s|);
            Live(r) && Fold(cb, true, q, s) == r
    decreases |s|
  {
    hide Step, Case, FieldStep, FieldStartHs, IsToken, Fold, Emit, LastIs, Inv, Sane;
    var n := |s| - 1;
    TokenNotSpace(s[n]);
    TokenNotLineEnd(s[n]);
    if n == 0 {
      EmitStarts(q.log, Field, s[0]);
      FoldNothing(cb, q);
      assert "" + [s[0]] == s;
      TakeByte(cb, q, "", q, s[0], q.p.(index := 0, state := SHeaderField, hs := FieldStartHs(Token(s[0]))), Field) by {
        CaseGroups(cb, q.p, s[0]);
      }
    } else {
      NameSegment(cb, q, s[..n]);
      EmitGrows(q.log, Field, s[..n], s[n]);
      var h := NameState(s[..n]);
      var r := Moved(q, q.p.(state := SHeaderField, hs := h.0, index := h.1), q.log + [Data(Field, s[..n])], n);
      TakeByte(cb, q, s[..n], r, s[n],
               q.p.(state := SHeaderField, hs := NameState(s).0, index := NameState(s).1), Field) by {
                 CaseGroups(cb, r.p, s[n]);
               }
      assert s[..n] + [s[n]] == s;
    }
  }

  lemma {:induction false} TokenNotLineEnd(c: char)
    requires IsToken(c)
    ensures c != CR && c != LF && c != ':' && c != ' ' && c != TAB
  {
  }

  // ---------------------------------------------------------------- value

  /** The bytes of a header value that can be sent on one line. */
  predicate IsValue(s: string) {
    (forall i :: 0 <= i < |s| ==> IsHeaderChar(s[i]) && s[i] != CR && s[i] != LF) &&
    (s != "" ==> s[0] != ' ' && s[0] != TAB)
  }

  /** The parser after the value `s`, read from its first byte on; None for an error. */
  function ValueScan(p: Parser, s: string): (r: Option<Parser>)
    requires Inv(p) && p.errno.OK? && p.state.SHeaderValueDiscardWs? && s != ""
    ensures r.Some? ==> Inv(r.value) && r.value.errno.OK? && r.value.state.SHeaderValue?
  {
    var n := |s| - 1;
    if n == 0 then
      var e := ValueStart(p, s[0]);
      if e.ctl.Fail? then None else Some(e.p)
    else
      var r := ValueScan(p, s[..n]);
      if r.None? then None
      else
        var e := ValueByte(r.value, s[n]);
        if e.ctl.Fail? then None else Some(e.p)
  }

  lemma {:induction false} ValueSegment(cb: Callbacks, q: Run, s: string)
    requires Live(q) && q.p.state.SHeaderValueDiscardWs? && s != "" && IsValue(s) && !LastIs(q.log, Value)
    requires ValueScan(q.p, s).Some?
    ensures var r := Moved(q, ValueScan(q.p, s).value, q.log + [Data(Value, s)], |s|);
            Live(r) && Fold(cb, true, q, s) == r
    decreases |s|
  {
    hide Step, Case, ValueStart, ValueByte, IsHeaderChar, Fold, Emit, LastIs, Inv, Sane;
    var n := |s| - 1;
    if n == 0 {
      EmitStarts(q.log, Value, s[0]);
      FoldNothing(cb, q);
      assert "" + [s[0]] == s;
      TakeByte(cb, q, "", q, s[0], ValueScan(q.p, s).value, Value) by { CaseGroups(cb, q.p, s[0]); }
    } else {
      ValueSegment(cb, q, s[..n]);
      EmitGrows(q.log, Value, s[..n], s[n]);
      var r := Moved(q, ValueScan(q.p, s[..n]).value, q.log + [Data(Value, s[..n])], n);
      TakeByte(cb, q, s[..n], r, s[n], ValueScan(q.p, s).value, Value) by { CaseGroups(cb, r.p, s[n]); }
      assert s[..n] + [s[n]] == s;
    }
  }

  // ---------------------------------------------------------------- what a value sets

  /** The value of a `Transfer-Encoding` the parser takes for chunked: the word, in any letter case, then spaces. */
  predicate IsChunkedValue(s: string) {
    |s| >= 7 && (forall i :: 0 <= i < 7 ==> Lower(s[i]) == CHUNKED[i]) && (forall i :: 7 <= i < |s| ==> s[i] == ' ')
  }

  /** The `Transfer-Encoding` matcher on a whole value. */
  lemma {:induction false} ChunkedScan(p: Parser, s: string)
    requires Inv(p) && p.errno.OK? && p.state.SHeaderValueDiscardWs? && s != "" && p.hs.HTransferEncoding?
    ensures ValueScan(p, s).Some?
    ensures var r := ValueScan(p, s).value;
            r == p.(state := SHeaderValue, hs := r.hs, index := r.index) &&
            (r.hs.HTransferEncodingChunked? <==> IsChunkedValue(s)) &&
            (r.hs.HMatchingTransferEncodingChunked? <==>
               |s| < 7 && forall i :: 0 <= i < |s| ==> Lower(s[i]) == CHUNKED[i]) &&
            (r.hs.HMatchingTransferEncodingChunked? ==> r.index == |s| - 1) &&
            (r.hs.HTransferEncodingChunked? || r.hs.HMatchingTransferEncodingChunked? || r.hs.HGeneral?)
    decreases |s|
  {
    hide ConnectionByte, Lower, Inv;
    var n := |s| - 1;
    if n > 0 { ChunkedScan(p, s[..n]); }
  }

  /** `s` without its spaces. */
  function Squeezed(s: string): string {
    if s == "" then ""
    else Squeezed(s[..|s| - 1]) + if s[|s| - 1] == ' ' then "" else [s[|s| - 1]]
  }

  /** What the parser takes for a length: a digit, then digits and spaces, which it ignores. */
  predicate IsLengthText(s: string) {
    s != "" && IsNum(s[0]) && forall i :: 0 <= i < |s| ==> IsNum(s[i]) || s[i] == ' '
  }

  lemma {:induction false} SqueezedDigits(s: string)
    requires IsLengthText(s)
    ensures Squeezed(s) != "" && AllDigits(Squeezed(s))
    decreases |s|
  {
    var n := |s| - 1;
    if n == 0 {
      assert Squeezed(s[..0]) == "";
    } else {
      SqueezedDigits(s[..n]);
    }
  }

  lemma {:induction false} SqueezedSame(s: string)
    requires ' ' !in s
    ensures Squeezed(s) == s
    decreases |s|
  {
    if s != "" { SqueezedSame(s[..|s| - 1]); }
  }

  /**
   * The `Content-Length` matcher on a whole value, exactly: it accepts a digit followed by digits and spaces, as long
   * as the digits alone are within the guard of the accumulator, and the length is the value of the digits.
   */
  lemma {:induction false} LengthScan(p: Parser, s: string)
    requires Inv(p) && p.errno.OK? && p.state.SHeaderValueDiscardWs? && p.hs.HContentLength? && s != ""
    ensures IsLengthText(s) ==> Squeezed(s) != "" && AllDigits(Squeezed(s))
    ensures ValueScan(p, s).Some? <==>
            !p.flags.contentLength && IsLengthText(s) && ReadDecimal(Squeezed(s)).Some?
    ensures ValueScan(p, s).Some? ==>
              ValueScan(p, s).value == p.(state := SHeaderValue, index := 0, contentLength := DecimalValue(Squeezed(s)),
                                          flags := p.flags.(contentLength := true))
    decreases |s|
  {
    hide ConnectionByte, AppendDigit, Inv, Squeezed, DecimalValue, ReadDecimal;
    var n := |s| - 1;
    if IsLengthText(s) { SqueezedDigits(s); ReadDecimalExact(Squeezed(s)); }
    if n == 0 {
      OneSqueezed(s);
    } else {
      LengthScan(p, s[..n]);
      SqueezedSnoc(s);
      if IsLengthText(s[..n]) { ReadDecimalExact(Squeezed(s[..n])); }
      if IsLengthText(s) && s[n] != ' ' { ReadSnoc(Squeezed(s[..n]), s[n]); }
    }
  }

  lemma {:induction false} OneSqueezed(s: string)
    requires |s| == 1
    ensures IsNum(s[0]) ==> Squeezed(s) == s && ReadDecimal(s) == Some(Digit(s[0])) && DecimalValue(s) == Digit(s[0])
  {
    assert s[..0] == "" && "" + [s[0]] == s;
  }

  lemma {:induction false} SqueezedSnoc(s: string)
    requires |s| > 1
    ensures Squeezed(s) == Squeezed(s[..|s| - 1]) + if s[|s| - 1] == ' ' then "" else [s[|s| - 1]]
    ensures s[|s| - 1] == ' ' ==> Squeezed(s) == Squeezed(s[..|s| - 1])
  {
  }

  lemma {:induction false} ReadSnoc(s: string, ch: char)
    requires s != "" && AllDigits(s) && IsNum(ch)
    ensures ReadDecimal(s + [ch]) ==
            if ReadDecimal(s).None? then None else AppendDigit(ReadDecimal(s).value, Digit(ch))
  {
    assert (s + [ch])[..|s|] == s;
  }

  /** A space between the digits of a length is not seen. */
  lemma {:induction false} SpacedLength(p: Parser)
    requires Inv(p) && p.errno.OK? && p.state.SHeaderValueDiscardWs? && p.hs.HContentLength? && !p.flags.contentLength
    ensures ValueScan(p, "1 2").Some? && ValueScan(p, "1 2").value.contentLength == 12
  {
    hide ValueScan, Inv, Squeezed, ReadDecimal, DecimalValue, AllDigits;
    SqueezedTwelve();
    Twelve();
    var s := "1 2";
    assert s[0] == '1' && s[1] == ' ' && s[2] == '2';
    LengthScan(p, s);
  }

  lemma {:induction false} SqueezedTwelve()
    ensures Squeezed("1 2") == "12"
  {
    var s := "1 2";
    assert s[..2] == "1 " && "1 "[..1] == "1" && "1"[..0] == "";
    assert Squeezed("1") == "1" && Squeezed("1 ") == "1" + "";
  }

  lemma {:induction false} Twelve()
    ensures AllDigits("12") && ReadDecimal("12") == Some(12) && DecimalValue("12") == 12
  {
    assert "12"[..1] == "1" && "1"[..0] == "";
    assert ReadDecimal("1") == Some(1) && DecimalValue("1") == 1;
    assert AppendDigit(1, 2) == Some(12);
  }

  /** The parser fields a header may change besides its own matcher state. */
  predicate SameFraming(p: Parser, r: Parser) {
    r.contentLength == p.contentLength && r.flags.chunked == p.flags.chunked &&
    r.flags.contentLength == p.flags.contentLength && r.flags.trailing == p.flags.trailing &&
    r.flags.skipBody == p.flags.skipBody && SameRequest(p, r)
  }

  /** A header other than `Connection` ends in the general state and sets no flag but that of `Upgrade`. */
  predicate SameConnection(p: Parser, r: Parser) {
    r.hs.HGeneral? && r.flags == p.flags.(upgrade := p.flags.upgrade || p.hs.HUpgrade?)
  }

  predicate SameRequest(p: Parser, r: Parser) {
    r.verb == p.verb && r.major == p.major && r.minor == p.minor && r.upgrade == p.upgrade && r.errno == p.errno
  }

  predicate PlainHs(h: HeaderState) {
    ValueHs(h) && !h.HContentLength? && !h.HTransferEncodingChunked? && !h.HMatchingTransferEncodingChunked?
  }

  lemma {:induction false} OtherStart(p: Parser, ch: char)
    requires Inv(p) && p.errno.OK? && p.state.SHeaderValueDiscardWs?
    requires FieldHs(p.hs) && !p.hs.HContentLength? && !p.hs.HTransferEncoding?
    ensures var e := ValueStart(p, ch);
            e.ctl.Next? && SameFraming(p, e.p) && PlainHs(e.p.hs) && (!p.hs.HConnection? ==> SameConnection(p, e.p))
  {
    hide Lower;
  }

  lemma {:induction false} OtherByte(p: Parser, ch: char)
    requires Inv(p) && p.errno.OK? && p.state.SHeaderValue? && PlainHs(p.hs)
    ensures var e := ValueByte(p, ch);
            e.ctl.Next? && SameFraming(p, e.p) && PlainHs(e.p.hs) && (p.hs.HGeneral? ==> e.p == p)
  {
    hide Lower, IsToken, Inv;
  }

  /** Any other header leaves the framing as it is. */
  lemma {:induction false} OtherScan(p: Parser, s: string)
    requires Inv(p) && p.errno.OK? && p.state.SHeaderValueDiscardWs? && s != ""
    requires FieldHs(p.hs) && !p.hs.HContentLength? && !p.hs.HTransferEncoding?
    ensures ValueScan(p, s).Some?
    ensures var r := ValueScan(p, s).value;
            SameFraming(p, r) && PlainHs(r.hs) && (!p.hs.HConnection? ==> SameConnection(p, r))
    decreases |s|
  {
    hide Inv, ValueStart, ValueByte;
    var n := |s| - 1;
    if n == 0 {
      OtherStart(p, s[0]);
    } else {
      OtherScan(p, s[..n]);
      OtherByte(ValueScan(p, s[..n]).value, s[n]);
    }
  }

  /**
   * The tokens of a `Connection` value: between two of them the parser skips spaces, and of the bytes a value may
   * have nothing else. A tab is meant to be skipped too, but `LOWER` turns it into a closing parenthesis.
   */
  lemma {:induction false} SkippedBetweenTokens(p: Parser, ch: char)
    requires Inv(p) && p.errno.OK? && p.state.SHeaderValue? && p.hs.HMatchingConnectionTokenStart?
    requires IsHeaderChar(ch) && ch != CR && ch != LF
    ensures ValueByte(p, ch) == Take(p, Value) <==> ch == ' '
    ensures ch == TAB ==> ValueByte(p, ch) == Take(p.(hs := HGeneral), Value)
  {
    hide Inv, ValueMatch;
  }

  /** So no token behind a tab is seen, whatever follows. */
  lemma {:induction false} TabHidesTokens(p: Parser, s: string, t: string)
    requires Inv(p) && p.errno.OK? && p.state.SHeaderValueDiscardWs? && s != ""
    requires ValueScan(p, s).Some? && ValueScan(p, s).value.hs.HMatchingConnectionTokenStart?
    ensures ValueScan(p, s + [TAB] + t) == Some(ValueScan(p, s).value.(hs := HGeneral))
    decreases |t|
  {
    hide Inv, ValueByte, ValueStart;
    if t == "" {
      assert (s + [TAB])[..|s|] == s && s + [TAB] + t == s + [TAB];
      SkippedBetweenTokens(ValueScan(p, s).value, TAB);
    } else {
      var n := |t| - 1;
      TabHidesTokens(p, s, t[..n]);
      assert (s + [TAB] + t)[..|s| + 1 + n] == s + [TAB] + t[..n];
      GeneralStays(ValueScan(p, s).value.(hs := HGeneral), t[n]);
    }
  }

  lemma {:induction false} GeneralStays(p: Parser, ch: char)
    requires Inv(p) && p.errno.OK? && p.state.SHeaderValue? && p.hs.HGeneral?
    ensures ValueByte(p, ch) == Take(p, Value)
  {
  }

  // ---------------------------------------------------------------- the tokens of a Connection value

  /** The matcher's state behind the bytes `t` of an element it hears. */
  function ElementHs(t: string, first: bool): HeaderState {
    var d := Stripped(t);
    if d == "" then HMatchingConnectionTokenStart
    else if Begins(d, KEEP_ALIVE) then HMatchingConnectionKeepAlive
    else if Begins(d, CLOSE) then HMatchingConnectionClose
    else if Begins(d, UPGRADE) then HMatchingConnectionUpgrade
    else if Spells(d, KEEP_ALIVE) then HConnectionKeepAlive
    else if Spells(d, CLOSE) then HConnectionClose
    else if Spells(d, UPGRADE) then HConnectionUpgrade
    else if first || Opens(d[0]) then HMatchingConnectionToken
    else HGeneral
  }

  /** The matcher counts the letters of a token it looks for. */
  predicate CountsLetters(p: Parser, t: string) {
    if p.hs.HMatchingConnectionTokenStart? then p.index == 0
    else p.hs.HMatchingConnectionKeepAlive? || p.hs.HMatchingConnectionClose? || p.hs.HMatchingConnectionUpgrade? ==>
      p.index == |Stripped(t)| - 1
  }

  lemma {:induction false} StrippedSnoc(t: string, c: char)
    ensures Stripped(t + [c]) == if Stripped(t) == "" && c == ' ' then "" else Stripped(t) + [c]
    decreases |t|
  {
    if t == "" {
      assert t + [c] == [c] && [c][1..] == "";
    } else if t[0] == ' ' {
      assert (t + [c])[1..] == t[1..] + [c];
      StrippedSnoc(t[1..], c);
    }
  }

  /** A letter or a hyphen is found by `LOWER` in any letter case, and nowhere else but in a control character. */
  lemma {:induction false} LetterCase(c: char, x: char)
    requires c != CR && ('a' <= x <= 'z' || x == '-')
    ensures Lower(c) == x <==> LowerCase(c) == x
  {
  }

  predicate Word(w: string) { |w| >= 2 && forall i :: 0 <= i < |w| ==> 'a' <= w[i] <= 'z' || w[i] == '-' }

  lemma {:induction false} Words()
    ensures Word(KEEP_ALIVE) && Word(CLOSE) && Word(UPGRADE)
    ensures KEEP_ALIVE[0] == 'k' && CLOSE[0] == 'c' && UPGRADE[0] == 'u'
  {
  }

  /** One more byte of a token that is being matched. */
  lemma {:induction false} WordSnoc(d: string, c: char, w: string)
    requires Word(w) && c != CR
    ensures Begins(d + [c], w) <==> (d == "" || Begins(d, w)) && |d| + 1 < |w| && Lower(c) == w[|d|]
    ensures Spells(d + [c], w) <==> (Begins(d, w) && |d| + 1 == |w| && Lower(c) == w[|d|]) || (Spells(d, w) && c == ' ')
  {
    hide Lower, LowerCase;
    if |d| < |w| { LetterCase(c, w[|d|]); }
    var e := d + [c];
    assert ToLower(e) == ToLower(d) + [LowerCase(c)];
    if |e| <= |w| {
      assert w[..|e|] == w[..|d|] + [w[|d|]];
      assert ToLower(e) == w[..|e|] <==> ToLower(d) == w[..|d|] && LowerCase(c) == w[|d|];
      assert |e| == |w| ==> e[..|w|] == e && w[..|w|] == w;
    } else {
      assert e[..|w|] == d[..|w|] && e[|d|] == c;
      assert forall i :: |w| <= i < |d| ==> e[i] == d[i];
      if Spells(e, w) { assert forall i :: |w| <= i < |d| ==> d[i] == e[i]; }
    }
    assert w[..0] == "" && ToLower("") == "";
  }

  /** The first letter tells the three tokens apart. */
  lemma {:induction false} FirstLetterOf(d: string, w: string)
    requires Word(w) && (Begins(d, w) || Spells(d, w))
    ensures d != "" && LowerCase(d[0]) == w[0]
  {
    assert Begins(d, w) ==> ToLower(d)[0] == w[..|d|][0];
    assert Spells(d, w) ==> ToLower(d[..|w|])[0] == w[0];
  }

  /** At most one of the three tokens is meant. */
  lemma {:induction false} OneWord(d: string)
    ensures Begins(d, KEEP_ALIVE) || Spells(d, KEEP_ALIVE) ==> d != "" && LowerCase(d[0]) == 'k'
    ensures Begins(d, CLOSE) || Spells(d, CLOSE) ==> d != "" && LowerCase(d[0]) == 'c'
    ensures Begins(d, UPGRADE) || Spells(d, UPGRADE) ==> d != "" && LowerCase(d[0]) == 'u'
    ensures forall w :: Begins(d, w) ==> |d| < |w| && !Spells(d, w)
  {
    hide Begins, Spells;
    Words();
    if Begins(d, KEEP_ALIVE) || Spells(d, KEEP_ALIVE) { FirstLetterOf(d, KEEP_ALIVE); }
    if Begins(d, CLOSE) || Spells(d, CLOSE) { FirstLetterOf(d, CLOSE); }
    if Begins(d, UPGRADE) || Spells(d, UPGRADE) { FirstLetterOf(d, UPGRADE); }
    NotBoth(d);
  }

  lemma {:induction false} NotBoth(d: string)
    ensures forall w :: Begins(d, w) ==> |d| < |w| && !Spells(d, w)
  {
  }

  lemma {:induction false} WordOpens(c: char)
    ensures LowerCase(c) == 'k' || LowerCase(c) == 'c' || LowerCase(c) == 'u' ==> Opens(c)
  {
  }

  /** What `LOWER` makes of the bytes between two tokens. */
  lemma {:induction false} LowerBetween(c: char)
    requires c != CR && c != LF && IsHeaderChar(c)
    ensures Lower(c) != TAB && (Lower(c) == ' ' <==> c == ' ') && !IsToken(' ') && (c == ',' <==> Lower(c) == ',')
    ensures IsToken('k') && IsToken('c') && IsToken('u') && !IsToken(',')
  {
  }

  /** The first byte of an element that is not a space, or one more space in front of it. */
  lemma {:induction false} FreshByte(p: Parser, t: string, c: char)
    requires Inv(p) && p.errno.OK? && p.state.SHeaderValue? && p.hs.HMatchingConnectionTokenStart? && p.index == 0
    requires c != ',' && c != CR && c != LF && IsHeaderChar(c) && Stripped(t) == ""
    ensures var r := ValueByte(p, c).p;
            r == p.(hs := r.hs, index := r.index) && r.hs == ElementHs(t + [c], false) && CountsLetters(r, t + [c])
  {
    hide Inv, Stripped, Begins, Spells, IsToken, Lower;
    StrippedSnoc(t, c);
    Words();
    NothingStripped();
    WordSnoc("", c, KEEP_ALIVE);
    WordSnoc("", c, CLOSE);
    WordSnoc("", c, UPGRADE);
    LowerBetween(c);
    assert "" + [c] == [c];
  }

  /** The matcher on one more byte behind the beginning of the token `w`. */
  lemma {:induction false} MatchByte(d: string, c: char, w: string)
    requires Word(w) && Begins(d, w) && c != CR
    ensures forall stay, done, miss ::
              MatchStep(w, |d|, Lower(c), stay, done, miss) ==
              if Begins(d + [c], w) then stay else if Spells(d + [c], w) then done else miss
  {
    hide Lower, Begins, Spells, Word;
    WordSnoc(d, c, w);
    OneWord(d);
  }

  /** One more byte behind the beginning of a token the parser looks for. */
  lemma {:induction false} TokenByte(p: Parser, t: string, first: bool, c: char)
    requires Inv(p) && p.errno.OK? && p.state.SHeaderValue? && p.hs == ElementHs(t, first) && CountsLetters(p, t) && Cut(t)
    requires c != CR
    ensures var r := ValueByte(p, c).p;
            r == p.(hs := r.hs, index := r.index) && r.hs == ElementHs(t + [c], first) && CountsLetters(r, t + [c])
  {
    hide Inv, Stripped, Begins, Spells, IsToken, Lower, IsHeaderChar, TokenStartHs, Word, MatchStep;
    var d := Stripped(t);
    StrippedSnoc(t, c);
    Words();
    OneWord(d);
    OneWord(d + [c]);
    assert (d + [c])[0] == d[0];
    WordOpens(d[0]);
    if Begins(d, KEEP_ALIVE) { MatchByte(d, c, KEEP_ALIVE); }
    else if Begins(d, CLOSE) { MatchByte(d, c, CLOSE); }
    else { MatchByte(d, c, UPGRADE); }
  }

  /** One more byte of an element that is heard. */
  lemma {:induction false} ElementByte(p: Parser, t: string, first: bool, c: char)
    requires Inv(p) && p.errno.OK? && p.state.SHeaderValue? && p.hs == ElementHs(t, first) && CountsLetters(p, t)
    requires c != ',' && c != CR && c != LF && IsHeaderChar(c) && (first ==> Stripped(t) != "")
    ensures var r := ValueByte(p, c).p;
            r == p.(hs := r.hs, index := r.index) && r.hs == ElementHs(t + [c], first) && CountsLetters(r, t + [c])
  {
    hide Inv, Stripped, Begins, Spells, IsToken, Lower, IsHeaderChar, TokenStartHs, Word, ValueMatch;
    var d := Stripped(t);
    if d == "" {
      FreshByte(p, t, c);
    } else if Cut(t) {
      TokenByte(p, t, first, c);
    } else {
      StrippedSnoc(t, c);
      Words();
      WordSnoc(d, c, KEEP_ALIVE);
      WordSnoc(d, c, CLOSE);
      WordSnoc(d, c, UPGRADE);
      OneWord(d);
      assert (d + [c])[0] == d[0];
      WordOpens(d[0]);
    }
  }

  /** The matcher's state behind a list of which the last element is not yet complete. */
  function ListHs(es: seq<string>): HeaderState
    requires es != []
  {
    var k := |es| - 1;
    match PlaceOf(es, k)
    case Seen => ElementHs(es[k], k == 0)
    case Absorbed => HMatchingConnectionToken
    case Ignored => HGeneral
  }

  /** One of the first `n` elements is the token `w`, and is heard. */
  predicate HeardIn(es: seq<string>, n: nat, w: string)
    requires n <= |es|
  {
    exists i :: 0 <= i < n && PlaceOf(es, i).Seen? && Says(es[i], w)
  }

  /** The flags that the first `n` elements of a list set. */
  function ListFlags(f: Flags, es: seq<string>, n: nat): Flags
    requires n <= |es|
  {
    f.(keepAlive := f.keepAlive || HeardIn(es, n, KEEP_ALIVE), close := f.close || HeardIn(es, n, CLOSE),
       connectionUpgrade := f.connectionUpgrade || HeardIn(es, n, UPGRADE))
  }

  lemma {:induction false} PlacesAgree(es: seq<string>, fs: seq<string>, i: nat)
    requires i < |es| && i < |fs| && es[..i] == fs[..i]
    ensures PlaceOf(es, i) == PlaceOf(fs, i)
  {
    hide Cut, Sound;
    if i > 0 {
      assert es[..i - 1] == es[..i][..i - 1] && fs[..i - 1] == fs[..i][..i - 1];
      assert es[i - 1] == es[..i][i - 1] && fs[i - 1] == fs[..i][i - 1];
      PlacesAgree(es, fs, i - 1);
    }
  }

  lemma {:induction false} HeardAgree(es: seq<string>, fs: seq<string>, n: nat, w: string)
    requires n <= |es| && n <= |fs| && es[..n] == fs[..n]
    ensures HeardIn(es, n, w) <==> HeardIn(fs, n, w)
  {
    hide PlaceOf, Says;
    forall i: nat | i < n
      ensures PlaceOf(es, i) == PlaceOf(fs, i) && es[i] == fs[i]
    {
      assert es[..i] == es[..n][..i] && fs[..i] == fs[..n][..i] && es[i] == es[..n][i] && fs[i] == fs[..n][i];
      PlacesAgree(es, fs, i);
    }
  }

  lemma {:induction false} FlagsAgree(f: Flags, es: seq<string>, fs: seq<string>, n: nat)
    requires n <= |es| && n <= |fs| && es[..n] == fs[..n]
    ensures ListFlags(f, es, n) == ListFlags(f, fs, n)
  {
    hide HeardIn;
    HeardAgree(es, fs, n, KEEP_ALIVE);
    HeardAgree(es, fs, n, CLOSE);
    HeardAgree(es, fs, n, UPGRADE);
  }

  /** The flags of one more element are those its token sets when it is complete. */
  lemma {:induction false} OneMoreElement(p: Parser, f: Flags, es: seq<string>)
    requires es != [] && p.hs == ListHs(es) && p.flags == ListFlags(f, es, |es| - 1)
    ensures ConnectionFlags(p) == ListFlags(f, es, |es|)
  {
    hide PlaceOf, Stripped, Begins, Spells, HeardIn, Cut, Opens;
    var k := |es| - 1;
    OneWord(Stripped(es[k]));
    OneMoreHeard(es, k, KEEP_ALIVE);
    OneMoreHeard(es, k, CLOSE);
    OneMoreHeard(es, k, UPGRADE);
  }

  lemma {:induction false} OneMoreHeard(es: seq<string>, k: nat, w: string)
    requires k < |es|
    ensures HeardIn(es, k + 1, w) <==> HeardIn(es, k, w) || (PlaceOf(es, k).Seen? && Says(es[k], w))
  {
    hide PlaceOf, Says;
  }

  /** A comma behind an element that is heard. */
  lemma {:induction false} ElementEnds(p: Parser, t: string, first: bool)
    requires Inv(p) && p.errno.OK? && p.state.SHeaderValue? && p.hs == ElementHs(t, first) && CountsLetters(p, t)
    requires first ==> Stripped(t) != ""
    ensures var r := ValueByte(p, ',').p;
            && r == p.(hs := r.hs, index := r.index, flags := ConnectionFlags(p))
            && r.hs == (if Cut(t) then HMatchingConnectionToken
                 else if Sound(t, first) then HMatchingConnectionTokenStart else HGeneral)
            && (!Cut(t) && Sound(t, first) ==> r.index == 0)
  {
    hide Inv, Stripped, Begins, Spells, IsToken, Lower, Word, TokenStartHs, IsHeaderChar, MatchStep;
    var d := Stripped(t);
    OneWord(d);
    LowerBetween(',');
    NothingStripped();
    Words();
    if d != "" { WordOpens(d[0]); }
    if Cut(t) { CommaMisses(d); }
  }

  lemma {:induction false} CommaMisses(d: string)
    ensures forall stay, done, miss, w: string ::
              Word(w) && Begins(d, w) ==> MatchStep(w, |d|, Lower(','), stay, done, miss) == miss
  {
  }

  /** A comma behind an element. */
  lemma {:induction false} CommaByte(p: Parser, es: seq<string>)
    requires Inv(p) && p.errno.OK? && p.state.SHeaderValue? && es != [] && p.hs == ListHs(es)
    requires PlaceOf(es, |es| - 1).Seen? ==> CountsLetters(p, es[|es| - 1]) && (|es| == 1 ==> Stripped(es[0]) != "")
    ensures var r := ValueByte(p, ',').p;
            && r == p.(hs := r.hs, index := r.index, flags := ConnectionFlags(p))
            && r.hs == ListHs(es + [""]) && (PlaceOf(es + [""], |es|).Seen? ==> CountsLetters(r, ""))
  {
    hide Inv, Stripped, Begins, Spells, IsToken, Lower, Cut, Sound, ValueMatch, TokenStartHs;
    var k := |es| - 1;
    PlacesAgree(es, es + [""], k) by { assert (es + [""])[..k] == es[..k]; }
    NothingStripped();
    if PlaceOf(es, k).Seen? { ElementEnds(p, es[k], k == 0); StrippedNothing(es[k]); }
  }

  lemma {:induction false} StrippedNothing(t: string)
    ensures t == "" ==> Stripped(t) == ""
  {
  }

  lemma {:induction false} NothingStripped()
    ensures Stripped("") == "" && forall w :: Word(w) ==> !Begins("", w) && !Spells("", w)
  {
  }

  /** The matcher on the first byte of a value. */
  lemma {:induction false} FirstOfList(p: Parser, c: char)
    requires Inv(p) && p.errno.OK? && p.state.SHeaderValueDiscardWs? && p.hs.HConnection?
    requires IsHeaderChar(c) && c != CR && c != LF && c != ' '
    ensures var r := ValueStart(p, c).p; var es := Elements([c]);
            && ValueStart(p, c).ctl.Next? && r == p.(state := SHeaderValue, hs := r.hs, index := 0)
            && r.hs == ListHs(es) && (PlaceOf(es, |es| - 1).Seen? ==> CountsLetters(r, es[|es| - 1]))
  {
    hide Inv, Begins, Spells, IsToken, Lower, Elements, PlaceOf, ListHs, Stripped;
    OneElement(c);
    LowerBetween(c);
    if c == ',' {
      CommaFirst();
    } else {
      OnlyElement([c]);
      NothingStripped();
      Words();
      StrippedSnoc("", c);
      assert "" + [c] == [c];
      WordSnoc("", c, KEEP_ALIVE);
      WordSnoc("", c, CLOSE);
      WordSnoc("", c, UPGRADE);
    }
  }

  lemma {:induction false} CommaFirst()
    ensures ListHs(["", ""]) == HMatchingConnectionToken && PlaceOf(["", ""], 1).Absorbed?
  {
  }

  lemma {:induction false} OnlyElement(t: string)
    ensures ListHs([t]) == ElementHs(t, true) && PlaceOf([t], 0).Seen?
  {
  }

  lemma {:induction false} OneElement(c: char)
    ensures Elements([c]) == if c == ',' then ["", ""] else [[c]]
  {
    var s, es := [c], Elements("");
    assert s[..|s| - 1] == "" && s[|s| - 1] == c && es == [""] && "" + [c] == [c];
    if c == ',' { assert es + [""] == ["", ""]; } else { assert es[..0] + [es[0] + [c]] == [[c]]; }
  }

  /** The `Connection` matcher on a whole value: what it has heard, and where it stands. */
  lemma {:induction false} ConnectionScan(p: Parser, s: string)
    requires Inv(p) && p.errno.OK? && p.state.SHeaderValueDiscardWs? && p.hs.HConnection? && s != "" && IsValue(s)
    ensures ValueScan(p, s).Some?
    ensures var r := ValueScan(p, s).value; var es := Elements(s); var k := |es| - 1;
            && r == p.(state := SHeaderValue, hs := r.hs, index := r.index, flags := ListFlags(p.flags, es, k))
            && r.hs == ListHs(es) && (PlaceOf(es, k).Seen? ==> CountsLetters(r, es[k]))
    decreases |s|
  {
    hide Inv, ValueStart, ValueByte, Elements, ListHs, PlaceOf, CountsLetters, ListFlags, IsHeaderChar, ConnectionFlags;
    var n := |s| - 1;
    if n == 0 {
      assert s == [s[0]];
      FirstOfList(p, s[0]);
      NothingListed(p.flags, s[0]);
    } else {
      ConnectionScan(p, s[..n]);
      var q, es := ValueScan(p, s[..n]).value, Elements(s[..n]);
      ElementsSnoc(s);
      NotBlankFirst(s[..n]);
      if s[n] == ',' {
        CommaByte(q, es);
        OneMoreElement(q, p.flags, es);
        assert (es + [""])[..|es|] == es[..|es|];
        FlagsAgree(p.flags, es, es + [""], |es|);
        assert (es + [""])[|es|] == "";
      } else {
        NextOfList(q, es, s[n]);
        var fs := Elements(s);
        assert fs[..|es| - 1] == es[..|es| - 1];
        FlagsAgree(p.flags, es, fs, |es| - 1);
      }
    }
  }

  lemma {:induction false} NothingListed(f: Flags, c: char)
    ensures ListFlags(f, Elements([c]), |Elements([c])| - 1) == f
  {
    hide PlaceOf, Elements, Says, HeardIn;
    OneElement(c);
    Words();
    var es := Elements([c]);
    BlanksUnheard(es, |es| - 1, KEEP_ALIVE);
    BlanksUnheard(es, |es| - 1, CLOSE);
    BlanksUnheard(es, |es| - 1, UPGRADE);
    var g := ListFlags(f, es, |es| - 1);
    assert g == f.(keepAlive := f.keepAlive, close := f.close, connectionUpgrade := f.connectionUpgrade);
    assert g == f;
  }

  lemma {:induction false} BlanksUnheard(es: seq<string>, n: nat, w: string)
    requires n <= |es| && Word(w) && forall i :: 0 <= i < n ==> es[i] == ""
    ensures !HeardIn(es, n, w)
  {
    hide PlaceOf, Spells;
    NothingStripped();
  }

  lemma {:induction false} ElementsSnoc(s: string)
    requires s != ""
    ensures var es := Elements(s[..|s| - 1]); var c := s[|s| - 1]; var k := |es| - 1;
            Elements(s) == if c == ',' then es + [""] else es[..k] + [es[k] + [c]]
  {
  }

  /** A single element is the whole text. */
  lemma {:induction false} NotBlankFirst(s: string)
    requires s != "" && s[0] != ' '
    ensures |Elements(s)| == 1 ==> Elements(s) == [s] && Stripped(s) != ""
  {
    hide Elements;
    ElementsJoined(s);
  }

  /** Any other byte of a list. */
  lemma {:induction false} NextOfList(p: Parser, es: seq<string>, c: char)
    requires Inv(p) && p.errno.OK? && p.state.SHeaderValue? && es != [] && p.hs == ListHs(es)
    requires PlaceOf(es, |es| - 1).Seen? ==> CountsLetters(p, es[|es| - 1]) && (|es| == 1 ==> Stripped(es[0]) != "")
    requires c != ',' && c != CR && c != LF && IsHeaderChar(c)
    ensures var r := ValueByte(p, c).p; var k := |es| - 1; var fs := es[..k] + [es[k] + [c]];
            && r == p.(hs := r.hs, index := r.index) && r.hs == ListHs(fs) &&
               (PlaceOf(fs, k).Seen? ==> CountsLetters(r, fs[k]))
  {
    hide Inv, PlaceOf, ElementHs, CountsLetters, IsHeaderChar, ValueByte;
    var k := |es| - 1;
    var fs := es[..k] + [es[k] + [c]];
    PlacesAgree(es, fs, k) by { assert es[..k] == fs[..k]; }
    match PlaceOf(es, k)
    case Seen => ElementByte(p, es[k], k == 0, c);
    case Absorbed => TokenGoesOn(p, c);
    case Ignored => GeneralStays(p, c);
  }

  lemma {:induction false} TokenGoesOn(p: Parser, c: char)
    requires Inv(p) && p.errno.OK? && p.state.SHeaderValue? && p.hs.HMatchingConnectionToken? && c != ','
    ensures ValueByte(p, c) == Take(p, Value)
  {
  }

  /** The flags a whole `Connection` line sets. */
  function SentFlags(f: Flags, s: string): Flags {
    f.(keepAlive := f.keepAlive || Sent(s, KEEP_ALIVE), close := f.close || Sent(s, CLOSE),
       connectionUpgrade := f.connectionUpgrade || Sent(s, UPGRADE))
  }

  /** A whole `Connection` value sets the flags of exactly the tokens the parser hears in it. */
  lemma {:induction false} ConnectionSets(p: Parser, s: string)
    requires Inv(p) && p.errno.OK? && p.state.SHeaderValueDiscardWs? && p.hs.HConnection? && s != "" && IsValue(s)
    ensures ValueScan(p, s).Some? && FinishedFlags(ValueScan(p, s).value) == SentFlags(p.flags, s)
  {
    hide Inv, ValueScan, Elements, PlaceOf, Says, CountsLetters, ConnectionFlags, ElementHs;
    ConnectionScan(p, s);
    var r := ValueScan(p, s).value;
    OneMoreElement(r, p.flags, Elements(s));
    NotChunkedHs(Elements(s));
  }

  lemma {:induction false} NotChunkedHs(es: seq<string>)
    requires es != []
    ensures !ListHs(es).HTransferEncodingChunked?
  {
    hide PlaceOf, Begins, Spells, Stripped;
  }

  // ---------------------------------------------------------------- a line

  /** The run at the start of the next header line, once the line before is known to have ended. */
  function Settled(q: Run): Run {
    if q.p.state.SHeaderValueLws? then q.(p := q.p.(state := SHeaderFieldStart, flags := FinishedFlags(q.p)))
    else if q.p.state.SHeaderValueDiscardLws? then
      q.(p := q.p.(state := SHeaderFieldStart, flags := FinishedFlags(q.p)), log := Emit(q.log, Data(Value, "")))
    else q
  }

  lemma {:induction false} LineGoesOn(cb: Callbacks, p: Parser, ch: char)
    requires Inv(p) && p.errno.OK? && ch != ' ' && ch != TAB
    ensures p.state.SHeaderValueLws? ==>
              Case(cb, p, false, ch) == Redo(p.(flags := FinishedFlags(p)), SHeaderFieldStart)
    ensures p.state.SHeaderValueDiscardLws? ==>
              Case(cb, p, false, ch) ==
              Effect(p.(flags := FinishedFlags(p), state := SHeaderFieldStart), None, None, [Data(Value, "")], Again)
  {
    hide Inv, FinishedFlags, StartCase, UrlCase, ProtocolCase, VersionCase, FieldCase, ValueCase, EndCase, BodyCase;
  }

  /** A byte that is not white space ends the header line before. */
  lemma {:induction false} SettledByte(cb: Callbacks, q: Run, ch: char)
    requires Live(q) && ch != ' ' && ch != TAB
    ensures Live(Settled(q)) && Step(cb, true, q, ch) == Step(cb, true, Settled(q), ch)
  {
    hide Case, Step, Inv, Emit, FinishedFlags;
    LineGoesOn(cb, q.p, ch);
    if q.p.state.SHeaderValueLws? {
      StepAgain(cb, true, q, ch, Effect(Settled(q).p, None, None, [], Again));
    } else if q.p.state.SHeaderValueDiscardLws? {
      var e := Data(Value, "");
      StepAgain(cb, true, q, ch, Effect(Settled(q).p, None, None, [e], Again));
      EmitAllAppend(q.log, [], e);
      assert [] + [e] == [e];
    }
  }

  lemma {:induction false} SettledFold(cb: Callbacks, q: Run, s: string)
    requires Live(q) && s != "" && s[0] != ' ' && s[0] != TAB
    ensures Live(Settled(q)) && Fold(cb, true, q, s) == Fold(cb, true, Settled(q), s)
    decreases |s|
  {
    hide Step, Settled, Live;
    SettledByte(cb, q, s[0]);
    if |s| > 1 { SettledFold(cb, q, s[..|s| - 1]); }
  }

  /** A header line as the encoder writes it. */
  function Line(name: string, value: string): string { name + ": " + value + CRLF }

  predicate IsLength(name: string) { Tokens(name) == CONTENT_LENGTH }

  predicate IsTransferEncoding(name: string) { Tokens(name) == TRANSFER_ENCODING }

  predicate IsUpgrade(name: string) { Tokens(name) == UPGRADE }

  predicate IsConnection(name: string) { Tokens(name) == CONNECTION || Tokens(name) == PROXY_CONNECTION }

  /** A header line that can be sent and read after the framing headers the parser has already seen. */
  predicate LineOk(p: Parser, name: string, value: string) {
    && name != "" && AllTokens(name) && IsValue(value)
    && (IsLength(name) && value != "" ==> AllDigits(value) && ReadDecimal(value).Some? && !p.flags.contentLength)
  }

  /**
   * What a header line changes: the framing flags and the body length, and the flags of the tokens heard in a
   * `Connection` line and of an `Upgrade` line; nothing else that is seen outside.
   */
  predicate LineEffect(p: Parser, r: Parser, name: string, value: string) {
    && r.state.SHeaderFieldStart? && SameRequest(p, r)
    && r.flags.trailing == p.flags.trailing && r.flags.skipBody == p.flags.skipBody
    && (r.flags.chunked <==> p.flags.chunked || (IsTransferEncoding(name) && IsChunkedValue(value)))
    && (r.flags.contentLength <==> p.flags.contentLength || (IsLength(name) && value != ""))
    && r.contentLength ==
       (if IsLength(name) && value != "" && AllDigits(value) then DecimalValue(value) else p.contentLength)
    && (r.flags.close <==> p.flags.close || (IsConnection(name) && Sent(value, CLOSE)))
    && (r.flags.keepAlive <==> p.flags.keepAlive || (IsConnection(name) && Sent(value, KEEP_ALIVE)))
    && (r.flags.connectionUpgrade <==> p.flags.connectionUpgrade || (IsConnection(name) && Sent(value, UPGRADE)))
    && (r.flags.upgrade <==> p.flags.upgrade || (IsUpgrade(name) && value != ""))
  }

  /** The parser after `name: ` at the start of the value. */
  function AtValue(p: Parser, name: string): Parser
    requires name != "" && AllTokens(name)
  {
    p.(state := SHeaderValueDiscardWs, hs := NameState(name).0, index := NameState(name).1)
  }

  lemma {:induction false} NamePart(cb: Callbacks, q: Run, name: string)
    requires Live(q) && q.p.state.SHeaderFieldStart? && name != "" && AllTokens(name) && !LastIs(q.log, Field)
    ensures var r := Moved(q, AtValue(q.p, name), q.log + [Data(Field, name)], |name| + 2);
            Live(r) && Fold(cb, true, q, name + ": ") == r
  {
    hide Step, Case, NameState, Fold, IsToken, Inv, Sane;
    NameSegment(cb, q, name);
    var h := NameState(name);
    var log := q.log + [Data(Field, name)];
    var r := Moved(q, q.p.(state := SHeaderField, hs := h.0, index := h.1), log, |name|);
    ColonNotToken();
    GoByte(cb, q, name, r, ':', AtValue(q.p, name), Some(Field)) by { CaseGroups(cb, r.p, ':'); }
    var r1 := Moved(q, AtValue(q.p, name), log, |name| + 1);
    GoByte(cb, q, name + [':'], r1, ' ', AtValue(q.p, name), None) by { CaseGroups(cb, r1.p, ' '); }
    assert name + [':'] + [' '] == name + ": ";
  }

  lemma {:induction false} ColonNotToken()
    ensures !IsToken(':')
  {
  }

  /** What the value of a header makes of the parser, for the headers that say how the body is framed. */
  lemma {:induction false} FramingEffect(p: Parser, name: string, value: string)
    requires Inv(p) && p.errno.OK? && LineOk(p, name, value) && value != "" && (IsTransferEncoding(name) || IsLength(name))
    ensures Inv(AtValue(p, name)) && ValueScan(AtValue(p, name), value).Some?
    ensures var r := ValueScan(AtValue(p, name), value).value;
            LineEffect(p, r.(state := SHeaderFieldStart, flags := FinishedFlags(r)), name, value)
  {
    hide NameState, ValueScan, Tokens, IsChunkedValue, ReadDecimal, DecimalValue, Sent, IsHeaderChar;
    var q := AtValue(p, name);
    NameRecognized(name);
    NamesApart();
    if IsTransferEncoding(name) { ChunkedScan(q, value); } else { DigitsScan(q, value); }
  }

  /** A length of digits only. */
  lemma {:induction false} DigitsScan(p: Parser, s: string)
    requires Inv(p) && p.errno.OK? && p.state.SHeaderValueDiscardWs? && p.hs.HContentLength? && s != ""
    requires AllDigits(s) && ReadDecimal(s).Some? && !p.flags.contentLength
    ensures ValueScan(p, s) ==
            Some(p.(state := SHeaderValue, index := 0, contentLength := DecimalValue(s),
                  flags := p.flags.(contentLength := true)))
  {
    hide ValueScan, Inv, ReadDecimal, DecimalValue, Squeezed;
    SqueezedSame(s);
    LengthScan(p, s);
    ReadDecimalExact(s);
  }

  /** For a `Connection`. */
  lemma {:induction false} ConnectionEffect(p: Parser, name: string, value: string)
    requires Inv(p) && p.errno.OK? && LineOk(p, name, value) && value != "" && IsConnection(name)
    ensures Inv(AtValue(p, name)) && ValueScan(AtValue(p, name), value).Some?
    ensures var r := ValueScan(AtValue(p, name), value).value;
            LineEffect(p, r.(state := SHeaderFieldStart, flags := FinishedFlags(r)), name, value)
  {
    hide NameState, ValueScan, Tokens, IsChunkedValue, ReadDecimal, DecimalValue, Sent, IsHeaderChar, FinishedFlags;
    var q := AtValue(p, name);
    NameRecognized(name);
    NamesApart();
    OtherScan(q, value);
    ConnectionSets(q, value);
  }

  /** What the value of header `name` makes of the parser. */
  lemma {:induction false} ValueEffect(p: Parser, name: string, value: string)
    requires Inv(p) && p.errno.OK? && LineOk(p, name, value) && value != ""
    ensures Inv(AtValue(p, name)) && ValueScan(AtValue(p, name), value).Some?
    ensures var r := ValueScan(AtValue(p, name), value).value;
            LineEffect(p, r.(state := SHeaderFieldStart, flags := FinishedFlags(r)), name, value)
  {
    hide NameState, ValueScan, Tokens, IsChunkedValue, ReadDecimal, DecimalValue, Sent, IsHeaderChar;
    if IsTransferEncoding(name) || IsLength(name) {
      FramingEffect(p, name, value);
    } else if IsConnection(name) {
      ConnectionEffect(p, name, value);
    } else {
      NameRecognized(name);
      NamesApart();
      OtherScan(AtValue(p, name), value);
    }
  }

  lemma {:induction false} NamesApart()
    ensures CONNECTION != CONTENT_LENGTH && CONNECTION != TRANSFER_ENCODING && CONNECTION != UPGRADE
    ensures PROXY_CONNECTION != CONTENT_LENGTH && PROXY_CONNECTION != TRANSFER_ENCODING && PROXY_CONNECTION != UPGRADE
    ensures UPGRADE != CONTENT_LENGTH && UPGRADE != TRANSFER_ENCODING && CONTENT_LENGTH != TRANSFER_ENCODING
  {
    assert |CONNECTION| == 10 && |PROXY_CONNECTION| == 16 && |CONTENT_LENGTH| == 14 && |TRANSFER_ENCODING| == 17;
    assert |UPGRADE| == 7;
  }

  /** One header line, from the start of the line to the start of the next. */
  lemma {:induction false} LineSegment(cb: Callbacks, q: Run, name: string, value: string)
    requires Live(q) && q.p.state.SHeaderFieldStart? && LineOk(q.p, name, value) && !LastIs(q.log, Field)
    ensures var r := Fold(cb, true, q, Line(name, value)); var t := Settled(r);
            && Live(r) && Live(t) && r.consumed == t.consumed == q.consumed + |Line(name, value)|
            && t.log == q.log + [Data(Field, name), Data(Value, value)] && LineEffect(q.p, t.p, name, value)
  {
    hide Step, Case, NameState, Fold, ValueScan, LineOk, LineEffect, Tokens, IsToken;
    LineParts(q.p, name, value);
    NamePart(cb, q, name);
    var h := name + ": ";
    var r := Moved(q, AtValue(q.p, name), q.log + [Data(Field, name)], |h|);
    if value == "" {
      EmptyLine(cb, q, r, name);
      assert h + CRLF == Line(name, value);
    } else {
      ValueEffect(q.p, name, value);
      ValueSegment(cb, r, value);
      var p := ValueScan(r.p, value).value;
      var r1 := Moved(r, p, r.log + [Data(Value, value)], |value|);
      LineEnd(cb, r1);
      FoldConcat(cb, true, q, h, value);
      FoldConcat(cb, true, q, h + value, CRLF);
      assert h + value + CRLF == Line(name, value);
    }
  }

  lemma {:induction false} LineParts(p: Parser, name: string, value: string)
    requires LineOk(p, name, value)
    ensures name != "" && AllTokens(name) && IsValue(value)
  {
  }

  /** CR LF after a header value. */
  lemma {:induction false} LineEnd(cb: Callbacks, q: Run)
    requires Live(q) && q.p.state.SHeaderValue?
    ensures var r := Moved(q, q.p.(state := SHeaderValueLws), q.log, 2); Live(r) && Fold(cb, true, q, CRLF) == r
  {
    hide Step, Case, Fold, Inv, Sane;
    FoldNothing(cb, q);
    GoByte(cb, q, "", q, CR, q.p.(state := SHeaderAlmostDone), Some(Value)) by { CaseGroups(cb, q.p, CR); }
    assert "" + [CR] == [CR];
    var r := Moved(q, q.p.(state := SHeaderAlmostDone), q.log, 1);
    GoByte(cb, q, [CR], r, LF, q.p.(state := SHeaderValueLws), None) by { CaseGroups(cb, r.p, LF); }
    assert [CR] + [LF] == CRLF;
  }

  /** CR LF where a value could start: the value is empty. */
  lemma {:induction false} EmptyLine(cb: Callbacks, q: Run, r: Run, name: string)
    requires Live(q) && name != "" && AllTokens(name) && !LastIs(q.log, Field)
    requires Live(r) && r == Moved(q, AtValue(q.p, name), q.log + [Data(Field, name)], |name| + 2)
    requires Fold(cb, true, q, name + ": ") == r
    ensures var r1 := Fold(cb, true, q, name + ": " + CRLF); var t := Settled(r1);
            && Live(r1) && Live(t) && r1.consumed == t.consumed == q.consumed + |name| + 4
            && t.log == q.log + [Data(Field, name), Data(Value, "")] && LineEffect(q.p, t.p, name, "")
  {
    hide Step, Case, NameState, Fold, LineEffect, IsToken, FinishedFlags, Inv, Sane;
    var h := name + ": ";
    GoByte(cb, q, h, r, CR, r.p.(state := SHeaderValueDiscardWsAlmostDone), None) by { CaseGroups(cb, r.p, CR); }
    var r1 := Moved(r, r.p.(state := SHeaderValueDiscardWsAlmostDone), r.log, 1);
    GoByte(cb, q, h + [CR], r1, LF, r.p.(state := SHeaderValueDiscardLws), None) by { CaseGroups(cb, r1.p, LF); }
    assert h + [CR] + [LF] == h + CRLF;
    var r2 := Moved(r, r.p.(state := SHeaderValueDiscardLws), r.log, 2);
    assert Fold(cb, true, q, h + CRLF) == r2;
    SettledByte(cb, r2, 'x');
    EmptyEffect(q.p, name);
    assert r.log + [Data(Value, "")] == q.log + [Data(Field, name), Data(Value, "")];
  }

  lemma {:induction false} EmptyEffect(p: Parser, name: string)
    requires name != "" && AllTokens(name)
    ensures var r := AtValue(p, name).(state := SHeaderValueDiscardLws);
            LineEffect(p, r.(state := SHeaderFieldStart, flags := FinishedFlags(r)), name, "")
  {
    hide NameState, Tokens;
  }

  // ---------------------------------------------------------------- a block

  /** The framing a header block announces: chunked or not, and the length if one is given. */
  datatype Frame = Frame(chunked: bool, length: Option<nat>)

  function FrameOf(hs: seq<Header>): Frame {
    if hs == [] then Frame(false, None)
    else
      var f := FrameOf(hs[..|hs| - 1]);
      var h := hs[|hs| - 1];
      Frame(f.chunked || (IsTransferEncoding(h.name) && IsChunkedValue(h.value)),
            if IsLength(h.name) && h.value != "" && AllDigits(h.value) then Some(DecimalValue(h.value)) else f.length)
  }

  /** Header lines that can be sent and read in this order: token names, one-line values, one numeric length. */
  predicate BlockOk(hs: seq<Header>) {
    hs == [] ||
    (var n := |hs| - 1; var h := hs[n];
     && BlockOk(hs[..n]) && h.name != "" && AllTokens(h.name) && IsValue(h.value)
     && (IsLength(h.name) && h.value != "" ==>
           AllDigits(h.value) && ReadDecimal(h.value).Some? && FrameOf(hs[..n]).length.None?))
  }

  function Block(hs: seq<Header>): string {
    if hs == [] then "" else Block(hs[..|hs| - 1]) + Line(hs[|hs| - 1].name, hs[|hs| - 1].value)
  }

  /** The callbacks of a header block: name and value, in order. */
  function BlockEvents(hs: seq<Header>): (es: seq<Event>)
    ensures |es| == 2 * |hs|
    ensures hs != [] ==> LastIs(es, Value)
  {
    if hs == [] then []
    else
      var h := hs[|hs| - 1];
      BlockEvents(hs[..|hs| - 1]) + [Data(Field, h.name), Data(Value, h.value)]
  }

  lemma {:induction false} BlockHasNoVersion(hs: seq<Header>)
    ensures forall i :: 0 <= i < |BlockEvents(hs)| ==> BlockEvents(hs)[i].Data?
  {
    if hs != [] { BlockHasNoVersion(hs[..|hs| - 1]); }
  }

  /** One of the headers is a `Connection` in which the parser hears the token `w`. */
  predicate TokenSent(hs: seq<Header>, w: string) {
    exists i :: 0 <= i < |hs| && IsConnection(hs[i].name) && Sent(hs[i].value, w)
  }

  predicate UpgradeSent(hs: seq<Header>) { exists i :: 0 <= i < |hs| && IsUpgrade(hs[i].name) && hs[i].value != "" }

  /** The flags after a header block, against those before it. */
  predicate FlagsSent(f: Flags, g: Flags, hs: seq<Header>) {
    && (g.close <==> f.close || TokenSent(hs, CLOSE)) && (g.keepAlive <==> f.keepAlive || TokenSent(hs, KEEP_ALIVE))
    && (g.connectionUpgrade <==> f.connectionUpgrade || TokenSent(hs, UPGRADE))
    && (g.upgrade <==> f.upgrade || UpgradeSent(hs))
  }

  lemma {:induction false} SentSnoc(hs: seq<Header>, w: string)
    requires hs != []
    ensures var h := hs[|hs| - 1];
            TokenSent(hs, w) <==> TokenSent(hs[..|hs| - 1], w) || (IsConnection(h.name) && Sent(h.value, w))
    ensures var h := hs[|hs| - 1]; UpgradeSent(hs) <==> UpgradeSent(hs[..|hs| - 1]) || (IsUpgrade(h.name) && h.value != "")
  {
    hide Sent, IsConnection, IsUpgrade;
    var n := |hs| - 1;
    assert forall i :: 0 <= i < n ==> hs[..n][i] == hs[i];
  }

  lemma {:induction false} NoneSent(f: Flags)
    ensures FlagsSent(f, f, [])
  {
  }

  /** The parser's framing fields say what the frame says. */
  predicate Framed(p: Parser, f: Frame) {
    && p.flags.chunked == f.chunked && p.flags.contentLength == f.length.Some?
    && p.contentLength == (if f.length.Some? then f.length.value else ULLONG_MAX)
  }

  lemma {:induction false} BlockSegment(cb: Callbacks, q: Run, hs: seq<Header>)
    requires Live(q) && q.p.state.SHeaderFieldStart? && BlockOk(hs) && Framed(q.p, Frame(false, None))
    requires !LastIs(q.log, Field)
    ensures var r := Fold(cb, true, q, Block(hs)); var t := Settled(r);
            && Live(r) && Live(t) && t.consumed == q.consumed + |Block(hs)| && t.p.state.SHeaderFieldStart?
            && t.log == q.log + BlockEvents(hs) && Framed(t.p, FrameOf(hs)) && SameRequest(q.p, t.p)
            && t.p.flags.trailing == q.p.flags.trailing && t.p.flags.skipBody == q.p.flags.skipBody
            && FlagsSent(q.p.flags, t.p.flags, hs)
    decreases |hs|
  {
    hide Step, Fold, Line, IsToken, IsHeaderChar, Tokens, IsChunkedValue, LineEffect, Settled, IsConnection, AllDigits,
         ReadDecimal, DecimalValue, FlagsSent;
    if hs == [] {
      NoneSent(q.p.flags);
      FoldNothing(cb, q);
      SettledStart(q);
      assert q.log + [] == q.log;
    } else {
      var n := |hs| - 1;
      var h := hs[n];
      BlockSegment(cb, q, hs[..n]);
      var r := Fold(cb, true, q, Block(hs[..n]));
      var t := Settled(r);
      FoldConcat(cb, true, q, Block(hs[..n]), Line(h.name, h.value));
      LineStarts(h.name, h.value);
      SettledFold(cb, r, Line(h.name, h.value));
      LineSegment(cb, t, h.name, h.value);
      LineFrame(t.p, Settled(Fold(cb, true, t, Line(h.name, h.value))).p, hs);
      LineFlags(q.p.flags, t.p, Settled(Fold(cb, true, t, Line(h.name, h.value))).p, hs);
      assert q.log + BlockEvents(hs[..n]) + [Data(Field, h.name), Data(Value, h.value)] == q.log + BlockEvents(hs);
    }
  }

  lemma {:induction false} SettledStart(q: Run)
    requires q.p.state.SHeaderFieldStart?
    ensures Settled(q) == q
  {
  }

  lemma {:induction false} LineStarts(name: string, value: string)
    requires name != "" && AllTokens(name)
    ensures Line(name, value) != "" && Line(name, value)[0] != ' ' && Line(name, value)[0] != TAB
  {
    TokenNotLineEnd(name[0]);
  }

  lemma {:induction false} LineFrame(p: Parser, r: Parser, hs: seq<Header>)
    requires hs != [] && var h := hs[|hs| - 1]; LineEffect(p, r, h.name, h.value)
    requires BlockOk(hs) && Framed(p, FrameOf(hs[..|hs| - 1]))
    ensures Framed(r, FrameOf(hs)) && SameRequest(p, r) && r.state.SHeaderFieldStart?
    ensures r.flags.trailing == p.flags.trailing && r.flags.skipBody == p.flags.skipBody
  {
    hide Sent, IsConnection, IsUpgrade;
  }

  lemma {:induction false} LineFlags(f: Flags, p: Parser, r: Parser, hs: seq<Header>)
    requires hs != [] && var h := hs[|hs| - 1]; LineEffect(p, r, h.name, h.value)
    requires FlagsSent(f, p.flags, hs[..|hs| - 1])
    ensures FlagsSent(f, r.flags, hs)
  {
    hide Sent, IsConnection, IsUpgrade, TokenSent, UpgradeSent, IsLength, IsTransferEncoding, IsChunkedValue, AllDigits;
    SentSnoc(hs, CLOSE);
    SentSnoc(hs, KEEP_ALIVE);
    SentSnoc(hs, UPGRADE);
  }

  // ---------------------------------------------------------------- the end of the headers

  function CompleteEvent(p: Parser): Event {
    HeadersComplete(p.verb, p.major, p.minor, p.flags.chunked, p.contentLength)
  }

  /** The blank line after the headers of a message that has a body. */
  lemma {:induction false} EndWithBody(cb: Callbacks, q: Run)
    requires Live(q) && q.p.state.SHeaderFieldStart? && !q.p.flags.trailing && !q.p.flags.skipBody
    requires !q.p.verb.CONNECT? && cb.headersResult == 0 && !cb.pauseHeaders
    requires !(q.p.flags.chunked && q.p.flags.contentLength) && HasBody(q.p.flags.chunked, q.p.contentLength)
    ensures var up := q.p.flags.upgrade && q.p.flags.connectionUpgrade;
            var p := q.p.(upgrade := up, state := if q.p.flags.chunked then SChunkSizeStart else SBodyIdentity);
            var r := Moved(q, p, q.log + [CompleteEvent(q.p)], 2);
            Live(r) && Fold(cb, true, q, CRLF) == r
  {
    hide Step, Case, Fold, Inv, Sane;
    var done := EndOfHeaders(cb, q);
    FoldNothing(cb, done);
    var up := q.p.flags.upgrade && q.p.flags.connectionUpgrade;
    StepGo(cb, true, done, LF,
           q.p.(upgrade := up, state := if q.p.flags.chunked then SChunkSizeStart else SBodyIdentity), None) by {
             CaseGroups(cb, done.p, LF);
           }
  }

  /** The headers are complete at the LF of the blank line, which is then seen once more. */
  lemma {:induction false} EndOfHeaders(cb: Callbacks, q: Run) returns (done: Run)
    requires Live(q) && q.p.state.SHeaderFieldStart? && !q.p.flags.trailing && !q.p.flags.skipBody
    requires !q.p.verb.CONNECT? && cb.headersResult == 0 && !cb.pauseHeaders
    requires !(q.p.flags.chunked && q.p.flags.contentLength)
    ensures var up := q.p.flags.upgrade && q.p.flags.connectionUpgrade;
            done == Moved(q, q.p.(state := SHeadersDone, upgrade := up), q.log + [CompleteEvent(q.p)], 1)
    ensures Live(done) && Fold(cb, true, q, CRLF) == Step(cb, true, done, LF)
  {
    hide Step, Case, Fold, Inv, Sane;
    FoldNothing(cb, q);
    GoByte(cb, q, "", q, CR, q.p.(state := SHeadersAlmostDone), None) by { CaseGroups(cb, q.p, CR); }
    assert "" + [CR] == [CR];
    var r := Moved(q, q.p.(state := SHeadersAlmostDone), q.log, 1);
    FoldSnoc(cb, true, q, [CR], LF);
    assert [CR] + [LF] == CRLF;
    var up := q.p.flags.upgrade && q.p.flags.connectionUpgrade;
    var e := CompleteEvent(q.p);
    StepAgain(cb, true, r, LF, Effect(q.p.(state := SHeadersDone, upgrade := up), None, None, [e], Again)) by {
      CaseGroups(cb, r.p, LF);
    }
    EmitAllAppend(q.log, [], e);
    assert [] + [e] == [e];
    done := Moved(q, q.p.(state := SHeadersDone, upgrade := up), q.log + [e], 1);
  }

  /** The blank line after the headers of a message without a body. */
  lemma {:induction false} EndWithoutBody(cb: Callbacks, q: Run)
    requires Live(q) && q.p.state.SHeaderFieldStart? && !q.p.flags.trailing && !q.p.flags.skipBody
    requires !q.p.verb.CONNECT? && cb == Callbacks(0, false, true)
    requires !(q.p.flags.chunked && q.p.flags.contentLength) && !HasBody(q.p.flags.chunked, q.p.contentLength)
    ensures var up := q.p.flags.upgrade && q.p.flags.connectionUpgrade;
            var p := q.p.(upgrade := up, state := NewMessage(q.p), errno := Paused);
            Fold(cb, true, q, CRLF) ==
            Run(p, q.log + [CompleteEvent(q.p), MessageComplete], false, true, q.consumed + 2)
  {
    hide Case, Fold;
    var done := EndOfHeaders(cb, q);
    CaseGroups(cb, done.p, LF);
    var e := MessageComplete;
    EmitAllAppend(done.log, [], e);
    assert [] + [e] == [e];
    assert done.log + [e] == q.log + [CompleteEvent(q.p), e];
  }
}
