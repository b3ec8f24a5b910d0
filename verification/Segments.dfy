/** What the byte-by-byte run makes of the pieces of a request: method, URL, protocol, header lines. */
module Segments {
  import opened Chars
  import opened Methods
  import opened HttpParser
  import opened ByteStream
  import opened Recognize
  import opened Lengths

  /** Which `case` a state goes to. */
  lemma {:induction false} CaseGroups(cb: Callbacks, p: Parser, ch: char)
    requires Inv(p) && p.errno.OK?
    ensures StartState(p.state) ==> Case(cb, p, false, ch) == StartCase(p, ch)
    ensures UrlState(p.state) ==> Case(cb, p, false, ch) == UrlCase(p, ch)
    ensures ProtocolState(p.state) ==> Case(cb, p, false, ch) == ProtocolCase(p, ch)
    ensures VersionState(p.state) ==> Case(cb, p, false, ch) == VersionCase(p, ch)
    ensures FieldState(p.state) ==> Case(cb, p, false, ch) == FieldCase(p, ch)
    ensures DiscardState(p.state) ==> Case(cb, p, false, ch) == DiscardCase(p, ch)
    ensures ValueEdgeState(p.state) ==> Case(cb, p, false, ch) == ValueEdgeCase(p, ch)
    ensures p.state.SHeaderValue? ==> Case(cb, p, false, ch) == ValueCase(p, false, ch)
    ensures EndState(p.state) ==> Case(cb, p, false, ch) == EndCase(cb, p, ch)
    ensures BodyState(p.state) ==> Case(cb, p, false, ch) == BodyCase(p, ch)
  {
    hide StartCase, UrlCase, ProtocolCase, VersionCase, FieldCase, DiscardCase, ValueEdgeCase, ValueCase, EndCase,
         BodyCase, Inv, Sane;
  }

  /** A run that stands between bytes, ready for the next one. */
  predicate Live(q: Run) { Inv(q.p) && q.p.errno.OK? && !q.halted && !q.checked }

  /** The run `q` after `n` more bytes, with parser `p` and log `log`. */
  function Moved(q: Run, p: Parser, log: seq<Event>, n: nat): Run { Run(p, log, false, false, q.consumed + n) }

  /** One more byte that only moves the parser on. */
  lemma {:induction false} GoByte(cb: Callbacks, q0: Run, s: string, q: Run, ch: char, p: Parser, flush: Option<Kind>)
    requires Inv(q0.p) && Live(q) && Fold(cb, true, q0, s) == q && !p.state.SHeaderValue?
    requires Case(cb, q.p, false, ch) == Effect(p, None, flush, [], Next)
    ensures Fold(cb, true, q0, s + [ch]) == Moved(q, p, q.log, 1) && Live(Moved(q, p, q.log, 1))
  {
    hide Case, Step;
    FoldSnoc(cb, true, q0, s, ch);
    StepGo(cb, true, q, ch, p, flush);
  }

  /** One more byte of data. */
  lemma {:induction false} TakeByte(cb: Callbacks, q0: Run, s: string, q: Run, ch: char, p: Parser, k: Kind)
    requires Inv(q0.p) && Live(q) && Fold(cb, true, q0, s) == q
    requires Case(cb, q.p, false, ch) == Take(p, k)
    ensures Fold(cb, true, q0, s + [ch]) == Moved(q, p, Emit(q.log, Data(k, [ch])), 1)
    ensures Live(Moved(q, p, Emit(q.log, Data(k, [ch])), 1))
  {
    hide Case, Step;
    FoldSnoc(cb, true, q0, s, ch);
    StepTake(cb, true, q, ch, p, k);
  }

  /** One more byte that raises one notification. */
  lemma {:induction false} NoteByte(cb: Callbacks, q0: Run, s: string, q: Run, ch: char, p: Parser, e: Event)
    requires Inv(q0.p) && Live(q) && Fold(cb, true, q0, s) == q && !p.state.SHeaderValue?
    requires Case(cb, q.p, false, ch) == Effect(p, None, None, [e], Next)
    ensures Fold(cb, true, q0, s + [ch]) == Moved(q, p, Emit(q.log, e), 1) && Live(Moved(q, p, Emit(q.log, e), 1))
  {
    hide Case;
    FoldSnoc(cb, true, q0, s, ch);
    EmitAllAppend(q.log, [], e);
    assert [] + [e] == [e];
  }

  // ---------------------------------------------------------------- method

  function MethodParser(p: Parser, m: Method, i: nat): Parser {
    p.(state := SReqMethod, flags := NO_FLAGS, contentLength := ULLONG_MAX, verb := Path(m, i), index := i)
  }

  lemma {:induction false} MethodLetters(cb: Callbacks, q: Run, m: Method, i: nat)
    requires Live(q) && q.p.state.SStartReq? && 1 <= i <= |MethodString(m)|
    ensures var r := Moved(q, MethodParser(q.p, m, i), q.log + [MessageBegin], i);
            Live(r) && Fold(cb, true, q, MethodString(m)[..i]) == r
  {
    hide MethodString, Path, FirstGuess, NextGuess, Step, Case;
    var s := MethodString(m);
    NoNul(m, i - 1);
    if i == 1 {
      PathEnds(m);
      FirstLetter(cb, q, m);
      assert s[..1] == [s[0]];
    } else {
      MethodLetters(cb, q, m, i - 1);
      PathStep(m, i - 1);
      var r := Moved(q, MethodParser(q.p, m, i - 1), q.log + [MessageBegin], i - 1);
      GoByte(cb, q, s[..i - 1], r, s[i - 1], MethodParser(q.p, m, i), None) by { CaseGroups(cb, r.p, s[i - 1]); }
      assert s[..i] == s[..i - 1] + [s[i - 1]];
    }
  }

  lemma {:induction false} FirstLetter(cb: Callbacks, q: Run, m: Method)
    requires Live(q) && q.p.state.SStartReq? && |MethodString(m)| > 0
    ensures var c := MethodString(m)[0];
            Fold(cb, true, q, [c]) == Moved(q, MethodParser(q.p, m, 1), q.log + [MessageBegin], 1)
  {
    hide MethodString, Path, FirstGuess, Case;
    PathEnds(m);
    var c := MethodString(m)[0];
    NotLineEnd(c);
    NoteByte(cb, q, "", q, c, MethodParser(q.p, m, 1), MessageBegin) by { CaseGroups(cb, q.p, c); }
    assert "" + [c] == [c];
  }

  lemma {:induction false} NotLineEnd(c: char)
    requires IsAlpha(c)
    ensures c != CR && c != LF && c != ' '
  {
  }

  /** A method and the space after it. */
  lemma {:induction false} MethodSegment(cb: Callbacks, q: Run, m: Method)
    requires Live(q) && q.p.state.SStartReq?
    ensures var s := MethodString(m);
            var p := q.p.(state := SReqSpacesBeforeUrl, flags := NO_FLAGS, contentLength := ULLONG_MAX, verb := m,
                          index := |s| + 1);
            var r := Moved(q, p, q.log + [MessageBegin], |s| + 1);
            Live(r) && Fold(cb, true, q, s + " ") == r
  {
    hide MethodString, Path, FirstGuess, NextGuess, Step, Case;
    var s := MethodString(m);
    PathEnds(m);
    MethodLetters(cb, q, m, |s|);
    assert s[..|s|] == s;
    var r := Moved(q, MethodParser(q.p, m, |s|), q.log + [MessageBegin], |s|);
    GoByte(cb, q, s, r, ' ', r.p.(state := SReqSpacesBeforeUrl, index := |s| + 1), None) by {
      CaseGroups(cb, r.p, ' ');
    }
    assert s + [' '] == s + " ";
  }

  // ---------------------------------------------------------------- URL

  /** Any visible ASCII character continues an origin-form URL. */
  predicate IsPathChar(c: char) { 33 <= c as int <= 126 }

  predicate PathState(s: State) {
    s.SReqPath? || s.SReqQueryStringStart? || s.SReqQueryString? || s.SReqFragmentStart? || s.SReqFragment?
  }

  predicate IsPath(s: string) {
    s != "" && (s[0] == '/' || s[0] == '*') && forall i :: 1 <= i < |s| ==> IsPathChar(s[i])
  }

  /** The URL state after the bytes of a path. */
  function PathEnd(s: string): (r: State)
    requires IsPath(s)
    ensures PathState(r)
  {
    if |s| == 1 then SReqPath else ParseUrlChar(PathEnd(s[..|s| - 1]), s[|s| - 1])
  }

  lemma {:induction false} PathFirst(cb: Callbacks, p: Parser, c: char)
    requires Inv(p) && p.errno.OK? && p.state.SReqSpacesBeforeUrl? && !p.verb.CONNECT? && (c == '/' || c == '*')
    ensures Case(cb, p, false, c) == Take(p.(state := SReqPath), Url)
  {
    hide Case, Inv, Sane, IsUrlChar;
    CaseGroups(cb, p, c);
  }

  lemma {:induction false} PathNext(cb: Callbacks, p: Parser, s: string)
    requires Inv(p) && p.errno.OK? && |s| > 1 && IsPath(s) && p.state == PathEnd(s[..|s| - 1])
    ensures Case(cb, p, false, s[|s| - 1]) == Take(p.(state := PathEnd(s)), Url)
  {
    hide Case, Inv, Sane, IsUrlChar, ParseUrlChar;
    CaseGroups(cb, p, s[|s| - 1]);
  }

  lemma {:induction false} PathSegment(cb: Callbacks, q: Run, s: string)
    requires Live(q) && q.p.state.SReqSpacesBeforeUrl? && !q.p.verb.CONNECT? && IsPath(s) && !LastIs(q.log, Url)
    ensures var r := Moved(q, q.p.(state := PathEnd(s)), q.log + [Data(Url, s)], |s|);
            Live(r) && Fold(cb, true, q, s) == r
    decreases |s|
  {
    hide Step, Case, Fold, Emit, LastIs, Inv, Sane, IsUrlChar, ParseUrlChar;
    var n := |s| - 1;
    if n == 0 {
      FoldNothing(cb, q);
      EmitStarts(q.log, Url, s[0]);
      assert "" + [s[0]] == s;
      PathFirst(cb, q.p, s[0]);
      TakeByte(cb, q, "", q, s[0], q.p.(state := SReqPath), Url);
    } else {
      PathSegment(cb, q, s[..n]);
      EmitGrows(q.log, Url, s[..n], s[n]);
      var r := Moved(q, q.p.(state := PathEnd(s[..n])), q.log + [Data(Url, s[..n])], n);
      PathNext(cb, r.p, s);
      TakeByte(cb, q, s[..n], r, s[n], q.p.(state := PathEnd(s)), Url);
      assert s[..n] + [s[n]] == s;
    }
  }

  // ---------------------------------------------------------------- protocol

  /** The numbers of a version: digits, of at most three places but for zeros in front of the second one. */
  predicate IsVersion(a: string, b: string) {
    && a != "" && AllDigits(a) && a[0] != '0' && DecimalValue(a) <= 999
    && b != "" && AllDigits(b) && DecimalValue(b) <= 999
  }

  /** The end of a request line that announces version `a.b`. */
  function Protocol(a: string, b: string): string { " HTTP/" + a + "." + b + CRLF }

  const PROTOCOL: string := " HTTP/1.1\r\n"

  lemma {:induction false} ProtocolOne()
    ensures Protocol("1", "1") == PROTOCOL && IsVersion("1", "1") && DecimalValue("1") == 1
    ensures IsVersion("1", "0") && DecimalValue("0") == 0
  {
    assert "1"[..0] == "" && "0"[..0] == "";
  }

  /** The protocol text gives the version it names. */
  lemma {:induction false} VersionSegment(cb: Callbacks, q: Run, a: string, b: string)
    requires Live(q) && PathState(q.p.state) && IsVersion(a, b)
    ensures var r := Moved(q, q.p.(state := SHeaderFieldStart, major := DecimalValue(a), minor := DecimalValue(b)), q.log,
                           |Protocol(a, b)|);
            Live(r) && Fold(cb, true, q, Protocol(a, b)) == r
  {
    hide Step, Case, Fold, Inv, Sane, AllDigits, DecimalValue;
    FoldNothing(cb, q);
    var p1 := q.p.(state := SReqHttpStart);
    GoByte(cb, q, "", q, ' ', p1, Some(Url)) by { CaseGroups(cb, q.p, ' '); }
    assert "" + [' '] == " ";
    var q1 := Moved(q, p1, q.log, 1);
    ProtocolLetters(cb, q1);
    var q2 := Moved(q1, p1.(state := SReqFirstHttpMajor), q.log, 5);
    VersionNumbers(cb, q2, a, b);
    FoldConcat(cb, true, q, " ", "HTTP/");
    FoldConcat(cb, true, q, " HTTP/", a + "." + b + CRLF);
    assert " " + "HTTP/" == " HTTP/" && " HTTP/" + (a + "." + b + CRLF) == Protocol(a, b);
  }

  lemma {:induction false} ProtocolSegment(cb: Callbacks, q: Run)
    requires Live(q) && PathState(q.p.state)
    ensures var r := Moved(q, q.p.(state := SHeaderFieldStart, major := 1, minor := 1), q.log, 11);
            Live(r) && Fold(cb, true, q, PROTOCOL) == r
  {
    hide Fold, Live, IsVersion, DecimalValue;
    ProtocolOne();
    VersionSegment(cb, q, "1", "1");
  }

  /** A request line that ends behind its URL has version 0.9. */
  lemma {:induction false} ShortLineSegment(cb: Callbacks, q: Run)
    requires Live(q) && PathState(q.p.state)
    ensures var r := Moved(q, q.p.(state := SHeaderFieldStart, major := 0, minor := 9), q.log, 2);
            Live(r) && Fold(cb, true, q, CRLF) == r
  {
    hide Step, Case, Fold, Inv, Sane;
    FoldNothing(cb, q);
    var p1 := q.p.(state := SReqLineAlmostDone, major := 0, minor := 9);
    GoByte(cb, q, "", q, CR, p1, Some(Url)) by { CaseGroups(cb, q.p, CR); }
    assert "" + [CR] == [CR];
    var q1 := Moved(q, p1, q.log, 1);
    GoByte(cb, q, [CR], q1, LF, p1.(state := SHeaderFieldStart), None) by { CaseGroups(cb, q1.p, LF); }
    assert [CR] + [LF] == CRLF;
  }

  lemma {:induction false} FoldNothing(cb: Callbacks, q: Run)
    requires Inv(q.p)
    ensures Fold(cb, true, q, "") == q
  {
  }

  lemma {:induction false} ProtocolLetters(cb: Callbacks, q: Run)
    requires Live(q) && q.p.state.SReqHttpStart?
    ensures var r := Moved(q, q.p.(state := SReqFirstHttpMajor), q.log, 5); Live(r) && Fold(cb, true, q, "HTTP/") == r
  {
    hide Step, Case, Fold, Inv, Sane;
    FoldNothing(cb, q);
    GoByte(cb, q, "", q, 'H', q.p.(state := SReqHttpH), None) by { CaseGroups(cb, q.p, 'H'); }
    assert "" + ['H'] == "H";
    var q1 := Moved(q, q.p.(state := SReqHttpH), q.log, 1);
    GoByte(cb, q, "H", q1, 'T', q.p.(state := SReqHttpHT), None) by { CaseGroups(cb, q1.p, 'T'); }
    assert "H" + ['T'] == "HT";
    var q2 := Moved(q, q.p.(state := SReqHttpHT), q.log, 2);
    GoByte(cb, q, "HT", q2, 'T', q.p.(state := SReqHttpHTT), None) by { CaseGroups(cb, q2.p, 'T'); }
    assert "HT" + ['T'] == "HTT";
    var q3 := Moved(q, q.p.(state := SReqHttpHTT), q.log, 3);
    GoByte(cb, q, "HTT", q3, 'P', q.p.(state := SReqHttpHTTP), None) by { CaseGroups(cb, q3.p, 'P'); }
    assert "HTT" + ['P'] == "HTTP";
    var q4 := Moved(q, q.p.(state := SReqHttpHTTP), q.log, 4);
    GoByte(cb, q, "HTTP", q4, '/', q.p.(state := SReqFirstHttpMajor), None) by { CaseGroups(cb, q4.p, '/'); }
    assert "HTTP" + ['/'] == "HTTP/";
  }

  lemma {:induction false} VersionNumbers(cb: Callbacks, q: Run, a: string, b: string)
    requires Live(q) && q.p.state.SReqFirstHttpMajor? && IsVersion(a, b)
    ensures var r := Moved(q, q.p.(state := SHeaderFieldStart, major := DecimalValue(a), minor := DecimalValue(b)), q.log,
                           |a| + |b| + 3);
            Live(r) && Fold(cb, true, q, a + "." + b + CRLF) == r
  {
    hide Step, Case, Fold, Sane, Inv, AllDigits, DecimalValue;
    MajorDigits(cb, q, a);
    var p1 := q.p.(state := SReqHttpMajor, major := DecimalValue(a));
    var q1 := Moved(q, p1, q.log, |a|);
    var p2 := p1.(state := SReqFirstHttpMinor);
    GoByte(cb, q, a, q1, '.', p2, None) by { CaseGroups(cb, p1, '.'); }
    assert a + ['.'] == a + ".";
    var q2 := Moved(q, p2, q.log, |a| + 1);
    MinorDigits(cb, q2, b);
    FoldConcat(cb, true, q, a + ".", b);
    var p3 := p2.(state := SReqHttpMinor, minor := DecimalValue(b));
    var q3 := Moved(q, p3, q.log, |a| + 1 + |b|);
    var p4 := p3.(state := SReqLineAlmostDone);
    GoByte(cb, q, a + "." + b, q3, CR, p4, None) by { CaseGroups(cb, p3, CR); }
    var q4 := Moved(q, p4, q.log, |a| + 2 + |b|);
    GoByte(cb, q, a + "." + b + [CR], q4, LF, p4.(state := SHeaderFieldStart), None) by { CaseGroups(cb, p4, LF); }
    assert a + "." + b + [CR] + [LF] == a + "." + b + CRLF;
  }

  /** The digits of a number are no smaller than those of any part in front. */
  lemma {:induction false} ValueGrows(s: string)
    requires |s| > 1 && AllDigits(s)
    ensures var n := |s| - 1; AllDigits(s[..n]) && DecimalValue(s) == DecimalValue(s[..n]) * 10 + Digit(s[n])
  {
  }

  lemma {:induction false} OneDigit(s: string)
    requires |s| == 1 && AllDigits(s)
    ensures DecimalValue(s) == Digit(s[0])
  {
    assert s[..0] == "";
  }

  lemma {:induction false} DigitNotPoint(c: char)
    requires IsNum(c)
    ensures c != '.' && c != CR && c != LF
  {
  }

  lemma {:induction false} MajorDigits(cb: Callbacks, q: Run, s: string)
    requires Live(q) && q.p.state.SReqFirstHttpMajor? && s != "" && AllDigits(s) && s[0] != '0' && DecimalValue(s) <= 999
    ensures var r := Moved(q, q.p.(state := SReqHttpMajor, major := DecimalValue(s)), q.log, |s|);
            Live(r) && Fold(cb, true, q, s) == r
    decreases |s|
  {
    hide Step, Case, Fold, Sane, Inv, DecimalValue;
    var n := |s| - 1;
    DigitNotPoint(s[n]);
    if n == 0 {
      OneDigit(s);
      FoldNothing(cb, q);
      assert "" + [s[0]] == s;
      GoByte(cb, q, "", q, s[0], q.p.(state := SReqHttpMajor, major := DecimalValue(s)), None) by {
        CaseGroups(cb, q.p, s[0]);
      }
    } else {
      ValueGrows(s);
      MajorDigits(cb, q, s[..n]);
      var r := Moved(q, q.p.(state := SReqHttpMajor, major := DecimalValue(s[..n])), q.log, n);
      GoByte(cb, q, s[..n], r, s[n], r.p.(major := DecimalValue(s)), None) by { CaseGroups(cb, r.p, s[n]); }
      assert s[..n] + [s[n]] == s;
    }
  }

  lemma {:induction false} MinorDigits(cb: Callbacks, q: Run, s: string)
    requires Live(q) && q.p.state.SReqFirstHttpMinor? && s != "" && AllDigits(s) && DecimalValue(s) <= 999
    ensures var r := Moved(q, q.p.(state := SReqHttpMinor, minor := DecimalValue(s)), q.log, |s|);
            Live(r) && Fold(cb, true, q, s) == r
    decreases |s|
  {
    hide Step, Case, Fold, Sane, Inv, DecimalValue;
    var n := |s| - 1;
    DigitNotPoint(s[n]);
    if n == 0 {
      OneDigit(s);
      FoldNothing(cb, q);
      assert "" + [s[0]] == s;
      GoByte(cb, q, "", q, s[0], q.p.(state := SReqHttpMinor, minor := DecimalValue(s)), None) by {
        CaseGroups(cb, q.p, s[0]);
      }
    } else {
      ValueGrows(s);
      MinorDigits(cb, q, s[..n]);
      var r := Moved(q, q.p.(state := SReqHttpMinor, minor := DecimalValue(s[..n])), q.log, n);
      GoByte(cb, q, s[..n], r, s[n], r.p.(minor := DecimalValue(s)), None) by { CaseGroups(cb, r.p, s[n]); }
      assert s[..n] + [s[n]] == s;
    }
  }

  /** A number above 999 is refused, at the digit that makes it so. */
  lemma {:induction false} NumberTooLarge(cb: Callbacks, q: Run, s: string)
    requires Live(q) && s != "" && AllDigits(s) && DecimalValue(s) > 999
    requires q.p.state.SReqFirstHttpMinor? || (q.p.state.SReqFirstHttpMajor? && s[0] != '0')
    ensures Fold(cb, true, q, s).p.errno.InvalidVersion? && Fold(cb, true, q, s).log == q.log
    decreases |s|
  {
    hide Case, Sane, Inv, DecimalValue;
    var n := |s| - 1;
    if n == 0 {
      OneDigit(s);
    } else {
      ValueGrows(s);
      if DecimalValue(s[..n]) > 999 {
        NumberTooLarge(cb, q, s[..n]);
      } else {
        DigitNotPoint(s[n]);
        if q.p.state.SReqFirstHttpMajor? { MajorDigits(cb, q, s[..n]); } else { MinorDigits(cb, q, s[..n]); }
        CaseGroups(cb, Fold(cb, true, q, s[..n]).p, s[n]);
      }
    }
  }
}
