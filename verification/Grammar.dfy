/**
 * What the parser takes and what it refuses, byte by byte: line ends and blanks it skips, methods, targets, protocol
 * texts, names and chunk sizes it does not accept, folded lines, trailers, and messages without a body.
 */
module Grammar {
  import opened Chars
  import opened Methods
  import opened HeaderNames
  import opened HttpParser
  import opened ByteStream
  import opened Execute
  import opened Recognize
  import opened Lengths
  import opened Segments
  import opened TokenLists
  import opened HeaderLines
  import opened Bodies
  import Url

  /** The run stops at a byte with an error, and nothing more is told. */
  predicate Refused(cb: Callbacks, q: Run, s: string, e: Errno)
    requires Inv(q.p)
  {
    var r := Fold(cb, true, q, s); r.p.errno == e && r.halted && r.log == q.log && r.consumed == q.consumed + |s| - 1
  }

  lemma {:induction false} OneRefused(cb: Callbacks, q: Run, c: char, p: Parser, e: Errno)
    requires Live(q) && Failed(p.(errno := e)) && Case(cb, q.p, false, c) == Err(p, e)
    ensures Refused(cb, q, [c], e)
  {
    hide Case;
    FoldNothing(cb, q);
    FoldSnoc(cb, true, q, "", c);
    assert "" + [c] == [c];
  }

  /** A run that is refused at the byte behind `s`. */
  lemma {:induction false} RefusedLater(cb: Callbacks, q: Run, s: string, r: Run, c: char, e: Errno)
    requires Inv(q.p) && Live(r) && Fold(cb, true, q, s) == r && Refused(cb, r, [c], e)
    ensures var t := Fold(cb, true, q, s + [c]); t.p.errno == e && t.halted && t.log == r.log && t.consumed == r.consumed
  {
    hide Fold;
    FoldConcat(cb, true, q, s, [c]);
  }

  lemma {:induction false} StepStopped(cb: Callbacks, q: Run, c: char)
    requires Inv(q.p) && q.halted
    ensures Step(cb, true, q, c) == q
  {
  }

  // ---------------------------------------------------------------- request line

  /** Line ends in front of a request are skipped. */
  lemma {:induction false} LeadingLineEnds(cb: Callbacks, q: Run, s: string)
    requires Live(q) && q.p.state.SStartReq? && forall i :: 0 <= i < |s| ==> s[i] == CR || s[i] == LF
    ensures Fold(cb, true, q, s) == Moved(q, q.p, q.log, |s|)
    decreases |s|
  {
    hide Step, Case, Fold, Inv, Sane;
    FoldNothing(cb, q);
    if s != "" {
      var n := |s| - 1;
      LeadingLineEnds(cb, q, s[..n]);
      var r := Moved(q, q.p, q.log, n);
      GoByte(cb, q, s[..n], r, s[n], q.p, None) by { CaseGroups(cb, q.p, s[n]); }
      assert s[..n] + [s[n]] == s;
    }
  }

  lemma {:induction false} MethodBytes(m: Method, i: nat, c: char)
    ensures FirstGuess(c).Some? ==> IsAlpha(c)
    ensures i < |MethodString(m)| ==> NextGuess(m, i, ' ').None?
  {
    hide MethodString;
    if i < |MethodString(m)| { NoNul(m, i); }
  }

  /** The method matcher on the wire keeps the guess, or refuses the first letter that fits no method. */
  lemma {:induction false} MethodGuessed(cb: Callbacks, q: Run, s: string)
    requires Live(q) && q.p.state.SStartReq? && s != "" && ' ' !in s && s[0] != CR && s[0] != LF
    ensures var r := Fold(cb, true, q, s);
            match Guess(s)
            case Some(m) =>
              Live(r) && r == Moved(q, q.p.(state := SReqMethod, flags := NO_FLAGS, contentLength := ULLONG_MAX,
                    verb := m, index := |s|),
                                    q.log + [MessageBegin], |s|)
            case None => r.p.errno.InvalidMethod? && r.halted
    decreases |s|
  {
    hide Step, Case, MethodString, FirstGuess, NextGuess, Sane, Inv;
    var n := |s| - 1;
    if n == 0 {
      FirstGuessed(cb, q, s[0]);
      assert s == [s[0]];
    } else {
      MethodGuessed(cb, q, s[..n]);
      var r := Fold(cb, true, q, s[..n]);
      assert s[..n] + [s[n]] == s;
      FoldSnoc(cb, true, q, s[..n], s[n]);
      if Guess(s[..n]).Some? { LetterGuessed(cb, r, s[n]); } else { StepStopped(cb, r, s[n]); }
    }
  }

  lemma {:induction false} FirstGuessed(cb: Callbacks, q: Run, c: char)
    requires Live(q) && q.p.state.SStartReq? && c != CR && c != LF && c != ' '
    ensures var r := Fold(cb, true, q, [c]);
            match FirstGuess(c)
            case Some(m) =>
              Live(r) && r == Moved(q, q.p.(state := SReqMethod, flags := NO_FLAGS, contentLength := ULLONG_MAX,
                    verb := m, index := 1),
                                    q.log + [MessageBegin], 1)
            case None => r.p.errno.InvalidMethod? && r.halted
  {
    hide Step, Case, FirstGuess, IsAlpha;
    MethodBytes(GET, 0, c);
    FoldNothing(cb, q);
    assert "" + [c] == [c];
    CaseGroups(cb, q.p, c);
    if FirstGuess(c).Some? {
      NoteByte(cb, q, "", q, c, q.p.(state := SReqMethod, flags := NO_FLAGS, contentLength := ULLONG_MAX,
                                     verb := FirstGuess(c).value, index := 1), MessageBegin);
    } else {
      var p1 := q.p.(flags := NO_FLAGS, contentLength := ULLONG_MAX);
      OneRefused(cb, q, c, if IsAlpha(c) then p1.(verb := DELETE, index := 1) else p1, InvalidMethod);
    }
  }

  lemma {:induction false} LetterGuessed(cb: Callbacks, q: Run, c: char)
    requires Live(q) && q.p.state.SReqMethod? && c != ' '
    ensures var r := Step(cb, true, q, c);
            match NextGuess(q.p.verb, q.p.index, c)
            case Some(m) => Live(r) && r == Moved(q, q.p.(verb := m, index := q.p.index + 1), q.log, 1)
            case None => r.p.errno.InvalidMethod? && r.halted
  {
    hide Case, NextGuess, MethodString;
    CaseGroups(cb, q.p, c);
  }

  /**
   * The word in front of the first space is taken for a method if and only if it is the name of one; any other word is
   * refused.
   */
  lemma {:induction false} MethodTaken(cb: Callbacks, q: Run, s: string)
    requires Live(q) && q.p.state.SStartReq? && s != "" && ' ' !in s && s[0] != CR && s[0] != LF
    ensures var r := Fold(cb, true, q, s + " ");
            && (forall m :: s == MethodString(m) ==> Live(r) && r.p.state.SReqSpacesBeforeUrl? && r.p.verb == m)
            && ((forall m :: s != MethodString(m)) ==> r.p.errno.InvalidMethod?)
  {
    hide Step, Case, MethodString, FirstGuess, NextGuess, Guess, Sane, Inv;
    MethodGuessed(cb, q, s);
    var r := Fold(cb, true, q, s);
    FoldSnoc(cb, true, q, s, ' ');
    assert s + [' '] == s + " ";
    forall m | s == MethodString(m)
      ensures Guess(s) == Some(m) && At(MethodString(m), |s|) == NUL
    {
      MethodRecognized(s, m);
    }
    if Guess(s).Some? {
      var m := Guess(s).value;
      MethodRecognized(s, m);
      GuessIsPrefix(s);
      SpaceGuessed(cb, r);
    } else {
      StepStopped(cb, r, ' ');
    }
  }

  /** The space behind a guess that is complete, or not. */
  lemma {:induction false} SpaceGuessed(cb: Callbacks, q: Run)
    requires Live(q) && q.p.state.SReqMethod? && q.p.index <= |MethodString(q.p.verb)|
    ensures var r := Step(cb, true, q, ' ');
            if At(MethodString(q.p.verb), q.p.index) == NUL
            then Live(r) && r.p.state.SReqSpacesBeforeUrl? && r.p.verb == q.p.verb
            else r.p.errno.InvalidMethod?
  {
    hide Case, NextGuess, MethodString;
    MethodBytes(q.p.verb, q.p.index, ' ');
    CaseGroups(cb, q.p, ' ');
  }

  /** More than one space may stand between method and target. */
  lemma {:induction false} SpacesBeforeTarget(cb: Callbacks, q: Run, s: string)
    requires Live(q) && q.p.state.SReqSpacesBeforeUrl? && forall i :: 0 <= i < |s| ==> s[i] == ' '
    ensures Fold(cb, true, q, s) == Moved(q, q.p, q.log, |s|)
    decreases |s|
  {
    hide Step, Case, Fold, Inv, Sane;
    FoldNothing(cb, q);
    if s != "" {
      var n := |s| - 1;
      SpacesBeforeTarget(cb, q, s[..n]);
      GoByte(cb, q, s[..n], Moved(q, q.p, q.log, n), ' ', q.p, None) by { CaseGroups(cb, q.p, ' '); }
      assert s[..n] + [' '] == s;
    }
  }

  /** The bytes of a target: the request line is split by the same states as a URL by itself. */
  lemma {:induction false} TargetByte(p: Parser, connect: bool, s: State, c: char)
    requires Inv(p) && p.errno.OK? && connect == p.verb.CONNECT?
    requires if p.state.SReqSpacesBeforeUrl? then s == Url.Start(connect) else UrlState(p.state) && s == p.state
    ensures var t := ParseUrlChar(s, c);
            !t.SDead? ==> c != ' ' && c != CR && c != LF && UrlState(t) &&
                          (if p.state.SReqSpacesBeforeUrl? then StartCase(p, c) else UrlCase(p, c)) ==
                              Take(p.(state := t), Kind.Url)
  {
    hide Inv, IsUserInfoChar, IsUrlChar, IsAlpha;
  }

  /** A target is delivered as one URL, and leaves the parser where the URL leaves the URL parser. */
  lemma {:induction false} TargetSegment(cb: Callbacks, q: Run, s: string)
    requires Live(q) && q.p.state.SReqSpacesBeforeUrl? && s != "" && !LastIs(q.log, Kind.Url)
    requires !Url.StateAfter(q.p.verb.CONNECT?, s).SDead?
    ensures var r := Moved(q, q.p.(state := Url.StateAfter(q.p.verb.CONNECT?, s)), q.log + [Data(Kind.Url, s)], |s|);
            Live(r) && UrlState(r.p.state) && Fold(cb, true, q, s) == r
    decreases |s|
  {
    hide Step, Case, Fold, Emit, LastIs, Inv, Sane, ParseUrlChar, StartCase, UrlCase;
    var n, connect := |s| - 1, q.p.verb.CONNECT?;
    if n == 0 {
      FoldNothing(cb, q);
      EmitStarts(q.log, Kind.Url, s[0]);
      assert "" + [s[0]] == s && s[..0] == "";
      TargetByte(q.p, connect, Url.Start(connect), s[0]);
      TakeByte(cb, q, "", q, s[0], q.p.(state := Url.StateAfter(connect, s)), Kind.Url) by { CaseGroups(cb, q.p, s[0]); }
    } else {
      NotDeadBefore(connect, s);
      TargetSegment(cb, q, s[..n]);
      EmitGrows(q.log, Kind.Url, s[..n], s[n]);
      var r := Moved(q, q.p.(state := Url.StateAfter(connect, s[..n])), q.log + [Data(Kind.Url, s[..n])], n);
      TargetByte(r.p, connect, r.p.state, s[n]);
      TakeByte(cb, q, s[..n], r, s[n], q.p.(state := Url.StateAfter(connect, s)), Kind.Url) by {
        CaseGroups(cb, r.p, s[n]);
      }
      assert s[..n] + [s[n]] == s;
    }
  }

  lemma {:induction false} NotDeadBefore(connect: bool, s: string)
    requires |s| > 1 && !Url.StateAfter(connect, s).SDead?
    ensures !Url.StateAfter(connect, s[..|s| - 1]).SDead?
  {
    if Url.StateAfter(connect, s[..|s| - 1]).SDead? { Url.DeadStays(connect, s, |s| - 1); }
  }

  /** The states in which a target may not end: it has no host yet. */
  predicate Unended(s: State) { s.SReqSchema? || s.SReqSchemaSlash? || s.SReqSchemaSlashSlash? || s.SReqServerStart? }

  /** A byte that cannot continue a target, and does not end it, is refused. */
  lemma {:induction false} TargetRefused(cb: Callbacks, q: Run, c: char)
    requires Live(q) && UrlState(q.p.state) && ParseUrlChar(q.p.state, c).SDead?
    requires (c == ' ' || c == CR || c == LF) ==> Unended(q.p.state)
    ensures Refused(cb, q, [c], InvalidUrl)
  {
    hide Case, Fold, Inv;
    CaseGroups(cb, q.p, c);
    OneRefused(cb, q, c, if Unended(q.p.state) && (c == ' ' || c == CR || c == LF) then q.p else q.p.(state := SDead),
          InvalidUrl);
  }

  /** A target must begin as a URL does. */
  lemma {:induction false} TargetStartRefused(cb: Callbacks, q: Run, c: char)
    requires Live(q) && q.p.state.SReqSpacesBeforeUrl? && c != ' ' && ParseUrlChar(Url.Start(q.p.verb.CONNECT?), c).SDead?
    ensures Refused(cb, q, [c], InvalidUrl)
  {
    hide Case, Fold, Inv, ParseUrlChar;
    CaseGroups(cb, q.p, c);
    OneRefused(cb, q, c, q.p.(state := SDead), InvalidUrl);
  }

  const PROTOCOL_NAME: string := "HTTP/"

  /** The state behind the first letters of the protocol name. */
  function NameReached(i: nat): State {
    if i == 0 then SReqHttpStart else if i == 1 then SReqHttpH else if i == 2 then SReqHttpHT
    else if i == 3 then SReqHttpHTT else SReqHttpHTTP
  }

  /** Behind the target only the protocol name is taken, letter by letter. */
  lemma {:induction false} ProtocolRefused(cb: Callbacks, q: Run, i: nat, c: char)
    requires Live(q) && i < 5 && q.p.state == NameReached(i)
    requires c != PROTOCOL_NAME[i] && !(i == 0 && c == ' ')
    ensures Refused(cb, q, [c], if i == 0 then InvalidConstant else Strict)
  {
    hide Case, Fold, Inv, Sane, Refused;
    CaseGroups(cb, q.p, c);
    OneRefused(cb, q, c, q.p, if i == 0 then InvalidConstant else Strict);
  }

  /** Any number of spaces may stand before it. */
  lemma {:induction false} SpacesBeforeProtocol(cb: Callbacks, q: Run, s: string)
    requires Live(q) && q.p.state.SReqHttpStart? && forall i :: 0 <= i < |s| ==> s[i] == ' '
    ensures Fold(cb, true, q, s) == Moved(q, q.p, q.log, |s|)
    decreases |s|
  {
    hide Step, Case, Fold, Inv, Sane;
    FoldNothing(cb, q);
    if s != "" {
      var n := |s| - 1;
      SpacesBeforeProtocol(cb, q, s[..n]);
      GoByte(cb, q, s[..n], Moved(q, q.p, q.log, n), ' ', q.p, None) by { CaseGroups(cb, q.p, ' '); }
      assert s[..n] + [' '] == s;
    }
  }

  /** Only digits make a version, with a point between its numbers, and it ends with its line. */
  lemma {:induction false} VersionRefused(cb: Callbacks, q: Run, c: char)
    requires Live(q) && VersionState(q.p.state)
    ensures q.p.state.SReqFirstHttpMajor? && (!IsNum(c) || c == '0') ==> Refused(cb, q, [c], InvalidVersion)
    ensures q.p.state.SReqHttpMajor? && !IsNum(c) && c != '.' ==> Refused(cb, q, [c], InvalidVersion)
    ensures q.p.state.SReqFirstHttpMinor? && !IsNum(c) ==> Refused(cb, q, [c], InvalidVersion)
    ensures q.p.state.SReqHttpMinor? && !IsNum(c) && c != CR && c != LF ==> Refused(cb, q, [c], InvalidVersion)
    ensures q.p.state.SReqLineAlmostDone? && c != LF ==> Refused(cb, q, [c], LfExpected)
  {
    hide Case, Fold, Inv, Sane, Refused;
    CaseGroups(cb, q.p, c);
    if q.p.state.SReqLineAlmostDone? {
      if c != LF { OneRefused(cb, q, c, q.p, LfExpected); }
    } else if VersionCase(q.p, c) == Err(q.p, InvalidVersion) {
      OneRefused(cb, q, c, q.p, InvalidVersion);
    }
  }

  // ---------------------------------------------------------------- line ends

  /** A line feed alone ends a request line, a header value, and the headers, just as CR LF does. */
  lemma {:induction false} LineFeedEnds(cb: Callbacks, q: Run)
    requires Live(q)
    ensures PathState(q.p.state) ==>
              Fold(cb, true, q, [LF]) == Moved(q, q.p.(state := SHeaderFieldStart, major := 0, minor := 9), q.log, 1)
    ensures q.p.state.SReqHttpMinor? ==> Fold(cb, true, q, [LF]) == Moved(q, q.p.(state := SHeaderFieldStart), q.log, 1)
    ensures q.p.state.SHeaderValue? ==> Fold(cb, true, q, [LF]) == Moved(q, q.p.(state := SHeaderValueLws), q.log, 1)
    ensures q.p.state.SHeaderValueDiscardWs? ==>
              Fold(cb, true, q, [LF]) == Moved(q, q.p.(state := SHeaderValueDiscardLws), q.log, 1)
  {
    hide Case, Inv, Sane;
    FoldNothing(cb, q);
    FoldSnoc(cb, true, q, "", LF);
    assert "" + [LF] == [LF];
    CaseGroups(cb, q.p, LF);
    if q.p.state.SHeaderValue? {
      var p := q.p.(state := SHeaderAlmostDone);
      StepAgain(cb, true, q, LF, Effect(p, None, Some(Value), [], Again));
      CaseGroups(cb, p, LF);
    }
  }

  /** Instead of CR LF a line feed alone ends the header block; but for the byte it saves, all is the same. */
  lemma {:induction false} BlankLineFeed(cb: Callbacks, q: Run)
    requires Live(q) && q.p.state.SHeaderFieldStart?
    ensures var a, b := Fold(cb, true, q, [LF]), Fold(cb, true, q, CRLF);
            a.p == b.p && a.log == b.log && a.halted == b.halted && a.consumed + 1 == b.consumed
  {
    hide Case, Inv, Sane, Fold, Step;
    FoldNothing(cb, q);
    assert "" + [LF] == [LF] && "" + [CR] == [CR] && [CR] + [LF] == CRLF;
    var p := q.p.(state := SHeadersAlmostDone);
    GoByte(cb, q, "", q, CR, p, None) by { CaseGroups(cb, q.p, CR); }
    FoldSnoc(cb, true, q, [CR], LF);
    FoldSnoc(cb, true, q, "", LF);
    StepAgain(cb, true, q, LF, Effect(p, None, None, [], Again)) by { CaseGroups(cb, q.p, LF); }
    StepShift(cb, Moved(q, p, q.log, 0), LF);
  }

  /** What a byte does does not depend on how many bytes there were before. */
  lemma {:induction false} StepShift(cb: Callbacks, q: Run, c: char)
    requires Live(q)
    ensures var a, b := Step(cb, true, q, c), Step(cb, true, q.(consumed := q.consumed + 1), c);
            a.p == b.p && a.log == b.log && a.halted == b.halted && a.consumed + 1 == b.consumed
    decreases Rank(q.p.state)
  {
    hide Case;
    var e := Case(cb, q.p, false, c);
    if e.ctl.Again? { StepShift(cb, Run(e.p, Noted(q.log, e, c), false, false, q.consumed), c); }
  }

  // ---------------------------------------------------------------- header lines

  /** A header name begins with a token character, and goes on with them up to its colon. */
  lemma {:induction false} NameRefused(cb: Callbacks, q: Run, c: char)
    requires Live(q) && FieldState(q.p.state) && !IsToken(c)
    requires if q.p.state.SHeaderFieldStart? then c != CR && c != LF else c != ':'
    ensures Refused(cb, q, [c], InvalidHeaderToken)
  {
    hide Case, Fold, Inv, Sane, IsToken;
    CaseGroups(cb, q.p, c);
    OneRefused(cb, q, c, q.p, InvalidHeaderToken);
  }

  /** Inside a value control characters are refused, and no others, but for what its meaning forbids. */
  lemma {:induction false} ValueRefused(cb: Callbacks, q: Run, c: char)
    requires Live(q) && q.p.state.SHeaderValue? && c != CR && c != LF
    ensures var control := (c as int < 32 && c != TAB) || c as int == 127;
            if control then Refused(cb, q, [c], InvalidHeaderToken)
            else Fold(cb, true, q, [c]).p.errno in {OK, InvalidContentLength}
  {
    hide Case, Inv, Fold;
    CaseGroups(cb, q.p, c);
    if !IsHeaderChar(c) {
      OneRefused(cb, q, c, q.p, InvalidHeaderToken);
    } else {
      FoldNothing(cb, q);
      FoldSnoc(cb, true, q, "", c);
      assert "" + [c] == [c];
      ValueErrors(q.p, c);
    }
  }

  lemma {:induction false} ValueErrors(p: Parser, c: char)
    requires Inv(p) && p.errno.OK? && p.state.SHeaderValue? && IsHeaderChar(c)
    ensures ValueCase(p, false, c).p.errno in {OK, InvalidContentLength} && !ValueCase(p, false, c).ctl.Return?
    ensures c != CR && c != LF ==> !ValueCase(p, false, c).ctl.Again?
  {
    hide Inv, Sane;
  }

  /** Blanks between the colon and the value are skipped. */
  lemma {:induction false} BlanksBeforeValue(cb: Callbacks, q: Run, s: string)
    requires Live(q) && q.p.state.SHeaderValueDiscardWs? && forall i :: 0 <= i < |s| ==> s[i] == ' ' || s[i] == TAB
    ensures Fold(cb, true, q, s) == Moved(q, q.p, q.log, |s|)
    decreases |s|
  {
    hide Step, Case, Fold, Inv, Sane;
    FoldNothing(cb, q);
    if s != "" {
      var n := |s| - 1;
      BlanksBeforeValue(cb, q, s[..n]);
      GoByte(cb, q, s[..n], Moved(q, q.p, q.log, n), s[n], q.p, None) by { CaseGroups(cb, q.p, s[n]); }
      assert s[..n] + [s[n]] == s;
    }
  }

  /** A line that begins with a blank is the next one of an empty value, whose bytes are still to come. */
  lemma {:induction false} EmptyFolded(cb: Callbacks, q: Run, c: char)
    requires Live(q) && q.p.state.SHeaderValueDiscardLws? && (c == ' ' || c == TAB)
    ensures Fold(cb, true, q, [c]) == Moved(q, q.p.(state := SHeaderValueDiscardWs), q.log, 1)
  {
    hide Step, Case, Fold, Inv, Sane;
    FoldNothing(cb, q);
    GoByte(cb, q, "", q, c, q.p.(state := SHeaderValueDiscardWs), None) by { CaseGroups(cb, q.p, c); }
    assert "" + [c] == [c];
  }

  /**
   * A line that begins with a blank continues the value of the line before, blank included. What that line said about
   * chunks or the connection is forgotten, but for a token that has just begun; and a length cannot be continued.
   */
  lemma {:induction false} ValueFolded(cb: Callbacks, q: Run, c: char)
    requires Live(q) && q.p.state.SHeaderValueLws? && ValueHs(q.p.hs) && (c == ' ' || c == TAB)
    ensures !q.p.hs.HContentLength? ==>
              Fold(cb, true, q, [c]) ==
              Moved(q, q.p.(state := SHeaderValue, index := 0,
                            hs := if q.p.hs.HMatchingConnectionTokenStart? then q.p.hs else HGeneral),
                    Emit(q.log, Data(Value, [c])), 1)
    ensures q.p.hs.HContentLength? ==> Refused(cb, q, [c], InvalidContentLength)
  {
    hide Step, Case, Fold, Inv, Sane, Emit;
    FoldNothing(cb, q);
    FoldSnoc(cb, true, q, "", c);
    assert "" + [c] == [c];
    var p := q.p.(state := SHeaderValueStart);
    StepAgain(cb, true, q, c, Effect(p, None, None, [], Again)) by { CaseGroups(cb, q.p, c); }
    var r := q.(p := p);
    FoldedCase(cb, p, c);
    FoldNothing(cb, r);
    FoldSnoc(cb, true, r, "", c);
    if q.p.hs.HContentLength? {
      OneRefused(cb, r, c, p.(state := SHeaderValue, index := 0), InvalidContentLength);
    } else {
      TakeByte(cb, r, "", r, c, p.(state := SHeaderValue, index := 0,
            hs := if q.p.hs.HMatchingConnectionTokenStart? then q.p.hs else HGeneral), Value);
    }
  }

  lemma {:induction false} FoldedCase(cb: Callbacks, p: Parser, c: char)
    requires Inv(p) && p.errno.OK? && p.state.SHeaderValueStart? && ValueHs(p.hs) && (c == ' ' || c == TAB)
    ensures var r := p.(state := SHeaderValue, index := 0);
            Case(cb, p, false, c) ==
            if p.hs.HContentLength? then Err(r, InvalidContentLength)
            else Take(r.(hs := if p.hs.HMatchingConnectionTokenStart? then p.hs else HGeneral), Value)
  {
    hide Case, Inv, Sane, Lower;
    CaseGroups(cb, p, c);
  }

  // ---------------------------------------------------------------- bodies

  /** What follows a chunk size behind a semicolon or a space is ignored, up to the carriage return. */
  lemma {:induction false} SizeExtension(q: Run, s: string, ext: string)
    requires Live(q) && q.p.state.SChunkSizeStart? && s != "" && AllHex(s) && ReadHex(s).Some? && CR !in s
    requires ext != "" && (ext[0] == ';' || ext[0] == ' ') && CR !in ext
    ensures Fold(CODEC, true, q, s + ext + [CR]) ==
            Moved(q, q.p.(state := SChunkSizeAlmostDone, contentLength := ReadHex(s).value), q.log, |s + ext| + 1)
  {
    hide Step, Case, Fold, Inv, Sane, AllHex, ReadHex;
    SizeDigits(q, s);
    var r := Moved(q, q.p.(state := SChunkSize, contentLength := ReadHex(s).value), q.log, |s|);
    ExtensionBytes(r, ext);
    FoldConcat(CODEC, true, q, s, ext);
    var t := Moved(r, r.p.(state := SChunkParameters), r.log, |ext|);
    GoByte(CODEC, q, s + ext, t, CR, t.p.(state := SChunkSizeAlmostDone), None) by { CaseGroups(CODEC, t.p, CR); }
  }

  lemma {:induction false} ExtensionBytes(q: Run, ext: string)
    requires Live(q) && q.p.state.SChunkSize? && ext != "" && (ext[0] == ';' || ext[0] == ' ') && CR !in ext
    ensures Fold(CODEC, true, q, ext) == Moved(q, q.p.(state := SChunkParameters), q.log, |ext|)
    decreases |ext|
  {
    hide Step, Case, Fold, Inv, Sane;
    var n := |ext| - 1;
    var p := q.p.(state := SChunkParameters);
    if n == 0 {
      FoldNothing(CODEC, q);
      assert "" + [ext[0]] == ext;
      GoByte(CODEC, q, "", q, ext[0], p, None) by { CaseGroups(CODEC, q.p, ext[0]); }
    } else {
      ExtensionBytes(q, ext[..n]);
      GoByte(CODEC, q, ext[..n], Moved(q, p, q.log, n), ext[n], p, None) by { CaseGroups(CODEC, p, ext[n]); }
      assert ext[..n] + [ext[n]] == ext;
    }
  }

  /** Bytes that make no chunk: a size that is none, and anything but CR LF where it has to stand. */
  lemma {:induction false} ChunkRefused(q: Run, c: char)
    requires Live(q) && ChunkState(q.p.state)
    ensures q.p.state.SChunkSizeStart? && UnHex(c) == -1 ==> Refused(CODEC, q, [c], InvalidChunkSize)
    ensures q.p.state.SChunkSize? && UnHex(c) == -1 && c !in {CR, ';', ' '} ==> Refused(CODEC, q, [c], InvalidChunkSize)
    ensures q.p.state.SChunkSizeAlmostDone? && c != LF ==> Refused(CODEC, q, [c], Strict)
    ensures q.p.state.SChunkDataAlmostDone? && c != CR ==> Refused(CODEC, q, [c], Strict)
    ensures q.p.state.SChunkDataDone? && c != LF ==> Refused(CODEC, q, [c], Strict)
  {
    hide Case, Fold, Inv, Sane, Refused, UnHex;
    CaseGroups(CODEC, q.p, c);
    if BodyCase(q.p, c) == Err(q.p, InvalidChunkSize) { OneRefused(CODEC, q, c, q.p, InvalidChunkSize); }
    if BodyCase(q.p, c) == Err(q.p, Strict) { OneRefused(CODEC, q, c, q.p, Strict); }
  }

  /** A CONNECT is complete with its headers, whatever they say about a body. */
  lemma {:induction false} ConnectEnds(q: Run)
    requires Live(q) && q.p.state.SHeaderFieldStart? && !q.p.flags.trailing && !q.p.flags.skipBody && q.p.verb.CONNECT?
    requires !(q.p.flags.chunked && q.p.flags.contentLength)
    ensures Fold(CODEC, true, q, CRLF) ==
            Run(q.p.(upgrade := true, state := NewMessage(q.p), errno := Paused),
                  q.log + [CompleteEvent(q.p), MessageComplete],
                false, true, q.consumed + 2)
  {
    hide Case, Inv, Sane, Step, Fold;
    HeadersEnd(CODEC, q);
    var p := q.p.(state := SHeadersDone, upgrade := true);
    var done := Moved(q, p, q.log + [CompleteEvent(q.p)], 1);
    DoneCompletes(CODEC, done);
  }

  lemma {:induction false} BlankLineStart(cb: Callbacks, q: Run)
    requires Live(q) && q.p.state.SHeaderFieldStart?
    ensures var r := Moved(q, q.p.(state := SHeadersAlmostDone), q.log, 1);
            Live(r) && Fold(cb, true, q, CRLF) == Step(cb, true, r, LF)
  {
    hide Step, Case, Fold, Inv, Sane;
    FoldNothing(cb, q);
    GoByte(cb, q, "", q, CR, q.p.(state := SHeadersAlmostDone), None) by { CaseGroups(cb, q.p, CR); }
    assert "" + [CR] == [CR] && [CR] + [LF] == CRLF;
    FoldSnoc(cb, true, q, [CR], LF);
  }

  lemma {:induction false} OneNote(log: seq<Event>, e: Event)
    requires !e.Data?
    ensures EmitAll(log, [e]) == log + [e]
  {
    EmitAllAppend(log, [], e);
    assert [] + [e] == [e];
  }

  /** The line feed of the blank line, up to the point where it is seen once more. */
  lemma {:induction false} HeadersEnd(cb: Callbacks, q: Run)
    requires Live(q) && q.p.state.SHeaderFieldStart? && !q.p.flags.trailing &&
             !(q.p.flags.chunked && q.p.flags.contentLength)
    requires cb.headersResult in {0, 1, 2} && !cb.pauseHeaders
    ensures var up := (q.p.flags.upgrade && q.p.flags.connectionUpgrade) || q.p.verb.CONNECT? || cb.headersResult == 2;
            var p := q.p.(state := SHeadersDone, upgrade := up,
                  flags := q.p.flags.(skipBody := q.p.flags.skipBody || cb.headersResult != 0));
            var r := Moved(q, p, q.log + [CompleteEvent(q.p)], 1);
            Live(r) && Fold(cb, true, q, CRLF) == Step(cb, true, r, LF)
  {
    hide Step, Case, Fold, Inv, Sane;
    BlankLineStart(cb, q);
    var r := Moved(q, q.p.(state := SHeadersAlmostDone), q.log, 1);
    var up := (q.p.flags.upgrade && q.p.flags.connectionUpgrade) || q.p.verb.CONNECT? || cb.headersResult == 2;
    var p := q.p.(state := SHeadersDone, upgrade := up,
          flags := q.p.flags.(skipBody := q.p.flags.skipBody || cb.headersResult != 0));
    var e := CompleteEvent(q.p);
    StepAgain(cb, true, r, LF, Effect(p, None, None, [e], Again)) by { CaseGroups(cb, r.p, LF); }
    OneNote(q.log, e);
  }

  /** A message that has no body for the parser is complete at once; after a change of protocol the parser stops there. */
  lemma {:induction false} DoneCompletes(cb: Callbacks, q: Run)
    requires Live(q) && q.p.state.SHeadersDone?
    requires (q.p.upgrade && q.p.verb.CONNECT?) || q.p.flags.skipBody || !HasBody(q.p.flags.chunked, q.p.contentLength)
    ensures var r := Step(cb, true, q, LF);
            && r.p == q.p.(state := NewMessage(q.p), errno := if cb.pauseComplete then Paused else OK)
            && r.log == q.log + [MessageComplete] && r.consumed == q.consumed + 1
            && (r.halted <==> cb.pauseComplete || q.p.upgrade) && !r.checked
  {
    hide Case;
    CaseGroups(cb, q.p, LF);
    EmitAllAppend(q.log, [], MessageComplete);
    assert [] + [MessageComplete] == [MessageComplete];
  }

  /** So is a message with a body, at the last byte of it. */
  lemma {:induction false} BodyCompletes(cb: Callbacks, q: Run, c: char)
    requires Live(q) && q.p.state.SBodyIdentity? && q.p.contentLength == 1
    ensures var r := Step(cb, true, q, c); var p := q.p.(contentLength := 0);
            && r.p == p.(state := NewMessage(p), errno := if cb.pauseComplete then Paused else OK)
            && r.log == Emit(q.log, Data(Body, [c])) + [MessageComplete] && r.consumed == q.consumed + 1
            && (r.halted <==> cb.pauseComplete || q.p.upgrade)
  {
    hide Case, Step, Emit, Inv;
    var p := q.p.(contentLength := 0, state := SMessageDone);
    StepAgain(cb, true, q, c, Effect(p, Some(Body), None, [], Again)) by { CaseGroups(cb, q.p, c); }
    DoneStep(cb, Moved(q, p, Emit(q.log, Data(Body, [c])), 0), c);
  }

  lemma {:induction false} DoneStep(cb: Callbacks, q: Run, c: char)
    requires Live(q) && q.p.state.SMessageDone?
    ensures var r := Step(cb, true, q, c);
            && r.p == q.p.(state := NewMessage(q.p), errno := if cb.pauseComplete then Paused else OK)
            && r.log == q.log + [MessageComplete] && r.consumed == q.consumed + 1
            && (r.halted <==> cb.pauseComplete || q.p.upgrade)
  {
    hide Case, Inv;
    CaseGroups(cb, q.p, c);
    EmitAllAppend(q.log, [], MessageComplete);
    assert [] + [MessageComplete] == [MessageComplete];
  }

  /** If the headers callback says so the message has no body; with 2 the connection changes its protocol as well. */
  lemma {:induction false} CallbackSkipsBody(cb: Callbacks, q: Run)
    requires Live(q) && q.p.state.SHeaderFieldStart? && !q.p.flags.trailing &&
             !(q.p.flags.chunked && q.p.flags.contentLength)
    requires cb.headersResult in {1, 2} && !cb.pauseHeaders
    ensures var r := Fold(cb, true, q, CRLF);
            && r.log == q.log + [CompleteEvent(q.p), MessageComplete] && r.consumed == q.consumed + 2
            && (cb.headersResult == 2 ==> r.p.upgrade) && r.p.state == NewMessage(q.p)
  {
    hide Case, Inv, Sane, Step, Fold;
    HeadersEnd(cb, q);
    var up := (q.p.flags.upgrade && q.p.flags.connectionUpgrade) || q.p.verb.CONNECT? || cb.headersResult == 2;
    var p := q.p.(state := SHeadersDone, upgrade := up, flags := q.p.flags.(skipBody := true));
    DoneCompletes(cb, Moved(q, p, q.log + [CompleteEvent(q.p)], 1));
    assert q.log + [CompleteEvent(q.p)] + [MessageComplete] == q.log + [CompleteEvent(q.p), MessageComplete];
  }

  /** A headers callback that fails stops the parser. */
  lemma {:induction false} CallbackFails(cb: Callbacks, q: Run)
    requires Live(q) && q.p.state.SHeaderFieldStart? && !q.p.flags.trailing &&
             !(q.p.flags.chunked && q.p.flags.contentLength)
    requires cb.headersResult !in {0, 1, 2}
    ensures var r := Fold(cb, true, q, CRLF);
            r.p.errno.CbHeadersComplete? && r.halted && r.log == q.log + [CompleteEvent(q.p)] &&
                r.consumed == q.consumed + 1
  {
    hide Case, Fold, Inv;
    BlankLineStart(cb, q);
    CaseGroups(cb, q.p.(state := SHeadersAlmostDone), LF);
    OneNote(q.log, CompleteEvent(q.p));
  }

  /**
   * A headers callback may pause the parser in front of the last byte of the head. Taken up again at that byte, the run
   * ends as if it had not been paused.
   */
  lemma {:induction false} PausedHead(cb: Callbacks, q: Run)
    requires Live(q) && q.p.state.SHeaderFieldStart? && !q.p.flags.trailing &&
             !(q.p.flags.chunked && q.p.flags.contentLength)
    requires cb.headersResult in {0, 1, 2} && cb.pauseHeaders
    ensures var r := Fold(cb, true, q, CRLF);
            && r.p.errno.Paused? && r.halted && r.log == q.log + [CompleteEvent(q.p)] && r.consumed == q.consumed + 1
            && Inv(r.p.(errno := OK))
            && Step(cb, true, Resume(r).(p := r.p.(errno := OK)), LF) == Fold(cb.(pauseHeaders := false), true, q, CRLF)
  {
    hide Case, Fold, Inv, Step;
    var free := cb.(pauseHeaders := false);
    HeadersEnd(free, q);
    PauseByte(cb, q);
    var up := (q.p.flags.upgrade && q.p.flags.connectionUpgrade) || q.p.verb.CONNECT? || cb.headersResult == 2;
    var p := q.p.(state := SHeadersDone, upgrade := up,
          flags := q.p.flags.(skipBody := q.p.flags.skipBody || cb.headersResult != 0));
    DoneAlike(cb, free, Moved(q, p, q.log + [CompleteEvent(q.p)], 1));
  }

  lemma {:induction false} PauseByte(cb: Callbacks, q: Run)
    requires Live(q) && q.p.state.SHeaderFieldStart? && !q.p.flags.trailing &&
             !(q.p.flags.chunked && q.p.flags.contentLength)
    requires cb.headersResult in {0, 1, 2} && cb.pauseHeaders
    ensures var up := (q.p.flags.upgrade && q.p.flags.connectionUpgrade) || q.p.verb.CONNECT? || cb.headersResult == 2;
            var p := q.p.(state := SHeadersDone, upgrade := up,
                  flags := q.p.flags.(skipBody := q.p.flags.skipBody || cb.headersResult != 0));
            Fold(cb, true, q, CRLF) ==
            Run(p.(errno := Paused), q.log + [CompleteEvent(q.p)], false, true, q.consumed + 1)
  {
    hide Case, Fold, Inv;
    BlankLineStart(cb, q);
    CaseGroups(cb, q.p.(state := SHeadersAlmostDone), LF);
    OneNote(q.log, CompleteEvent(q.p));
  }

  lemma {:induction false} DoneAlike(cb: Callbacks, free: Callbacks, q: Run)
    requires Live(q) && q.p.state.SHeadersDone? && free == cb.(pauseHeaders := false)
    ensures Step(cb, true, q, LF) == Step(free, true, q, LF)
  {
    hide Case, Inv;
    CaseGroups(cb, q.p, LF);
    CaseGroups(free, q.p, LF);
  }

  // ---------------------------------------------------------------- trailers

  /** Trailer lines: token names, one-line values, and no length. */
  predicate TrailersOk(hs: seq<Header>) {
    forall i :: 0 <= i < |hs| ==> hs[i].name != "" && AllTokens(hs[i].name) && IsValue(hs[i].value) && !IsLength(hs[i].name)
  }

  /** Trailers come back as headers do. */
  lemma {:induction false} TrailerBlock(cb: Callbacks, q: Run, hs: seq<Header>)
    requires Live(q) && q.p.state.SHeaderFieldStart? && q.p.flags.trailing && TrailersOk(hs) && !LastIs(q.log, Field)
    ensures var r := Fold(cb, true, q, Block(hs)); var t := Settled(r);
            && Live(r) && Live(t) && t.consumed == q.consumed + |Block(hs)| && t.p.state.SHeaderFieldStart?
            && t.log == q.log + BlockEvents(hs) && t.p.flags.trailing && SameRequest(q.p, t.p)
            && FlagsSent(q.p.flags, t.p.flags, hs)
    decreases |hs|
  {
    hide Step, Fold, Line, IsToken, IsHeaderChar, Tokens, IsChunkedValue, Settled, IsConnection, AllDigits, ReadDecimal,
         DecimalValue, FlagsSent, Inv, Sent, IsUpgrade, IsTransferEncoding;
    if hs == [] {
      NoneSent(q.p.flags);
      FoldNothing(cb, q);
      SettledStart(q);
      assert q.log + [] == q.log;
    } else {
      var n := |hs| - 1;
      var h := hs[n];
      assert forall i :: 0 <= i < n ==> hs[..n][i] == hs[i];
      TrailerBlock(cb, q, hs[..n]);
      var r := Fold(cb, true, q, Block(hs[..n]));
      var t := Settled(r);
      FoldConcat(cb, true, q, Block(hs[..n]), Line(h.name, h.value));
      LineStarts(h.name, h.value);
      SettledFold(cb, r, Line(h.name, h.value));
      LineSegment(cb, t, h.name, h.value);
      LineFlags(q.p.flags, t.p, Settled(Fold(cb, true, t, Line(h.name, h.value))).p, hs);
      assert q.log + BlockEvents(hs[..n]) + [Data(Field, h.name), Data(Value, h.value)] == q.log + BlockEvents(hs);
    }
  }

  /** A chunked body with trailers is complete with the blank line behind them. */
  lemma {:induction false} TrailersRead(q: Run, hs: seq<Header>)
    requires Live(q) && q.p.state.SChunkSizeStart? && TrailersOk(hs)
    ensures var w := "0" + CRLF + Block(hs) + CRLF; var r := Fold(CODEC, true, q, w);
            && r.p.errno.Paused? && r.halted && r.consumed == q.consumed + |w|
            && r.log == q.log + [ChunkHeader(0)] + BlockEvents(hs) + [ChunkComplete, MessageComplete]
  {
    hide Step, Case, Fold, Inv, Sane, Block, BlockEvents, Settled, FlagsSent;
    SizeLine(q, 0);
    HexOfZero();
    var p := q.p.(contentLength := 0, flags := q.p.flags.(trailing := true), state := SHeaderFieldStart);
    var r := Moved(q, p, q.log + [ChunkHeader(0)], 3);
    TrailerBlock(CODEC, r, hs);
    var r1 := Fold(CODEC, true, r, Block(hs));
    FoldConcat(CODEC, true, q, "0" + CRLF, Block(hs));
    FoldConcat(CODEC, true, q, "0" + CRLF + Block(hs), CRLF);
    SettledFold(CODEC, r1, CRLF);
    TrailerEnd(Settled(r1));
  }

  // ---------------------------------------------------------------- the end of the connection

  /** The messages begun and not completed. */
  function OpenMessages(log: seq<Event>): int {
    if log == [] then 0 else OpenMessages(log[..|log| - 1]) + Weight(log[|log| - 1])
  }

  function Weight(e: Event): int { if e.MessageBegin? then 1 else if e.MessageComplete? then -1 else 0 }

  lemma {:induction false} OpenEmit(log: seq<Event>, e: Event)
    ensures OpenMessages(Emit(log, e)) == OpenMessages(log) + Weight(e)
  {
    var r := Emit(log, e);
    if e.Data? && LastIs(log, e.kind) {
      assert r[..|log| - 1] == log[..|log| - 1];
    } else {
      assert r[..|log|] == log;
    }
  }

  /** The states between two messages, in which the end of the connection is no error. */
  predicate BetweenMessages(s: State) { s.SDead? || s.SStartReq? }

  /** One message is open unless the parser stands between two. */
  predicate OneOpen(q: Run) { OpenMessages(q.log) == if BetweenMessages(q.p.state) then 0 else 1 }

  /** What one `case` begins and completes. */
  predicate Weighed(p: Parser, e: Effect) {
    e.ctl.Fail? ||
    (|e.notes| <= 1 &&
     (if BetweenMessages(p.state) then 0 else 1) + (if e.notes == [] then 0 else Weight(e.notes[0])) ==
     if BetweenMessages(e.p.state) then 0 else 1)
  }

  lemma {:induction false} LineWeighed(p: Parser, ch: char)
    requires Inv(p) && p.errno.OK?
    ensures StartState(p.state) ==> Weighed(p, StartCase(p, ch))
    ensures UrlState(p.state) ==> Weighed(p, UrlCase(p, ch))
    ensures ProtocolState(p.state) ==> Weighed(p, ProtocolCase(p, ch))
    ensures VersionState(p.state) ==> Weighed(p, VersionCase(p, ch))
  {
    hide Inv, Sane, ParseUrlChar;
  }

  lemma {:induction false} HeaderWeighed(p: Parser, checked: bool, ch: char)
    requires Inv(p) && p.errno.OK?
    ensures FieldState(p.state) ==> Weighed(p, FieldCase(p, ch))
    ensures DiscardState(p.state) ==> Weighed(p, DiscardCase(p, ch))
    ensures p.state.SHeaderValue? ==> Weighed(p, ValueCase(p, checked, ch))
    ensures ValueEdgeState(p.state) ==> Weighed(p, ValueEdgeCase(p, ch))
  {
    hide Inv, Sane, FieldStep, FieldStartHs;
  }

  lemma {:induction false} EndWeighed(cb: Callbacks, p: Parser, ch: char)
    requires Inv(p) && p.errno.OK?
    ensures EndState(p.state) ==> Weighed(p, EndCase(cb, p, ch))
    ensures BodyState(p.state) ==> Weighed(p, BodyCase(p, ch))
  {
    hide Inv, Sane;
  }

  lemma {:induction false} CaseWeighed(cb: Callbacks, p: Parser, checked: bool, ch: char)
    requires Inv(p) && p.errno.OK?
    ensures Weighed(p, Case(cb, p, checked, ch))
  {
    hide Inv, Sane, StartCase, UrlCase, ProtocolCase, VersionCase, FieldCase, DiscardCase, ValueCase, ValueEdgeCase,
         EndCase, BodyCase, Weighed;
    LineWeighed(p, ch);
    HeaderWeighed(p, checked, ch);
    EndWeighed(cb, p, ch);
  }

  lemma {:induction false} NotedWeighed(log: seq<Event>, e: Effect, ch: char)
    requires |e.notes| <= 1
    ensures OpenMessages(Noted(log, e, ch)) == OpenMessages(log) + if e.notes == [] then 0 else Weight(e.notes[0])
  {
    hide Emit, OpenMessages;
    var l := if e.data.Some? then Emit(log, Data(e.data.value, [ch])) else log;
    if e.data.Some? { OpenEmit(log, Data(e.data.value, [ch])); }
    if e.notes != [] {
      assert e.notes == [] + [e.notes[0]];
      EmitAllAppend(l, [], e.notes[0]);
      OpenEmit(l, e.notes[0]);
    }
  }

  lemma {:induction false} DriveWeighed(cb: Callbacks, strict: bool, q: Run, ch: char)
    requires Inv(q.p) && q.p.errno.OK? && OneOpen(q)
    ensures var r := Drive(cb, strict, q, ch); !Failed(r.p) ==> OneOpen(r)
    decreases Rank(q.p.state)
  {
    hide Case, Noted, OpenMessages, Inv;
    var e := Case(cb, q.p, q.checked && !strict, ch);
    CaseWeighed(cb, q.p, q.checked && !strict, ch);
    if !e.ctl.Fail? {
      NotedWeighed(q.log, e, ch);
      if e.ctl.Again? { DriveWeighed(cb, strict, Run(e.p, Noted(q.log, e, ch), false, q.halted, q.consumed), ch); }
    }
  }

  /**
   * Whatever has been read, in any slices: unless the parser has failed, it stands between two messages exactly if
   * every message that was begun has been completed, and never is more than one open. So the end of the connection,
   * which `Execute` takes as an error in any other state, is one exactly in the middle of a message.
   */
  lemma {:induction false} EndOfConnection(cb: Callbacks, strict: bool, q: Run, s: string)
    requires Inv(q.p) && !Failed(q.p) && OneOpen(q)
    ensures var r := Fold(cb, strict, q, s);
            !Failed(r.p) ==> OneOpen(r) && OneOpen(Resume(r)) && (BetweenMessages(r.p.state) <==> OpenMessages(r.log) == 0)
    decreases |s|
  {
    hide Drive, OpenMessages, Inv;
    if s != "" {
      var n := |s| - 1;
      EndOfConnection(cb, strict, q, s[..n]);
      var r := Fold(cb, strict, q, s[..n]);
      if !r.halted && r.p.errno.OK? { DriveWeighed(cb, strict, r, s[n]); }
    }
  }
}
