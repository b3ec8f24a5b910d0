/** What the method matcher and the header name matcher accept: exactly the names they are meant for. */
module Recognize {
  import opened Chars
  import opened Methods
  import opened HttpParser

  // ---------------------------------------------------------------- methods

  /** The method guess after the letters `s`, as the request line matcher keeps it. */
  function Guess(s: string): Option<Method>
    requires s != ""
  {
    var n := |s| - 1;
    if n == 0 then FirstGuess(s[0])
    else
      var g := Guess(s[..n]);
      if g.None? then None else NextGuess(g.value, n, s[n])
  }

  /** The guess always starts with the letters read so far, so the matcher never reads past its string. */
  lemma {:induction false} GuessIsPrefix(s: string)
    requires s != "" && Guess(s).Some?
    ensures s <= MethodString(Guess(s).value)
    decreases |s|
  {
    hide MethodString, FirstGuess, NextGuess;
    var n := |s| - 1;
    if n == 0 {
      FirstIsPrefix(s[0]);
      assert s == [s[0]];
    } else {
      GuessIsPrefix(s[..n]);
      NextGuessExtends(Guess(s[..n]).value, s[..n], s[n]);
      assert s == s[..n] + [s[n]];
    }
  }

  lemma {:induction false} FirstIsPrefix(c: char)
    requires FirstGuess(c).Some?
    ensures [c] <= MethodString(FirstGuess(c).value)
  {
  }

  lemma {:induction false} NextGuessExtends(m: Method, s: string, c: char)
    requires s <= MethodString(m) && NextGuess(m, |s|, c).Some?
    ensures s + [c] <= MethodString(NextGuess(m, |s|, c).value)
  {
    hide MethodString, NextGuess;
    if NextGuess(m, |s|, c) == Some(m) {
      GuessStays(m, s, c);
    } else if |s| == 1 {
      GuessTurnsEarly(m, s, c);
    } else {
      GuessTurnsLate(m, s, c);
    }
  }

  lemma {:induction false} GuessStays(m: Method, s: string, c: char)
    requires s <= MethodString(m) && NextGuess(m, |s|, c) == Some(m)
    ensures s + [c] <= MethodString(m)
  {
    hide MethodString;
  }

  lemma {:induction false} GuessTurnsEarly(m: Method, s: string, c: char)
    requires |s| == 1 && s <= MethodString(m) && NextGuess(m, |s|, c).Some? && NextGuess(m, |s|, c) != Some(m)
    ensures s + [c] <= MethodString(NextGuess(m, |s|, c).value)
  {
    hide IsAlpha;
  }

  lemma {:induction false} GuessTurnsLate(m: Method, s: string, c: char)
    requires |s| != 1 && s <= MethodString(m) && NextGuess(m, |s|, c).Some? && NextGuess(m, |s|, c) != Some(m)
    ensures s + [c] <= MethodString(NextGuess(m, |s|, c).value)
  {
    hide IsAlpha;
  }

  /** The guess held after the first `i` letters of method `m`. */
  function Path(m: Method, i: nat): Method {
    match m
    case PUT => if i <= 1 then POST else m
    case PATCH => if i <= 1 then POST else m
    case PROPFIND => if i <= 1 then POST else m
    case PROPPATCH => if i <= 1 then POST else if i <= 4 then PROPFIND else m
    case PURGE => if i <= 1 then POST else if i <= 2 then PUT else m
    case COPY => if i <= 2 then CONNECT else m
    case CHECKOUT => if i <= 1 then CONNECT else m
    case MOVE => if i <= 1 then MKCOL else m
    case MERGE => if i <= 1 then MKCOL else m
    case MSEARCH => if i <= 1 then MKCOL else m
    case MKACTIVITY => if i <= 2 then MKCOL else m
    case MKCALENDAR => if i <= 3 then MKCOL else m
    case SEARCH => if i <= 1 then SUBSCRIBE else m
    case REBIND => if i <= 2 then REPORT else m
    case LINK => if i <= 1 then LOCK else m
    case UNSUBSCRIBE => if i <= 2 then UNLOCK else m
    case UNBIND => if i <= 2 then UNLOCK else m
    case UNLINK => if i <= 3 then UNLOCK else m
    case _ => m
  }

  lemma {:induction false} PathStep(m: Method, i: nat)
    requires 1 <= i < |MethodString(m)|
    ensures NextGuess(Path(m, i), i, MethodString(m)[i]) == Some(Path(m, i + 1))
  {
    hide MethodString, NextGuess;
    if Path(m, i) == m { PathStays(m, i); } else { PathTurns(m, i); }
  }

  lemma {:induction false} PathStays(m: Method, i: nat)
    requires 1 <= i < |MethodString(m)| && Path(m, i) == m
    ensures NextGuess(m, i, MethodString(m)[i]) == Some(m)
  {
    hide MethodString, Redirect;
    NoNul(m, i);
  }

  lemma {:induction false} PathTurns(m: Method, i: nat)
    requires 1 <= i < |MethodString(m)| && Path(m, i) != m
    ensures NextGuess(Path(m, i), i, MethodString(m)[i]) == Some(Path(m, i + 1))
  {
  }

  lemma {:induction false} PathEnds(m: Method)
    ensures |MethodString(m)| > 0 && Path(m, |MethodString(m)|) == m
    ensures FirstGuess(MethodString(m)[0]) == Some(Path(m, 1)) && IsAlpha(MethodString(m)[0])
  {
  }

  lemma {:induction false} GuessFollowsPath(m: Method, i: nat)
    requires 1 <= i <= |MethodString(m)|
    ensures Guess(MethodString(m)[..i]) == Some(Path(m, i))
  {
    hide MethodString, Path, FirstGuess, NextGuess;
    var s := MethodString(m);
    if i == 1 {
      PathEnds(m);
    } else {
      GuessFollowsPath(m, i - 1);
      PathStep(m, i - 1);
      assert s[..i][..i - 1] == s[..i - 1];
    }
  }

  lemma {:induction false} NoNul(m: Method, i: nat)
    requires i < |MethodString(m)|
    ensures MethodString(m)[i] != NUL && MethodString(m)[i] != ' '
  {
    hide MethodString;
    if |MethodString(m)| <= 5 { ShortNoNul(m, i); }
    else if |MethodString(m)| <= 8 { MiddleNoNul(m, i); }
    else { LongNoNul(m, i); }
  }

  lemma {:induction false} ShortNoNul(m: Method, i: nat)
    requires i < |MethodString(m)| <= 5
    ensures MethodString(m)[i] != NUL && MethodString(m)[i] != ' '
  {
  }

  lemma {:induction false} MiddleNoNul(m: Method, i: nat)
    requires i < |MethodString(m)| && 5 < |MethodString(m)| <= 8
    ensures MethodString(m)[i] != NUL && MethodString(m)[i] != ' '
  {
  }

  lemma {:induction false} LongNoNul(m: Method, i: nat)
    requires i < |MethodString(m)| && |MethodString(m)| > 8
    ensures MethodString(m)[i] != NUL && MethodString(m)[i] != ' '
  {
  }

  /** The matcher takes `s` for method `m`, at the space that ends it, exactly when `s` is the name of `m`. */
  lemma {:induction false} MethodRecognized(s: string, m: Method)
    requires s != ""
    ensures (Guess(s) == Some(m) && At(MethodString(m), |s|) == NUL) <==> s == MethodString(m)
  {
    hide MethodString, Path, FirstGuess, NextGuess, Guess;
    var t := MethodString(m);
    if Guess(s) == Some(m) && At(t, |s|) == NUL {
      GuessIsPrefix(s);
      if |s| < |t| { NoNul(m, |s|); }
    }
    if s == t {
      PathEnds(m);
      GuessFollowsPath(m, |s|);
      assert t[..|s|] == s;
    }
  }

  // ---------------------------------------------------------------- header names

  /** A name as the matcher sees it. */
  function Tokens(s: string): (t: string)
    ensures |t| == |s|
  {
    seq(|s|, i requires 0 <= i < |s| => Token(s[i]))
  }

  predicate AllTokens(s: string) { forall i :: 0 <= i < |s| ==> IsToken(s[i]) }

  /** The header state after the token bytes of a name. */
  function NameState(s: string): (r: (HeaderState, nat))
    requires s != "" && AllTokens(s)
    ensures FieldHs(r.0) && r.1 <= IndexBound(r.0)
  {
    var n := |s| - 1;
    if n == 0 then (FieldStartHs(Token(s[0])), 0)
    else var r := NameState(s[..n]); FieldStep(r.0, r.1, s[n])
  }

  /** The header state a name with the characters `t` (in lower case) should lead to. */
  function Classify(t: string): HeaderState {
    if t == "c" then HC else if t == "co" then HCO else if t == "con" then HCON
    else if t == CONNECTION || t == PROXY_CONNECTION then HConnection
    else if t == CONTENT_LENGTH then HContentLength
    else if t == TRANSFER_ENCODING then HTransferEncoding
    else if t == UPGRADE then HUpgrade
    else if t <= CONNECTION then HMatchingConnection
    else if t <= CONTENT_LENGTH then HMatchingContentLength
    else if t <= PROXY_CONNECTION then HMatchingProxyConnection
    else if t <= TRANSFER_ENCODING then HMatchingTransferEncoding
    else if t <= UPGRADE then HMatchingUpgrade
    else HGeneral
  }

  /** The states in which the matcher is still counting. */
  predicate Matching(h: HeaderState) {
    h.HC? || h.HCO? || h.HCON? || h.HMatchingConnection? || h.HMatchingProxyConnection? ||
    h.HMatchingContentLength? || h.HMatchingTransferEncoding? || h.HMatchingUpgrade?
  }

  lemma {:induction false} PrefixSnoc(t: string, c: char, name: string)
    ensures t + [c] <= name <==> t <= name && |t| < |name| && name[|t|] == c
    ensures t + [c] == name <==> t <= name && |t| + 1 == |name| && name[|t|] == c
  {
    if t <= name && |t| < |name| && name[|t|] == c {
      assert name[..|t| + 1] == name[..|t|] + [c];
    }
    if t + [c] <= name { assert (t + [c])[..|t|] == t; assert (t + [c])[|t|] == c; }
  }

  /** The name matcher is a prefix classifier: this one fact says what every header name leads to. */
  lemma {:induction false} NameStateClassifies(s: string)
    requires s != "" && AllTokens(s)
    ensures NameState(s).0 == Classify(Tokens(s))
    ensures Matching(NameState(s).0) ==> NameState(s).1 == |s| - 1
    decreases |s|
  {
    hide FieldStep, Classify, IsToken, Token;
    var n := |s| - 1;
    if n == 0 {
      FirstClassifies(s[0]);
      assert Tokens(s) == [Token(s[0])];
    } else {
      NameStateClassifies(s[..n]);
      var r := NameState(s[..n]);
      var t := Tokens(s[..n]);
      assert Tokens(s) == t + [Token(s[n])];
      TokenNotSpace(s[n]);
      StepClassifies(t, r.1, s[n]);
    }
  }

  lemma {:induction false} TokenNotSpace(c: char)
    requires IsToken(c)
    ensures c != ' ' && c != NUL && Token(c) != NUL
  {
  }

  lemma {:induction false} FirstClassifies(c: char)
    requires IsToken(c)
    ensures FieldStartHs(Token(c)) == Classify([Token(c)])
  {
    var t := [Token(c)];
    PrefixSnoc("", Token(c), CONNECTION);
    PrefixSnoc("", Token(c), PROXY_CONNECTION);
    PrefixSnoc("", Token(c), CONTENT_LENGTH);
    PrefixSnoc("", Token(c), TRANSFER_ENCODING);
    PrefixSnoc("", Token(c), UPGRADE);
    assert "" + t == t;
  }

  /** What tells the five names apart. */
  lemma {:induction false} NamesDiffer(t: string)
    requires t != ""
    ensures t <= CONNECTION || t <= CONTENT_LENGTH ==> t[0] == 'c'
    ensures t <= PROXY_CONNECTION ==> t[0] == 'p'
    ensures t <= TRANSFER_ENCODING ==> t[0] == 't'
    ensures t <= UPGRADE ==> t[0] == 'u'
    ensures |t| >= 4 ==> (t <= CONNECTION ==> t[3] == 'n') && (t <= CONTENT_LENGTH ==> t[3] == 't')
    ensures |t| <= 3 ==> (t <= CONNECTION <==> t <= CONTENT_LENGTH) && (t <= CONNECTION <==> t == "con"[..|t|])
    ensures t in {"c", "co", "con"} ==> t <= CONNECTION
  {
    assert CONNECTION[..3] == CONTENT_LENGTH[..3] == "con";
    if |t| <= 3 {
      assert "con"[..|t|] == CONNECTION[..|t|] == CONTENT_LENGTH[..|t|];
    }
  }

  predicate ClassifiesStep(t: string, index: nat, c: char)
    requires FieldHs(Classify(t)) && index <= IndexBound(Classify(t)) && IsToken(c)
  {
    var r := FieldStep(Classify(t), index, c);
    r.0 == Classify(t + [Token(c)]) && (Matching(r.0) ==> r.1 == |t|)
  }

  /** One step of the classifier inside "con". */
  lemma {:induction false} StepClassifiesCon(t: string, index: nat, c: char)
    requires t != "" && IsToken(c) && index == |t| - 1 && |t| <= 3 && t <= CONNECTION
    ensures index <= IndexBound(Classify(t)) && ClassifiesStep(t, index, c)
  {
    hide IsToken, Token;
    TokenNotSpace(c);
    NamesDiffer(t);
    NamesDiffer(t + [Token(c)]);
    PrefixSnoc(t, Token(c), "co");
    PrefixSnoc(t, Token(c), "con");
    PrefixSnoc(t, Token(c), CONNECTION);
    PrefixSnoc(t, Token(c), CONTENT_LENGTH);
  }

  /** One step of the classifier beyond "con". */
  lemma {:induction false} StepClassifiesC(t: string, index: nat, c: char)
    requires IsToken(c) && index == |t| - 1 && |t| >= 4 && index <= IndexBound(Classify(t))
    requires t <= CONNECTION || t <= CONTENT_LENGTH
    requires t != CONNECTION && t != CONTENT_LENGTH
    ensures ClassifiesStep(t, index, c)
  {
    hide IsToken, Token;
    TokenNotSpace(c);
    NamesDiffer(t);
    NamesDiffer(t + [Token(c)]);
    PrefixSnoc(t, Token(c), CONNECTION);
    PrefixSnoc(t, Token(c), CONTENT_LENGTH);
  }

  /** One step of the classifier. */
  lemma {:induction false} StepClassifies(t: string, index: nat, c: char)
    requires t != "" && IsToken(c) && FieldHs(Classify(t)) && index <= IndexBound(Classify(t))
    requires Matching(Classify(t)) ==> index == |t| - 1
    ensures ClassifiesStep(t, index, c)
  {
    hide FieldStep, IsToken;
    NamesDiffer(t);
    if (t <= CONNECTION || t <= CONTENT_LENGTH) && t != CONNECTION && t != CONTENT_LENGTH {
      if |t| <= 3 { StepClassifiesCon(t, index, c); } else { StepClassifiesC(t, index, c); }
    } else {
      StepClassifiesOther(t, index, c);
    }
  }

  /** One step beyond any other prefix, or beyond a whole name. */
  lemma {:induction false} StepClassifiesOther(t: string, index: nat, c: char)
    requires t != "" && IsToken(c) && FieldHs(Classify(t)) && index <= IndexBound(Classify(t))
    requires Matching(Classify(t)) ==> index == |t| - 1
    requires !(t <= CONNECTION || t <= CONTENT_LENGTH) || t == CONNECTION || t == CONTENT_LENGTH
    ensures ClassifiesStep(t, index, c)
  {
    hide IsToken, Token, FieldStep;
    NamesDiffer(t);
    if t[0] == 'p' {
      StepClassifiesProxy(t, index, c);
    } else if t[0] == 't' {
      StepClassifiesTransfer(t, index, c);
    } else if t[0] == 'u' {
      StepClassifiesUpgrade(t, index, c);
    } else {
      StepClassifiesNone(t, index, c);
    }
  }

  // The first letters of these three names are their own.

  lemma {:induction false} StepClassifiesProxy(t: string, index: nat, c: char)
    requires t != "" && IsToken(c) && t[0] == 'p' && FieldHs(Classify(t)) && index <= IndexBound(Classify(t))
    requires Matching(Classify(t)) ==> index == |t| - 1
    ensures ClassifiesStep(t, index, c)
  {
    hide IsToken, Token;
    TokenNotSpace(c);
    NamesDiffer(t);
    NamesDiffer(t + [Token(c)]);
    PrefixSnoc(t, Token(c), PROXY_CONNECTION);
  }

  lemma {:induction false} StepClassifiesTransfer(t: string, index: nat, c: char)
    requires t != "" && IsToken(c) && t[0] == 't' && FieldHs(Classify(t)) && index <= IndexBound(Classify(t))
    requires Matching(Classify(t)) ==> index == |t| - 1
    ensures ClassifiesStep(t, index, c)
  {
    hide IsToken, Token;
    TokenNotSpace(c);
    NamesDiffer(t);
    NamesDiffer(t + [Token(c)]);
    PrefixSnoc(t, Token(c), TRANSFER_ENCODING);
  }

  lemma {:induction false} StepClassifiesUpgrade(t: string, index: nat, c: char)
    requires t != "" && IsToken(c) && t[0] == 'u' && FieldHs(Classify(t)) && index <= IndexBound(Classify(t))
    requires Matching(Classify(t)) ==> index == |t| - 1
    ensures ClassifiesStep(t, index, c)
  {
    hide IsToken, Token;
    TokenNotSpace(c);
    NamesDiffer(t);
    NamesDiffer(t + [Token(c)]);
    PrefixSnoc(t, Token(c), UPGRADE);
  }

  /** One step after a name the parser does not act on, or after a whole name. */
  lemma {:induction false} StepClassifiesNone(t: string, index: nat, c: char)
    requires t != "" && IsToken(c) && t[0] != 'p' && t[0] != 't' && t[0] != 'u'
    requires FieldHs(Classify(t)) && index <= IndexBound(Classify(t))
    requires !(t <= CONNECTION || t <= CONTENT_LENGTH) || t == CONNECTION || t == CONTENT_LENGTH
    ensures ClassifiesStep(t, index, c)
  {
    hide IsToken, Token;
    TokenNotSpace(c);
    NamesDiffer(t);
    NamesDiffer(t + [Token(c)]);
    PrefixSnoc(t, Token(c), CONNECTION);
    PrefixSnoc(t, Token(c), CONTENT_LENGTH);
  }

  /** The headers the parser acts on, exactly: no other name reaches a special state, in any letter case. */
  lemma {:induction false} NameRecognized(s: string)
    requires s != "" && AllTokens(s)
    ensures NameState(s).0.HConnection? <==> Tokens(s) == CONNECTION || Tokens(s) == PROXY_CONNECTION
    ensures NameState(s).0.HContentLength? <==> Tokens(s) == CONTENT_LENGTH
    ensures NameState(s).0.HTransferEncoding? <==> Tokens(s) == TRANSFER_ENCODING
    ensures NameState(s).0.HUpgrade? <==> Tokens(s) == UPGRADE
  {
    NameStateClassifies(s);
  }
}
