/**
 * The targets of request lines as texts: which of them the parser takes, and which a URL may begin with. The two share
 * their states, so that one grammar says what both accept.
 */
module Targets {
  import opened Chars
  import opened HttpParser
  import opened ByteStream
  import opened Segments
  import opened Grammar
  import opened UrlText
  import Url

  /**
   * A target in its parts: what stands in front of a host, as far as it goes, the host with user information and port,
   * path, query and fragment.
   */
  datatype Target = Target(scheme: string, mark: string, site: string, path: string, query: Option<string>,
                           fragment: Option<string>) {
    function Text(): string { scheme + mark + site + path + QueryText() + FragmentText() }

    function QueryText(): string { if query.Some? then "?" + query.value else "" }

    function FragmentText(): string { if fragment.Some? then "#" + fragment.value else "" }

    /** A host may stand here: behind "://", and in the target of CONNECT at once. */
    predicate Sited(connect: bool) { connect || mark == "://" }

    predicate Ok(connect: bool) { FrontOk(connect) && SiteOk(connect) && PathOk(connect) && TailOk(connect) }

    predicate FrontOk(connect: bool) {
      && (forall i :: 0 <= i < |scheme| ==> IsAlpha(scheme[i])) && mark <= "://"
      && (scheme == "" ==> mark == "") && (connect ==> scheme == "")
    }

    /** No two '@' side by side. */
    predicate SiteOk(connect: bool) {
      && (!Sited(connect) ==> site == "")
      && (forall i :: 0 <= i < |site| ==> IsServerChar(site[i]) || site[i] == '@')
      && (forall i :: 0 < i < |site| ==> site[i - 1] != '@' || site[i] != '@')
    }

    predicate PathOk(connect: bool) {
      && (forall i :: 0 <= i < |path| ==> IsUrlChar(path[i]))
      && (path != "" ==> if Sited(connect) then path[0] == '/' else scheme == "" && (path[0] == '/' || path[0] == '*'))
    }

    predicate TailOk(connect: bool) {
      && (query.Some? ==> AllTail(query.value) && (path != "" || Sited(connect)))
      && (fragment.Some? ==> (path != "" || query.Some?) && forall i :: 0 <= i < |fragment.value| ==>
           IsFragmentChar(fragment.value[i]))
    }

    /** The target with one more character. */
    function Extended(connect: bool, c: char): Target {
      if fragment.Some? then this.(fragment := Some(fragment.value + [c]))
      else if query.Some? then
        if c == '#' then this.(fragment := Some("")) else this.(query := Some(query.value + [c]))
      else if path != "" then
        if c == '?' then this.(query := Some(""))
        else if c == '#' then this.(fragment := Some(""))
        else this.(path := path + [c])
      else if Sited(connect) then
        if c == '/' then this.(path := "/") else if c == '?' then this.(query := Some("")) else this.(site := site + [c])
      else if scheme != "" then if mark == "" && c != ':' then this.(scheme := scheme + [c]) else this.(mark := mark + [c])
      else if IsAlpha(c) then this.(scheme := [c]) else this.(path := [c])
    }

    /** The target without its last character. */
    function Shortened(): Target {
      if fragment.Some? then this.(fragment := Front(fragment.value))
      else if query.Some? then this.(query := Front(query.value))
      else if path != "" then this.(path := path[..|path| - 1])
      else if site != "" then this.(site := site[..|site| - 1])
      else if mark != "" then this.(mark := mark[..|mark| - 1])
      else if scheme != "" then this.(scheme := scheme[..|scheme| - 1])
      else this
    }
  }

  function Front(s: string): Option<string> { if s == "" then None else Some(s[..|s| - 1]) }

  predicate IsFragmentChar(c: char) { IsUrlChar(c) || c == '?' || c == '#' }

  predicate OnlyHashes(s: string) { forall i :: 0 <= i < |s| ==> s[i] == '#' }

  const NO_TARGET := Target("", "", "", "", None, None)

  /** Where the parser stands behind a target. */
  predicate Leads(connect: bool, d: Target, s: State) {
    if d.fragment.Some? then if OnlyHashes(d.fragment.value) then s.SReqFragmentStart? else s.SReqFragment?
    else if d.query.Some? then if d.query.value == "" then s.SReqQueryStringStart? else s.SReqQueryString?
    else if d.path != "" then s.SReqPath?
    else if d.site != "" then if d.site[|d.site| - 1] == '@' then s.SReqServerWithAt? else s.SReqServer?
    else if d.Sited(connect) then s.SReqServerStart?
    else if d.scheme == "" then s.SReqSpacesBeforeUrl?
    else if d.mark == "" then s.SReqSchema? else if |d.mark| == 1 then s.SReqSchemaSlash? else s.SReqSchemaSlashSlash?
  }

  /** One more character leads from state `s` to a target, or the parser refuses it. */
  predicate GoesOn(connect: bool, d: Target, s: State, c: char) {
    var e, t := d.Extended(connect, c), ParseUrlChar(s, c);
    (t.SDead? <==> !e.Ok(connect)) && (!t.SDead? ==> Leads(connect, e, t))
  }

  /** The text grows by that character. */
  lemma {:induction false} TextGrows(connect: bool, d: Target, c: char)
    requires d.Ok(connect)
    ensures d.Extended(connect, c).Text() == d.Text() + [c]
  {
    hide Target.TailOk, Target.Extended, Target.Text, IsAlpha;
    if d.fragment.Some? || d.query.Some? { RestGrows(connect, d, c); }
    else if d.path != "" || d.Sited(connect) { MiddleGrows(connect, d, c); }
    else { FrontGrows(connect, d, c); }
  }

  lemma {:induction false} RestGrows(connect: bool, d: Target, c: char)
    requires d.fragment.Some? || d.query.Some?
    ensures d.Extended(connect, c).Text() == d.Text() + [c]
  {
    var x := d.scheme + d.mark + d.site + d.path;
    if d.fragment.Some? {
      Appended(x + d.QueryText(), "#" + d.fragment.value, c, "#" + (d.fragment.value + [c]));
    } else {
      TailGrows(x, "?" + d.query.value, "?" + (d.query.value + [c]), c);
    }
  }

  lemma {:induction false} MiddleGrows(connect: bool, d: Target, c: char)
    requires d.fragment.None? && d.query.None? && (d.path != "" || d.Sited(connect))
    ensures d.Extended(connect, c).Text() == d.Text() + [c]
  {
    var f := d.scheme + d.mark;
    if d.path != "" {
      TailGrows(f + d.site, d.path, d.path + [c], c);
      TailGrows(f + d.site + d.path, "", "?", c);
    } else {
      var t := f + d.site + "" + "" + "";
      assert t == f + d.site;
      assert f + d.site + [c] == f + (d.site + [c]);
      assert f + (d.site + [c]) + "" + "" + "" == f + (d.site + [c]);
    }
  }

  lemma {:induction false} FrontGrows(connect: bool, d: Target, c: char)
    requires d.fragment.None? && d.query.None? && d.path == "" && d.site == "" && !d.Sited(connect) &&
             (d.scheme == "" ==> d.mark == "")
    ensures d.Extended(connect, c).Text() == d.Text() + [c]
  {
    var e := d.Extended(connect, c);
    assert d.Text() == d.scheme + d.mark;
    assert e.Text() == e.scheme + e.mark + e.path;
  }

  lemma {:induction false} Appended(x: string, a: string, c: char, b: string)
    requires b == a + [c]
    ensures x + a + [c] == x + b
  {
  }

  lemma {:induction false} TailGrows(x: string, a: string, b: string, c: char)
    ensures b == a + [c] ==> x + b + "" + "" == x + a + "" + "" + [c] && x + b + "" == x + a + "" + [c]
    ensures x + a + "#" == x + a + "" + ['#'] && x + a + "" + "#" == x + a + "" + "" + ['#']
  {
  }

  lemma {:induction false} UrlBytes(c: char)
    ensures IsUrlChar(c) ==> c !in {' ', CR, LF, TAB, '?', '#'} && c as int != 12
    ensures c == '/' || c == '*' ==> IsUrlChar(c)
  {
  }

  lemma {:induction false} HashesGrow(s: string, c: char)
    ensures OnlyHashes(s + [c]) <==> OnlyHashes(s) && c == '#'
  {
    var e := s + [c];
    assert e[|s|] == c && forall i :: 0 <= i < |s| ==> s[i] == e[i];
  }

  lemma {:induction false} MoreFragment(connect: bool, d: Target, s: State, c: char)
    requires d.Ok(connect) && Leads(connect, d, s) && d.fragment.Some?
    ensures GoesOn(connect, d, s, c)
  {
    hide IsAlpha, IsServerChar, IsUrlChar, Target.FrontOk, Target.SiteOk, Target.PathOk;
    UrlBytes(c);
    var e := d.fragment.value + [c];
    assert e[|d.fragment.value|] == c;
    HashesGrow(d.fragment.value, c);
    SamePath(connect, d, d.(fragment := Some(e)));
  }

  lemma {:induction false} MoreQuery(connect: bool, d: Target, s: State, c: char)
    requires d.Ok(connect) && Leads(connect, d, s) && d.fragment.None? && d.query.Some?
    ensures GoesOn(connect, d, s, c)
  {
    hide IsAlpha, IsServerChar, IsUrlChar, Target.FrontOk, Target.SiteOk, Target.PathOk;
    UrlBytes(c);
    var e := d.query.value + [c];
    assert e[|d.query.value|] == c;
    SamePath(connect, d, d.Extended(connect, c));
  }

  /** Query and fragment have no say in what stands before them. */
  lemma {:induction false} SamePath(connect: bool, d: Target, e: Target)
    requires e == d.(query := e.query, fragment := e.fragment)
    ensures e.FrontOk(connect) == d.FrontOk(connect) && e.SiteOk(connect) == d.SiteOk(connect) &&
            e.PathOk(connect) == d.PathOk(connect)
  {
  }

  lemma {:induction false} MorePath(connect: bool, d: Target, s: State, c: char)
    requires d.Ok(connect) && Leads(connect, d, s) && d.fragment.None? && d.query.None? && d.path != ""
    ensures GoesOn(connect, d, s, c)
  {
    hide IsAlpha, IsUserInfoChar;
    var e := d.path + [c];
    assert e[|d.path|] == c && e[0] == d.path[0];
  }

  lemma {:induction false} MoreSite(connect: bool, d: Target, s: State, c: char)
    requires d.Ok(connect) && Leads(connect, d, s) && d.fragment.None? && d.query.None? && d.path == "" && d.Sited(connect)
    ensures GoesOn(connect, d, s, c)
  {
    hide IsAlpha, IsServerChar, IsUrlChar, ServerChar, Target.FrontOk;
    SiteBytes(c);
    UrlBytes('/');
    if c != '/' && c != '?' { SiteGrows(d.site, c); }
    SameFront(connect, d, d.Extended(connect, c));
  }

  lemma {:induction false} SameFront(connect: bool, d: Target, e: Target)
    requires e.scheme == d.scheme && e.mark == d.mark
    ensures e.FrontOk(connect) == d.FrontOk(connect)
  {
  }

  lemma {:induction false} SiteBytes(c: char)
    ensures ServerChar(c) ==
            if c == '/' then SReqPath else if c == '?' then SReqQueryStringStart else if c == '@' then SReqServerWithAt
            else if IsServerChar(c) then SReqServer else SDead
    ensures IsServerChar(c) ==> c !in {'/', '?', '@', ' ', CR, LF, TAB} && c as int != 12
  {
  }

  /** A host with one more character. */
  lemma {:induction false} SiteGrows(site: string, c: char)
    requires forall i :: 0 <= i < |site| ==> IsServerChar(site[i]) || site[i] == '@'
    requires forall i :: 0 < i < |site| ==> site[i - 1] != '@' || site[i] != '@'
    ensures var e := site + [c];
            (IsServerChar(c) || (c == '@' && (site == "" || site[|site| - 1] != '@'))) <==>
            && (forall i :: 0 <= i < |e| ==> IsServerChar(e[i]) || e[i] == '@')
            && (forall i :: 0 < i < |e| ==> e[i - 1] != '@' || e[i] != '@')
  {
    hide IsServerChar;
    var e := site + [c];
    assert e[|site|] == c;
    if site != "" { assert e[|site| - 1] == site[|site| - 1]; }
    SiteBytes(c);
  }

  lemma {:induction false} MoreFront(connect: bool, d: Target, s: State, c: char)
    requires d.Ok(connect) && Leads(connect, d, s) && d.fragment.None? && d.query.None? && d.path == "" && !d.Sited(connect)
    ensures GoesOn(connect, d, s, c)
  {
    hide IsUserInfoChar;
    var e, m := d.scheme + [c], d.mark + [c];
    assert e[|d.scheme|] == c && m[|d.mark|] == c;
    assert d.mark == "://"[..|d.mark|];
    assert m <= "://" <==> c == "://"[|d.mark|];
  }

  /** One more character: the parser goes on exactly if there is still a target. */
  lemma {:induction false} OneMore(connect: bool, d: Target, s: State, c: char)
    requires d.Ok(connect) && Leads(connect, d, s)
    ensures GoesOn(connect, d, s, c) && d.Extended(connect, c).Text() == d.Text() + [c]
  {
    hide GoesOn, Leads, Target.Ok, Target.Extended, Target.Text;
    TextGrows(connect, d, c);
    if d.fragment.Some? { MoreFragment(connect, d, s, c); }
    else if d.query.Some? { MoreQuery(connect, d, s, c); }
    else if d.path != "" { MorePath(connect, d, s, c); }
    else if d.Sited(connect) { MoreSite(connect, d, s, c); }
    else { MoreFront(connect, d, s, c); }
  }

  /** A target is a shorter one and its last character. */
  lemma {:induction false} Peeled(connect: bool, d: Target)
    requires d.Ok(connect) && d != NO_TARGET
    ensures var e := d.Shortened(); var t := d.Text();
            t != "" && e.Ok(connect) && e.Extended(connect, t[|t| - 1]) == d && e.Text() == t[..|t| - 1]
  {
    hide Target.Ok, Target.Extended, Target.Text;
    var c := LastPeeled(connect, d);
    TextGrows(connect, d.Shortened(), c);
  }

  lemma {:induction false} LastPeeled(connect: bool, d: Target) returns (c: char)
    requires d.Ok(connect) && d != NO_TARGET
    ensures d.Shortened().Ok(connect) && d.Shortened().Extended(connect, c) == d
  {
    hide Target.Ok, Target.Extended, Target.Shortened;
    if d.fragment.Some? || d.query.Some? { c := TailPeeled(connect, d); }
    else if d.path != "" { c := PathPeeled(connect, d); }
    else { c := FrontPeeled(connect, d); }
  }

  lemma {:induction false} TailPeeled(connect: bool, d: Target) returns (c: char)
    requires d.Ok(connect) && (d.fragment.Some? || d.query.Some?)
    ensures d.Shortened().Ok(connect) && d.Shortened().Extended(connect, c) == d
  {
    hide IsAlpha, IsServerChar, IsUrlChar, Target.FrontOk, Target.SiteOk, Target.PathOk;
    var v := if d.fragment.Some? then d.fragment.value else d.query.value;
    c := if v != "" then v[|v| - 1] else if d.fragment.Some? then '#' else '?';
    if v != "" { assert v[..|v| - 1] + [c] == v; }
    UrlBytes(c);
    SamePath(connect, d, d.Shortened());
  }

  lemma {:induction false} PathPeeled(connect: bool, d: Target) returns (c: char)
    requires d.Ok(connect) && d.fragment.None? && d.query.None? && d.path != ""
    ensures d.Shortened().Ok(connect) && d.Shortened().Extended(connect, c) == d
  {
    hide IsServerChar, IsUrlChar, Target.FrontOk, Target.SiteOk, Target.PathOk, IsAlpha;
    var n := |d.path| - 1;
    c := d.path[n];
    PathShorter(connect, d);
    SameSite(connect, d, d.(path := d.path[..n]));
    if n == 0 { assert d.path[..n] == "" && d.path == [c]; } else { assert d.path[..n] != ""; }
  }

  lemma {:induction false} PathShorter(connect: bool, d: Target)
    requires d.PathOk(connect) && d.path != ""
    ensures var n := |d.path| - 1; var c := d.path[n];
            && d.(path := d.path[..n]).PathOk(connect) && d.path[..n] + [c] == d.path && c != '?' && c != '#'
            && (n == 0 ==> if d.Sited(connect) then c == '/' else d.scheme == "" && !IsAlpha(c))
  {
    hide IsUrlChar, IsAlpha;
    var c := d.path[|d.path| - 1];
    UrlBytes(c);
    Letters(c);
  }

  lemma {:induction false} Letters(c: char)
    ensures c == '/' || c == '*' ==> !IsAlpha(c)
  {
  }

  /** The path has no say in what stands before it. */
  lemma {:induction false} SameSite(connect: bool, d: Target, e: Target)
    requires e == d.(path := e.path)
    ensures e.FrontOk(connect) == d.FrontOk(connect) && e.SiteOk(connect) == d.SiteOk(connect)
    ensures d.FrontOk(connect) && d.SiteOk(connect) && !d.Sited(connect) && d.scheme == "" ==> d.mark == "" && d.site == ""
  {
  }

  lemma {:induction false} FrontPeeled(connect: bool, d: Target) returns (c: char)
    requires d.Ok(connect) && d.fragment.None? && d.query.None? && d.path == "" && d != NO_TARGET
    ensures d.Shortened().Ok(connect) && d.Shortened().Extended(connect, c) == d
  {
    hide IsServerChar, IsUrlChar;
    if d.site != "" {
      c := d.site[|d.site| - 1];
      SiteBytes(c);
      assert d.site[..|d.site| - 1] + [c] == d.site;
    } else if d.mark != "" {
      c := d.mark[|d.mark| - 1];
      assert d.mark[..|d.mark| - 1] + [c] == d.mark && c == "://"[|d.mark| - 1];
    } else {
      c := d.scheme[|d.scheme| - 1];
      assert d.scheme[..|d.scheme| - 1] + [c] == d.scheme;
    }
  }

  /** A target is read to its end. */
  lemma {:induction false} TargetRead(connect: bool, d: Target)
    requires d.Ok(connect)
    ensures var s := Url.StateAfter(connect, d.Text()); !s.SDead? && Leads(connect, d, s)
    decreases |d.Text()|
  {
    hide Target.Ok, Target.Extended, Target.Shortened, ParseUrlChar, Leads, Target.Text;
    if d == NO_TARGET {
      NothingRead(connect);
    } else {
      Peeled(connect, d);
      var e, t := d.Shortened(), d.Text();
      TargetRead(connect, e);
      OneMore(connect, e, Url.StateAfter(connect, e.Text()), t[|t| - 1]);
    }
  }

  lemma {:induction false} NothingRead(connect: bool)
    ensures NO_TARGET.Ok(connect) && NO_TARGET.Text() == "" && Leads(connect, NO_TARGET, Url.StateAfter(connect, ""))
  {
  }

  /** What has been read is a target. */
  lemma {:induction false} TargetParts(connect: bool, t: string) returns (d: Target)
    requires !Url.StateAfter(connect, t).SDead?
    ensures d.Ok(connect) && d.Text() == t && Leads(connect, d, Url.StateAfter(connect, t))
    decreases |t|
  {
    hide Target.Ok, Target.Extended, ParseUrlChar, Leads, Target.Text;
    if t == "" {
      NothingRead(connect);
      d := NO_TARGET;
    } else {
      var n := |t| - 1;
      if Url.StateAfter(connect, t[..n]).SDead? { Url.DeadStays(connect, t, n); }
      var e := TargetParts(connect, t[..n]);
      OneMore(connect, e, Url.StateAfter(connect, t[..n]), t[n]);
      d := e.Extended(connect, t[n]);
      assert t[..n] + [t[n]] == t;
    }
  }

  /** The texts the states of a URL take are exactly the targets. */
  lemma {:induction false} TargetGrammar(connect: bool, t: string)
    ensures !Url.StateAfter(connect, t).SDead? <==> exists d: Target :: d.Ok(connect) && d.Text() == t
  {
    hide Target.Ok, Target.Text, Leads;
    if !Url.StateAfter(connect, t).SDead? { var d := TargetParts(connect, t); }
    if d: Target :| d.Ok(connect) && d.Text() == t { TargetRead(connect, d); }
  }

  // ---------------------------------------------------------------- on the request line

  /** A target that goes as far as a host or a path may end. */
  ghost predicate Whole(connect: bool, t: string) {
    exists d: Target :: d.Ok(connect) && d.Text() == t && Ends(d)
  }

  predicate Ends(d: Target) { d.site != "" || d.path != "" || d.query.Some? }

  lemma {:induction false} WholeEnds(connect: bool, t: string)
    ensures var s := Url.StateAfter(connect, t);
            Whole(connect, t) <==> !s.SDead? && !s.SReqSpacesBeforeUrl? && !Unended(s)
  {
    hide Target.Ok, Target.Text;
    var s := Url.StateAfter(connect, t);
    if Whole(connect, t) {
      var d: Target :| d.Ok(connect) && d.Text() == t && Ends(d);
      TargetRead(connect, d);
      EndsSo(connect, d, s);
    }
    if !s.SDead? {
      var d := TargetParts(connect, t);
      EndsSo(connect, d, s);
    }
  }

  lemma {:induction false} EndsSo(connect: bool, d: Target, s: State)
    requires d.Ok(connect) && Leads(connect, d, s)
    ensures Ends(d) <==> !s.SReqSpacesBeforeUrl? && !Unended(s)
  {
    hide IsAlpha, IsServerChar, IsUrlChar;
  }

  /** The run over what may be the first part of a target. */
  lemma {:induction false} TargetRun(cb: Callbacks, q: Run, t: string)
    requires Live(q) && q.p.state.SReqSpacesBeforeUrl? && t != "" && !LastIs(q.log, Kind.Url)
    requires forall i :: 0 <= i < |t| ==> t[i] != ' ' && t[i] != CR && t[i] != LF
    requires Url.StateAfter(q.p.verb.CONNECT?, t).SDead?
    ensures var r := Fold(cb, true, q, t); r.p.errno.InvalidUrl? && r.halted
    decreases |t|
  {
    hide Step, Case, Fold, Inv, Sane, ParseUrlChar, LastIs, UrlState;
    var n, connect := |t| - 1, q.p.verb.CONNECT?;
    assert t[..n] + [t[n]] == t;
    if n == 0 {
      TargetStartRefused(cb, q, t[0]);
      assert t[..0] == "" && t == [t[0]];
    } else if Url.StateAfter(connect, t[..n]).SDead? {
      TargetRun(cb, q, t[..n]);
      FoldSnoc(cb, true, q, t[..n], t[n]);
      StepStopped(cb, Fold(cb, true, q, t[..n]), t[n]);
    } else {
      TargetSegment(cb, q, t[..n]);
      var r := Fold(cb, true, q, t[..n]);
      TargetRefused(cb, r, t[n]);
      RefusedLater(cb, q, t[..n], r, t[n], InvalidUrl);
    }
  }

  /**
   * What stands between the spaces of a request line is taken as a URL, and delivered in one piece, if and only if it
   * is a whole target; anything else is refused.
   */
  lemma {:induction false} TargetTaken(cb: Callbacks, q: Run, t: string)
    requires Live(q) && q.p.state.SReqSpacesBeforeUrl? && t != "" && !LastIs(q.log, Kind.Url)
    requires forall i :: 0 <= i < |t| ==> t[i] != ' ' && t[i] != CR && t[i] != LF
    ensures var r := Fold(cb, true, q, t + " ");
            if Whole(q.p.verb.CONNECT?, t)
            then r == Moved(q, q.p.(state := SReqHttpStart), q.log + [Data(Kind.Url, t)], |t| + 1) && Live(r)
            else r.p.errno.InvalidUrl? && r.halted
  {
    hide Step, Case, Fold, Inv, Sane, ParseUrlChar, LastIs, Whole;
    var connect := q.p.verb.CONNECT?;
    WholeEnds(connect, t);
    assert t + [' '] == t + " ";
    if Url.StateAfter(connect, t).SDead? {
      TargetRun(cb, q, t);
      FoldSnoc(cb, true, q, t, ' ');
      StepStopped(cb, Fold(cb, true, q, t), ' ');
    } else {
      TargetSegment(cb, q, t);
      var r := Fold(cb, true, q, t);
      SpaceBehind(cb, r);
      FoldSnoc(cb, true, q, t, ' ');
    }
  }

  lemma {:induction false} SpaceBehind(cb: Callbacks, q: Run)
    requires Live(q) && UrlState(q.p.state)
    ensures var r := Step(cb, true, q, ' ');
            if Unended(q.p.state) then r.p.errno.InvalidUrl? && r.halted
            else r == Moved(q, q.p.(state := SReqHttpStart), q.log, 1) && Live(r)
  {
    hide Case;
    CaseGroups(cb, q.p, ' ');
  }

  // ---------------------------------------------------------------- URLs by themselves

  function MarkLevels(mark: string): seq<nat> {
    if |mark| == 0 then [] else if |mark| == 1 then [11] else if |mark| == 2 then [11, 12] else [11, 12, 13]
  }

  function QueryLevels(query: Option<string>): seq<nat> { if query.Some? then [51] + Const(60, |query.value|) else [] }

  function FragmentLevels(fragment: Option<string>): seq<nat> {
    if fragment.Some? then [61] + HashLevels(fragment.value) else []
  }

  /** Further '#' in front of a fragment do not belong to it. */
  function HashLevels(s: string): (r: seq<nat>)
    ensures |r| == |s|
  {
    seq(|s|, i requires 0 <= i < |s| => if OnlyHashes(s[..i + 1]) then 61 else 70)
  }

  /** The level the first loop gives to every byte of a target. */
  function TargetLevels(d: Target): seq<nat> {
    Const(10, |d.scheme|) + MarkLevels(d.mark) + Const(30, |d.site|) + Const(50, |d.path|) + QueryLevels(d.query) +
    FragmentLevels(d.fragment)
  }

  lemma {:induction false} GroupGrows<T>(x: seq<T>, a: seq<T>, c: T, b: seq<T>)
    requires b == a + [c]
    ensures x + b == x + a + [c]
  {
  }

  /** One more byte has the level of the state it leads to. */
  lemma {:induction false} LevelsGrow(connect: bool, d: Target, c: char, s: State)
    requires d.Ok(connect) && d.Extended(connect, c).Ok(connect) && Leads(connect, d.Extended(connect, c), s)
    ensures TargetLevels(d.Extended(connect, c)) == TargetLevels(d) + [Url.Level(s)]
  {
    hide IsAlpha, IsServerChar, IsUrlChar;
    if d.fragment.Some? || d.query.Some? { TailLevelsGrow(connect, d, c, s); }
    else if d.path != "" || d.Sited(connect) { MiddleLevelsGrow(connect, d, c, s); }
    else { FrontLevelsGrow(connect, d, c, s); }
  }

  lemma {:induction false} HashLevelsGrow(s: string, c: char)
    ensures HashLevels(s + [c]) == HashLevels(s) + [if OnlyHashes(s + [c]) then 61 else 70]
  {
    var e := s + [c];
    assert e[..|s| + 1] == e;
    forall i | 0 <= i < |s|
      ensures HashLevels(e)[i] == HashLevels(s)[i]
    {
      assert e[..i + 1] == s[..i + 1];
    }
  }

  lemma {:induction false} TailLevelsGrow(connect: bool, d: Target, c: char, s: State)
    requires Leads(connect, d.Extended(connect, c), s) && (d.fragment.Some? || d.query.Some?)
    ensures TargetLevels(d.Extended(connect, c)) == TargetLevels(d) + [Url.Level(s)]
  {
    var x := Const(10, |d.scheme|) + MarkLevels(d.mark) + Const(30, |d.site|) + Const(50, |d.path|);
    var e := d.Extended(connect, c);
    if d.fragment.Some? {
      var v := d.fragment.value;
      HashLevelsGrow(v, c);
      GroupGrows(x + QueryLevels(d.query), FragmentLevels(d.fragment), Url.Level(s), FragmentLevels(e.fragment));
    } else if c == '#' {
      assert OnlyHashes("") && FragmentLevels(e.fragment) == [61];
    } else {
      GroupGrows(x, QueryLevels(d.query), 60, QueryLevels(e.query));
      assert x + QueryLevels(e.query) + [] == x + QueryLevels(e.query);
      assert x + QueryLevels(d.query) + [] == x + QueryLevels(d.query);
    }
  }

  lemma {:induction false} MiddleLevelsGrow(connect: bool, d: Target, c: char, s: State)
    requires Leads(connect, d.Extended(connect, c), s) && d.fragment.None? && d.query.None? &&
             (d.path != "" || d.Sited(connect))
    ensures TargetLevels(d.Extended(connect, c)) == TargetLevels(d) + [Url.Level(s)]
  {
    var x := Const(10, |d.scheme|) + MarkLevels(d.mark);
    var y := x + Const(30, |d.site|);
    if d.path != "" && c != '?' && c != '#' {
      GroupGrows(y, Const(50, |d.path|), 50, Const(50, |d.path| + 1));
    } else if d.path == "" && c != '?' && c != '/' {
      GroupGrows(x, Const(30, |d.site|), 30, Const(30, |d.site| + 1));
    }
    assert OnlyHashes("") && Const(50, 1) == [50] && Const(60, 0) == [] && Const(50, 0) == [];
    assert TargetLevels(d) == y + Const(50, |d.path|);
  }

  lemma {:induction false} FrontLevelsGrow(connect: bool, d: Target, c: char, s: State)
    requires d.Ok(connect) && d.Extended(connect, c).Ok(connect) && Leads(connect, d.Extended(connect, c), s)
    requires d.fragment.None? && d.query.None? && d.path == "" && !d.Sited(connect)
    ensures TargetLevels(d.Extended(connect, c)) == TargetLevels(d) + [Url.Level(s)]
  {
    hide IsAlpha, Target.PathOk, Target.TailOk, Target.Ok, Target.SiteOk, IsServerChar, MarkLevels, TargetLevels;
    FrontBare(connect, d, c);
    JustFront(d);
    JustFront(d.Extended(connect, c));
    if d.scheme == "" {
      assert Const(10, 1) == [10] && Const(50, 1) == [50] && Const(10, 0) == [] && Const(50, 0) == [];
    } else if d.mark == "" && c != ':' {
      GroupGrows([], Const(10, |d.scheme|), 10, Const(10, |d.scheme| + 1));
    } else {
      MarkGrows(d.mark, c);
      GroupGrows(Const(10, |d.scheme|), MarkLevels(d.mark), Url.Level(s), MarkLevels(d.mark + [c]));
    }
  }

  lemma {:induction false} FrontBare(connect: bool, d: Target, c: char)
    requires d.Ok(connect) && d.Extended(connect, c).Ok(connect) && !d.Sited(connect)
    ensures d.site == "" && d.mark <= "://" && d.Extended(connect, c).mark <= "://" && (d.scheme == "" ==> d.mark == "")
  {
    hide Target.Extended, IsAlpha, IsServerChar, Target.PathOk, Target.TailOk;
  }

  lemma {:induction false} JustFront(d: Target)
    requires d.fragment.None? && d.query.None? && d.site == ""
    ensures TargetLevels(d) == Const(10, |d.scheme|) + MarkLevels(d.mark) + Const(50, |d.path|)
    ensures d.path == "" ==> TargetLevels(d) == Const(10, |d.scheme|) + MarkLevels(d.mark)
    ensures MarkLevels("") == []
  {
  }

  lemma {:induction false} MarkGrows(mark: string, c: char)
    requires mark + [c] <= "://"
    ensures MarkLevels(mark + [c]) == MarkLevels(mark) + [11 + |mark|]
    ensures |mark| < 3 && (|mark| == 2 ==> mark + [c] == "://")
  {
  }

  /** What the first loop makes of a target. */
  lemma {:induction false} TargetScanned(connect: bool, d: Target)
    requires d.Ok(connect)
    ensures var t := d.Text();
            Url.Levels(connect, t) == TargetLevels(d) && (Url.MeetsAt(connect, t, |t|) <==> '@' in d.site)
    decreases |d.Text()|
  {
    hide Target.Ok, Target.Extended, Target.Shortened, ParseUrlChar, Leads, Target.Text, TargetLevels, Url.Level,
         Url.Levels, Url.MeetsAt;
    if d == NO_TARGET {
      NothingScanned(connect);
    } else {
      Peeled(connect, d);
      var e, t := d.Shortened(), d.Text();
      var c, s := t[|t| - 1], Url.StateAfter(connect, e.Text());
      TargetScanned(connect, e);
      TargetRead(connect, e);
      OneMore(connect, e, s, c);
      TargetRead(connect, d);
      LevelsGrow(connect, e, c, ParseUrlChar(s, c));
      OneMoreUrlByte(connect, e.Text(), c);
      assert t == e.Text() + [c];
      AtSigns(connect, e, c, ParseUrlChar(s, c));
    }
  }

  lemma {:induction false} NothingScanned(connect: bool)
    ensures NO_TARGET.Text() == "" && Url.Levels(connect, "") == TargetLevels(NO_TARGET) == [] &&
            !Url.MeetsAt(connect, "", 0)
  {
  }

  lemma {:induction false} AtSigns(connect: bool, d: Target, c: char, s: State)
    requires d.Ok(connect) && d.Extended(connect, c).Ok(connect) && Leads(connect, d.Extended(connect, c), s)
    ensures '@' in d.Extended(connect, c).site <==> '@' in d.site || s.SReqServerWithAt?
  {
    hide IsAlpha, Target.FrontOk, Target.PathOk, Target.TailOk;
    if d.Extended(connect, c).site != d.site { assert (d.site + [c])[|d.site|] == c; }
  }

  /** What stands before and behind the host. */
  function FrontLevels(d: Target): seq<nat> { Const(10, |d.scheme|) + MarkLevels(d.mark) }

  function BehindLevels(d: Target): seq<nat> { Const(50, |d.path|) + QueryLevels(d.query) + FragmentLevels(d.fragment) }

  lemma {:induction false} LevelsApart(connect: bool, d: Target)
    requires d.Ok(connect)
    ensures TargetLevels(d) == FrontLevels(d) + Const(30, |d.site|) + BehindLevels(d) &&
            |FrontLevels(d)| == |d.scheme + d.mark|
    ensures AllUnder(FrontLevels(d), 14) && AllOver(BehindLevels(d), 49)
  {
    var f, s, p, q := FrontLevels(d), Const(30, |d.site|), Const(50, |d.path|), QueryLevels(d.query);
    assert f + s + p + q + FragmentLevels(d.fragment) == f + s + (p + q + FragmentLevels(d.fragment));
    assert AllOver(q, 49) && AllOver(FragmentLevels(d.fragment), 49) && AllOver(p, 49);
    assert |d.mark| <= 3;
  }

  /** The first loop finds the host of a target. */
  lemma {:induction false} SiteFound(connect: bool, d: Target)
    requires d.Ok(connect)
    ensures var t := d.Text();
            && Url.Authority(connect, t) == d.site
            && Url.AllLevels(connect, t) == FrontLevels(d) + Url.HostLevels('@' in d.site, d.site) + BehindLevels(d)
  {
    hide Target.Ok, Target.Text, TargetLevels, FrontLevels, BehindLevels, Url.Levels, Url.MeetsAt, Url.Below,
         Url.HostLevels, Const;
    TargetScanned(connect, d);
    LevelsApart(connect, d);
    var f, s, b := FrontLevels(d), Const(30, |d.site|), BehindLevels(d);
    BelowAt(f, 30, |d.site|, b);
    SiteText(d);
    assert (f + s + b)[..|f|] == f && (f + s + b)[|f| + |s|..] == b;
  }

  lemma {:induction false} SiteText(d: Target)
    ensures var n := |d.scheme + d.mark|; n + |d.site| <= |d.Text()| && d.Text()[n..n + |d.site|] == d.site
  {
    var x := d.scheme + d.mark;
    assert d.Text() == x + d.site + (d.path + d.QueryText() + d.FragmentText());
  }

  /** A host that can be put together from its parts, with user information exactly if there is an '@'. */
  ghost predicate IsSite(t: string) { exists p: Parts :: p.Ok() && p.Text() == t }

  lemma {:induction false} SiteAccepted(t: string)
    ensures Url.HostAccepted('@' in t, t) <==> IsSite(t)
  {
    hide Parts.Ok, Parts.Text, Url.HostAccepted;
    AuthorityGrammar('@' in t, t);
    if p: Parts :| p.Ok() && p.Text() == t { PartsAt(p); }
  }

  lemma {:induction false} PartsAt(p: Parts)
    requires p.Ok()
    ensures '@' in p.Text() <==> p.user.Some?
  {
    hide IsServerChar, Parts.Ok, Parts.HostText, Parts.PortText;
    PartsAreServer(p);
    ServerBytes('@');
    var rest := p.HostText() + p.PortText();
    assert p.Text() == p.UserText() + rest;
    if p.user.Some? { assert p.Text()[|p.user.value|] == '@'; }
  }

  /**
   * The texts that are URLs. Behind CONNECT only a host with a port, and no user information; the marks of an empty
   * query or fragment may follow it. Otherwise a host is needed where there is a scheme.
   */
  ghost predicate IsUrl(connect: bool, d: Target) {
    if connect then
      && (exists p: Parts :: p.Ok() && p.Text() == d.site && p.port.Some? && UserOf(p) == "")
      && d.path == "" && TailOf(d.query) == "" && OnlyHashes(TailOf(d.fragment))
    else (d.scheme != "" ==> d.site != "") && (d.site != "" ==> IsSite(d.site))
  }

  lemma {:induction false} ConstHas(n: nat, k: nat, x: nat)
    ensures x in Const(n, k) <==> x == n && k > 0
  {
    if k > 0 { assert Const(n, k)[0] == n; }
  }

  lemma {:induction false} HashesHave(s: string, x: nat)
    ensures x in HashLevels(s) ==> x == 61 || x == 70
    ensures 70 in HashLevels(s) <==> !OnlyHashes(s)
  {
    if !OnlyHashes(s) {
      assert s[..|s|] == s;
      assert HashLevels(s)[|s| - 1] == 70;
    }
  }

  lemma {:induction false} BehindFields(d: Target, x: nat)
    ensures 50 in BehindLevels(d) <==> d.path != ""
    ensures 60 in BehindLevels(d) <==> TailOf(d.query) != ""
    ensures 70 in BehindLevels(d) <==> !OnlyHashes(TailOf(d.fragment))
    ensures x <= 49 ==> x !in BehindLevels(d)
  {
    hide Const, HashLevels, OnlyHashes;
    assert OnlyHashes("") by { NoHashes(); }
    forall y: nat
      ensures y in BehindLevels(d) ==> y in {50, 51, 60, 61, 70}
      ensures y in Const(50, |d.path|) <==> y == 50 && d.path != ""
      ensures y in QueryLevels(d.query) <==> d.query.Some? && (y == 51 || (y == 60 && d.query.value != ""))
      ensures y in FragmentLevels(d.fragment) ==> y == 61 || y == 70
      ensures 70 in FragmentLevels(d.fragment) <==> !OnlyHashes(TailOf(d.fragment))
    {
      ConstHas(50, |d.path|, y);
      if d.query.Some? { ConstHas(60, |d.query.value|, y); }
      if d.fragment.Some? { HashesHave(d.fragment.value, y); }
    }
  }

  lemma {:induction false} NoHashes()
    ensures OnlyHashes("")
  {
  }

  lemma {:induction false} FrontFields(d: Target, x: nat)
    ensures 10 in FrontLevels(d) <==> d.scheme != ""
    ensures x >= 14 ==> x !in FrontLevels(d)
  {
    hide Const;
    ConstHas(10, |d.scheme|, x);
    ConstHas(10, |d.scheme|, 10);
  }

  lemma {:induction false} SiteFields(p: Parts, x: nat)
    requires p.Ok()
    ensures 20 in AuthorityLevels(p) <==> UserOf(p) != ""
    ensures 30 in AuthorityLevels(p) && (40 in AuthorityLevels(p) <==> p.port.Some?)
    ensures x < 20 || x > 40 ==> x !in AuthorityLevels(p)
  {
    hide Const, IsHostChar, IsUserInfoChar, IsV6Char, Url.IsZoneChar;
    forall y: nat
      ensures y in AuthorityLevels(p) <==>
              (y == 20 && UserOf(p) != "") || (y == 21 && p.user.Some?) || (p.v6 && (y == 22 || y == 31)) || y == 30 ||
              (p.port.Some? && (y == 32 || y == 40))
    {
      if p.user.Some? { ConstHas(20, |p.user.value|, y); }
      ConstHas(30, |p.host|, y);
      ConstHas(30, |p.host| + |p.ZoneText()|, y);
      if p.port.Some? { ConstHas(40, |p.port.value|, y); }
    }
  }

  /** The fields CONNECT asks for. */
  lemma {:induction false} ConnectFields(d: Target, p: Parts)
    requires d.Ok(true) && p.Ok() && p.Text() == d.site
    ensures (forall f :: Url.Order(f) in Url.AllLevels(true, d.Text()) <==> f == Url.Host || f == Url.Port) <==>
            p.port.Some? && UserOf(p) == "" && d.path == "" && TailOf(d.query) == "" && OnlyHashes(TailOf(d.fragment))
  {
    hide Target.Ok, Target.Text, Url.AllLevels, Url.HostLevels, Url.Authority, FrontLevels, BehindLevels,
         AuthorityLevels, Parts.Ok, Parts.Text, OnlyHashes, Parts.HostText;
    SiteFound(true, d);
    PartsAt(p);
    AuthorityRead(p);
    var l := Url.AllLevels(true, d.Text());
    assert l == FrontLevels(d) + AuthorityLevels(p) + BehindLevels(d);
    assert d.scheme == "" by { NoScheme(d); }
    forall x: nat
      ensures x in {10, 20, 30, 40, 50, 60, 70} ==>
                (x in l <==> x == 30 || (x == 20 && UserOf(p) != "") || (x == 40 && p.port.Some?) ||
                             (x == 50 && d.path != "") ||
                             (x == 60 && TailOf(d.query) != "") || (x == 70 && !OnlyHashes(TailOf(d.fragment))))
    {
      FrontFields(d, x);
      SiteFields(p, x);
      BehindFields(d, x);
    }
    FieldOrders();
  }

  lemma {:induction false} NoScheme(d: Target)
    requires d.Ok(true)
    ensures d.scheme == ""
  {
  }

  lemma {:induction false} FieldOrders()
    ensures Url.Order(Url.Schema) == 10 && Url.Order(Url.UserInfo) == 20 && Url.Order(Url.Host) == 30 &&
            Url.Order(Url.Port) == 40
    ensures Url.Order(Url.Path) == 50 && Url.Order(Url.Query) == 60 && Url.Order(Url.Fragment) == 70
  {
  }

  /** The texts `http_parser_parse_url` takes, apart from the size of the port. */
  lemma {:induction false} UrlGrammar(connect: bool, s: string)
    ensures Url.UrlAccepted(connect, s) <==>
            Url.PortNumber(connect, s) <= 0xffff && exists d: Target :: d.Ok(connect) && d.Text() == s && IsUrl(connect, d)
  {
    hide Target.Ok, Target.Text, IsUrl, Url.UrlAccepted, Url.PortNumber;
    TargetGrammar(connect, s);
    forall d: Target | d.Ok(connect) && d.Text() == s
      ensures Url.UrlAccepted(connect, s) <==> Url.PortNumber(connect, s) <= 0xffff && IsUrl(connect, d)
    {
      UrlOfTarget(connect, d);
    }
    if Url.UrlAccepted(connect, s) { AcceptedRuns(connect, s); }
  }

  lemma {:induction false} AcceptedRuns(connect: bool, s: string)
    requires Url.UrlAccepted(connect, s)
    ensures !Url.StateAfter(connect, s).SDead?
  {
  }

  lemma {:induction false} UrlOfTarget(connect: bool, d: Target)
    requires d.Ok(connect)
    ensures Url.UrlAccepted(connect, d.Text()) <==> Url.PortNumber(connect, d.Text()) <= 0xffff && IsUrl(connect, d)
  {
    hide Target.Ok, Target.Text, Url.PortNumber, Url.AllLevels, Url.HostLevels, Url.HostAccepted, Url.Authority,
         FrontLevels, BehindLevels, Parts.Ok, Parts.Text, OnlyHashes, Url.Order, Url.StateAfter, Url.MeetsAt;
    TargetRead(connect, d);
    TargetScanned(connect, d);
    SiteFound(connect, d);
    SiteAccepted(d.site);
    FieldOrders();
    FrontFields(d, 30);
    BehindFields(d, 10);
    BehindFields(d, 30);
    NoLevels('@' in d.site);
    if !connect {
    } else if d.site == "" {
      assert Url.Order(Url.Host) !in Url.AllLevels(true, d.Text());
      forall p: Parts | p.Ok() ensures p.Text() != "" { TextNotEmpty(p); }
    } else if IsSite(d.site) {
      forall p: Parts | p.Ok() && p.Text() == d.site
        ensures (forall f :: Url.Order(f) in Url.AllLevels(true, d.Text()) <==> f == Url.Host || f == Url.Port) <==>
                p.port.Some? && UserOf(p) == "" && d.path == "" && TailOf(d.query) == "" && OnlyHashes(TailOf(d.fragment))
      {
        ConnectFields(d, p);
      }
    }
  }

  lemma {:induction false} NoLevels(foundAt: bool)
    ensures Url.HostLevels(foundAt, "") == []
  {
  }

  lemma {:induction false} TextNotEmpty(p: Parts)
    requires p.Ok()
    ensures p.Text() != ""
  {
    hide Parts.Ok, Parts.HostText;
    PartsAreServer(p);
  }
}
