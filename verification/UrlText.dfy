/**
 * URLs as they are written: the grammar of authorities and of whole URLs, and what the two loops of module `Url` make
 * of a URL put together from its parts.
 */
module UrlText {
  import opened Chars
  import opened HttpParser
  import opened Lengths
  import opened Url

  // ---------------------------------------------------------------- authorities

  /** An authority in its parts: user information, a name or an address in brackets with a zone, and a port. */
  datatype Parts = Parts(user: Option<string>, host: string, v6: bool, zone: Option<string>, port: Option<string>) {
    function UserText(): string { if user.Some? then user.value + "@" else "" }

    function ZoneText(): string { if zone.Some? then "%" + zone.value else "" }

    function HostText(): string { if v6 then "[" + host + ZoneText() + "]" else host }

    function PortText(): string { if port.Some? then ":" + port.value else "" }

    function Text(): string { UserText() + HostText() + PortText() }

    predicate Ok() {
      && UserOk() && HostOk() && (port.Some? ==> port.value != "" && AllDigits(port.value))
    }

    predicate UserOk() { user.Some? ==> forall i :: 0 <= i < |user.value| ==> IsUserInfoChar(user.value[i]) }

    predicate HostOk() {
      && host != "" && (if v6 then AllV6(host) else zone.None? && forall i :: 0 <= i < |host| ==> IsHostChar(host[i]))
      && (zone.Some? ==> zone.value != "" && AllZone(zone.value))
    }
  }

  predicate IsV6Char(c: char) { IsHex(c) || c == ':' || c == '.' }

  predicate AllV6(s: string) { forall i :: 0 <= i < |s| ==> IsV6Char(s[i]) }

  predicate AllZone(s: string) { forall i :: 0 <= i < |s| ==> IsZoneChar(s[i]) }

  /** The parts read so far, in each state of the host parser. */
  predicate Reads(s: HostState, d: Parts, t: string) {
    && d.UserOk()
    && match s
       case UserInfoStart => t == "" && d.user == Some("") && NoHostYet(d)
       case InUserInfo => d.user.Some? && d.user.value == t && NoHostYet(d)
       case HostStart => t == d.UserText() && NoHostYet(d)
       case V6Start => t == d.UserText() + "[" && d == Parts(d.user, "", true, None, None)
       case InHost => t == d.UserText() + d.host && d.HostOk() && !d.v6 && d.port.None?
       case InV6 => t == d.UserText() + "[" + d.host && d.HostOk() && d.v6 && d.zone.None? && d.port.None?
       case V6ZoneStart => t == d.UserText() + "[" + d.host + "%" && d.v6 && d.host != "" && AllV6(d.host) &&
           d.zone == Some("") && d.port.None?
       case InV6Zone => t == d.UserText() + "[" + d.host + d.ZoneText() && d.HostOk() && d.v6 && d.zone.Some? &&
           d.port.None?
       case V6End => t == d.UserText() + d.HostText() && d.HostOk() && d.v6 && d.port.None?
       case PortStart => t == d.UserText() + d.HostText() + ":" && d.HostOk() && d.port == Some("")
       case InPort => t == d.Text() && d.Ok() && d.port.Some?
       case HostDead => false
  }

  predicate NoHostYet(d: Parts) { d == Parts(d.user, "", false, None, None) }

  /** One more byte of an authority, before the host. */
  lemma {:induction false} UserReadsOn(s: HostState, d: Parts, t: string, c: char) returns (e: Parts)
    requires Reads(s, d, t) && !ParseHostChar(s, c).HostDead?
    requires s.UserInfoStart? || s.InUserInfo? || s.HostStart?
    ensures Reads(ParseHostChar(s, c), e, t + [c]) && e.user.Some? == d.user.Some?
  {
    hide IsUserInfoChar, IsHostChar, IsZoneChar, IsHex, AllDigits;
    if s.UserInfoStart? {
      e := if c == '@' then d else d.(user := Some([c]));
      assert "" + [c] == [c];
    } else if s.InUserInfo? {
      e := if c == '@' then d else d.(user := Some(t + [c]));
      assert t + ['@'] == t + "@";
    } else {
      e := if c == '[' then d.(v6 := true) else d.(host := [c]);
      assert t + ['['] == t + "[";
    }
  }

  /** Inside the brackets of an address. */
  lemma {:induction false} AddressReadsOn(s: HostState, d: Parts, t: string, c: char) returns (e: Parts)
    requires Reads(s, d, t) && !ParseHostChar(s, c).HostDead?
    requires s.V6Start? || s.InV6?
    ensures Reads(ParseHostChar(s, c), e, t + [c]) && e.user.Some? == d.user.Some?
  {
    hide IsUserInfoChar, IsHostChar, IsZoneChar, IsHex, AllDigits;
    if s.V6Start? {
      e := d.(host := [c]);
    } else {
      e := if c == ']' then d else if IsV6Char(c) then d.(host := d.host + [c]) else d.(zone := Some(""));
      assert d.UserText() + "[" + d.host + [c] == d.UserText() + "[" + (d.host + [c]);
      assert d.UserText() + "[" + d.host + "]" == d.UserText() + ("[" + d.host + "" + "]");
    }
  }

  /** Inside the zone of an address. */
  lemma {:induction false} ZoneReadsOn(s: HostState, d: Parts, t: string, c: char) returns (e: Parts)
    requires Reads(s, d, t) && !ParseHostChar(s, c).HostDead?
    requires s.V6ZoneStart? || s.InV6Zone?
    ensures Reads(ParseHostChar(s, c), e, t + [c]) && e.user.Some? == d.user.Some?
  {
    hide IsUserInfoChar, IsHostChar, IsZoneChar, IsHex, AllDigits;
    var h := d.UserText() + "[" + d.host;
    if s.V6ZoneStart? {
      e := d.(zone := Some([c]));
      assert h + "%" + [c] == h + ("%" + [c]);
    } else if c == ']' {
      e := d;
      Behind(d.UserText(), "[" + d.host, d.ZoneText(), "]");
      assert d.UserText() + ("[" + d.host) == h;
    } else {
      e := d.(zone := Some(d.zone.value + [c]));
      assert h + ("%" + d.zone.value) + [c] == h + ("%" + (d.zone.value + [c]));
      assert e.UserText() == d.UserText();
    }
  }

  /** Behind the host. */
  lemma {:induction false} PortReadsOn(s: HostState, d: Parts, t: string, c: char) returns (e: Parts)
    requires Reads(s, d, t) && !ParseHostChar(s, c).HostDead?
    requires s.InHost? || s.V6End? || s.PortStart? || s.InPort?
    ensures Reads(ParseHostChar(s, c), e, t + [c]) && e.user.Some? == d.user.Some?
  {
    hide IsUserInfoChar, IsHostChar, IsZoneChar, IsHex;
    if s.InHost? {
      e := if IsHostChar(c) then d.(host := d.host + [c]) else d.(port := Some(""));
      assert d.UserText() + d.host + [c] == d.UserText() + (d.host + [c]);
    } else if s.V6End? {
      e := d.(port := Some(""));
    } else if s.PortStart? {
      e := d.(port := Some([c]));
      assert d.UserText() + d.HostText() + ":" + [c] == d.UserText() + d.HostText() + (":" + [c]);
    } else {
      e := d.(port := Some(d.port.value + [c]));
      assert d.UserText() + d.HostText() + (":" + d.port.value) + [c] ==
          d.UserText() + d.HostText() + (":" + (d.port.value + [c]));
    }
  }

  /** One more byte of an authority. */
  lemma {:induction false} ReadsOn(s: HostState, d: Parts, t: string, c: char) returns (e: Parts)
    requires Reads(s, d, t) && !ParseHostChar(s, c).HostDead?
    ensures Reads(ParseHostChar(s, c), e, t + [c]) && e.user.Some? == d.user.Some?
  {
    hide Reads, ParseHostChar;
    if s.UserInfoStart? || s.InUserInfo? || s.HostStart? { e := UserReadsOn(s, d, t, c); }
    else if s.V6Start? || s.InV6? { e := AddressReadsOn(s, d, t, c); }
    else if s.V6ZoneStart? || s.InV6Zone? { e := ZoneReadsOn(s, d, t, c); }
    else if s.HostDead? { DeadForGood(c); }
    else { e := PortReadsOn(s, d, t, c); }
  }

  lemma {:induction false} DeadForGood(c: char)
    ensures ParseHostChar(HostDead, c).HostDead?
  {
  }

  /** The parts of what has been read of an authority. */
  lemma {:induction false} ReadParts(foundAt: bool, t: string) returns (d: Parts)
    requires !HostStateAfter(foundAt, t).HostDead?
    ensures Reads(HostStateAfter(foundAt, t), d, t) && d.user.Some? == foundAt
    decreases |t|
  {
    hide ParseHostChar, Reads;
    if t == "" {
      d := Parts(if foundAt then Some("") else None, "", false, None, None);
      NothingRead(foundAt, d);
    } else {
      var n := |t| - 1;
      if HostStateAfter(foundAt, t[..n]).HostDead? { HostDeadStays(foundAt, t, n); }
      var e := ReadParts(foundAt, t[..n]);
      d := ReadsOn(HostStateAfter(foundAt, t[..n]), e, t[..n], t[n]);
      assert t[..n] + [t[n]] == t;
    }
  }

  lemma {:induction false} NothingRead(foundAt: bool, d: Parts)
    requires d == Parts(if foundAt then Some("") else None, "", false, None, None)
    ensures Reads(HostStateAfter(foundAt, ""), d, "")
  {
  }

  /** `k` bytes of one level. */
  function Const(n: nat, k: nat): (r: seq<nat>)
    ensures |r| == k && forall i :: 0 <= i < k ==> r[i] == n
  {
    seq(k, _ => n)
  }

  /** The host parser over bytes that all lead to one state. */
  lemma {:induction false} HostRun(foundAt: bool, t: string, u: string, s: HostState)
    requires u != "" ==> ParseHostChar(HostStateAfter(foundAt, t), u[0]) == s
    requires forall i :: 1 <= i < |u| ==> ParseHostChar(s, u[i]) == s
    ensures HostStateAfter(foundAt, t + u) == if u == "" then HostStateAfter(foundAt, t) else s
    ensures HostLevels(foundAt, t + u) == HostLevels(foundAt, t) + Const(HostLevel(s), |u|)
    decreases |u|
  {
    hide ParseHostChar, HostLevel, HostStateAfter, HostLevels;
    if u == "" {
      assert t + u == t && HostLevels(foundAt, t) + Const(HostLevel(s), 0) == HostLevels(foundAt, t);
    } else {
      var n := |u| - 1;
      HostRun(foundAt, t, u[..n], s);
      assert (t + u)[..|t| + n] == t + u[..n] && t + u == (t + u[..n]) + [u[n]];
      OneMoreHostByte(foundAt, t + u[..n], u[n]);
      var l := HostLevels(foundAt, t);
      assert l + Const(HostLevel(s), n) + [HostLevel(s)] == l + Const(HostLevel(s), |u|);
    }
  }

  lemma {:induction false} OneMoreHostByte(foundAt: bool, t: string, c: char)
    ensures var s := ParseHostChar(HostStateAfter(foundAt, t), c);
            && HostStateAfter(foundAt, t + [c]) == s &&
               HostLevels(foundAt, t + [c]) == HostLevels(foundAt, t) + [HostLevel(s)]
  {
    hide ParseHostChar, HostLevel;
    assert (t + [c])[..|t|] == t && (t + [c])[..|t| + 1] == t + [c];
    forall i | 0 <= i < |t|
      ensures HostLevels(foundAt, t + [c])[i] == HostLevels(foundAt, t)[i]
    {
      assert (t + [c])[..i + 1] == t[..i + 1];
    }
  }

  /** The level of every byte of an authority. */
  function AuthorityLevels(d: Parts): seq<nat> {
    (if d.user.Some? then Const(20, |d.user.value|) + [21] else []) +
    HostPart(d) +
    (if d.port.Some? then [32] + Const(40, |d.port.value|) else [])
  }

  lemma {:induction false} NothingLevels(foundAt: bool)
    ensures HostLevels(foundAt, "") == [] && HostStateAfter(foundAt, "") == if foundAt then UserInfoStart else HostStart
    ensures forall c: char :: IsUserInfoChar(c) ==>
              ParseHostChar(UserInfoStart, c) == InUserInfo && ParseHostChar(InUserInfo, c) == InUserInfo
    ensures ParseHostChar(UserInfoStart, '@') == HostStart && ParseHostChar(InUserInfo, '@') == HostStart
  {
  }

  lemma {:induction false} UserRead(d: Parts)
    requires d.UserOk()
    ensures HostStateAfter(d.user.Some?, d.UserText()).HostStart?
    ensures HostLevels(d.user.Some?, d.UserText()) == if d.user.Some? then Const(20, |d.user.value|) + [21] else []
  {
    hide IsUserInfoChar, HostLevels, HostStateAfter, ParseHostChar;
    NothingLevels(d.user.Some?);
    if d.user.Some? {
      HostRun(true, "", d.user.value, InUserInfo);
      assert "" + d.user.value == d.user.value && [] + Const(20, |d.user.value|) == Const(20, |d.user.value|);
      OneMoreHostByte(true, d.user.value, '@');
      assert d.user.value + ['@'] == d.UserText();
    }
  }

  lemma {:induction false} NoAtSign()
    ensures !IsUserInfoChar('@') && !IsHostChar('[') && !IsHostChar(':') && !IsV6Char(']') && !IsV6Char('%') &&
            !IsZoneChar(']')
  {
  }

  /** The levels of a host. */
  function HostPart(d: Parts): seq<nat> {
    if d.v6 then [22] + Const(30, |d.host| + |d.ZoneText()|) + [31] else Const(30, |d.host|)
  }

  lemma {:induction false} HostRead(d: Parts)
    requires d.UserOk() && d.HostOk()
    ensures var t := d.UserText() + d.HostText(); var s := HostStateAfter(d.user.Some?, t);
            && (if d.v6 then s.V6End? else s.InHost?)
            && HostLevels(d.user.Some?, t) == HostLevels(d.user.Some?, d.UserText()) + HostPart(d)
  {
    hide IsHostChar, IsZoneChar, IsHex, IsUserInfoChar, HostLevels, HostStateAfter, Const;
    NoAtSign();
    UserRead(d);
    if d.v6 { BracketsRead(d); } else { HostRun(d.user.Some?, d.UserText(), d.host, InHost); }
  }

  lemma {:induction false} BracketsRead(d: Parts)
    requires d.HostOk() && d.v6 && HostStateAfter(d.user.Some?, d.UserText()).HostStart?
    ensures var t := d.UserText() + d.HostText();
            && HostStateAfter(d.user.Some?, t).V6End?
            && HostLevels(d.user.Some?, t) == HostLevels(d.user.Some?, d.UserText()) + HostPart(d)
  {
    hide IsHostChar, IsZoneChar, IsHex, IsUserInfoChar, HostLevels, HostStateAfter, Const;
    var f, u, z := d.user.Some?, d.UserText(), d.ZoneText();
    AddressRead(f, u, d.host, d.zone);
    var a := u + "[" + d.host + z;
    assert a + [']'] == u + ("[" + d.host + z + "]");
    OneMoreHostByte(f, a, ']');
    var l, k := HostLevels(f, u), Const(30, |d.host| + |z|);
    assert l + ([22] + k) + [31] == l + ([22] + k + [31]);
  }

  lemma {:induction false} AddressRead(f: bool, u: string, host: string, zone: Option<string>)
    requires HostStateAfter(f, u).HostStart? && host != "" && AllV6(host)
    requires zone.Some? ==> zone.value != "" && AllZone(zone.value)
    ensures var z := if zone.Some? then "%" + zone.value else "";
            var s := HostStateAfter(f, u + "[" + host + z);
            && (if zone.Some? then s.InV6Zone? else s.InV6?)
            && HostLevels(f, u + "[" + host + z) == HostLevels(f, u) + ([22] + Const(30, |host| + |z|))
  {
    hide IsHostChar, IsZoneChar, IsHex, HostLevels, HostStateAfter;
    NoAtSign();
    var l := HostLevels(f, u);
    OneMoreHostByte(f, u, '[');
    assert u + ['['] == u + "[";
    HostRun(f, u + "[", host, InV6);
    assert l + [22] + Const(30, |host|) == l + ([22] + Const(30, |host|));
    var a := u + "[" + host;
    if zone.Some? {
      var z := zone.value;
      assert !IsHex('%');
      OneMoreHostByte(f, a, '%');
      HostRun(f, a + ['%'], z, InV6Zone);
      assert a + ['%'] + z == a + ("%" + z);
      assert Const(30, |host|) + [30] + Const(30, |z|) == Const(30, |host| + |"%" + z|);
      assert l + ([22] + Const(30, |host|)) + [30] + Const(30, |z|) ==
          l + ([22] + (Const(30, |host|) + [30] + Const(30, |z|)));
    } else {
      assert a + "" == a;
    }
  }

  /** An authority put together from its parts is accepted, and every byte of it gets the level of its part. */
  lemma {:induction false} AuthorityRead(d: Parts)
    requires d.Ok()
    ensures HostAccepted(d.user.Some?, d.Text()) && HostLevels(d.user.Some?, d.Text()) == AuthorityLevels(d)
  {
    hide IsHostChar, IsZoneChar, IsHex, IsUserInfoChar, HostLevels, HostStateAfter, Const;
    NoAtSign();
    UserRead(d);
    HostRead(d);
    var f, a := d.user.Some?, d.UserText() + d.HostText();
    if d.port.Some? {
      OneMoreHostByte(f, a, ':');
      HostRun(f, a + [':'], d.port.value, InPort);
      assert a + [':'] + d.port.value == d.Text();
      var l := HostLevels(f, a);
      assert l + [32] + Const(40, |d.port.value|) == l + ([32] + Const(40, |d.port.value|));
    } else {
      assert a + "" == a;
    }
  }

  /** The authorities accepted are exactly those that can be put together so. */
  lemma {:induction false} AuthorityGrammar(foundAt: bool, t: string)
    ensures HostAccepted(foundAt, t) <==> exists d: Parts :: d.Ok() && d.Text() == t && d.user.Some? == foundAt
  {
    hide HostStateAfter, IsHostChar, IsZoneChar, IsHex, IsUserInfoChar, AllDigits;
    if HostAccepted(foundAt, t) {
      var d := ReadParts(foundAt, t);
      if HostStateAfter(foundAt, t).InPort? {
        assert d.Ok() && d.Text() == t;
      } else {
        var e := d.(port := None, zone := if d.v6 then d.zone else None);
        assert e.Text() == t by { assert e.UserText() + e.HostText() + "" == e.UserText() + e.HostText(); }
        assert e.Ok();
      }
    }
    if d: Parts :| d.Ok() && d.Text() == t && d.user.Some? == foundAt { AuthorityRead(d); }
  }

  // ---------------------------------------------------------------- whole URLs

  /** An absolute URL in its parts. */
  datatype Written = Written(scheme: string, site: Parts, path: string, query: Option<string>, fragment: Option<string>) {
    function Front(): string { scheme + "://" }

    function Rest(): string { path + QueryText() + FragmentText() }

    function QueryText(): string { if query.Some? then "?" + query.value else "" }

    function FragmentText(): string { if fragment.Some? then "#" + fragment.value else "" }

    function Text(): string { Front() + site.Text() + Rest() }

    predicate Ok() {
      && scheme != "" && (forall i :: 0 <= i < |scheme| ==> IsAlpha(scheme[i]))
      && site.Ok() && RestOk()
    }

    /** A fragment does not follow a bare authority. */
    predicate RestOk() {
      && (path != "" ==> path[0] == '/' && forall i :: 0 <= i < |path| ==> IsUrlChar(path[i]))
      && (query.Some? ==> AllTail(query.value)) &&
         (fragment.Some? ==> AllTail(fragment.value) && (path != "" || query.Some?))
    }
  }

  /** Characters of a query or a fragment. */
  predicate AllTail(s: string) { forall i :: 0 <= i < |s| ==> IsUrlChar(s[i]) || s[i] == '?' }

  /** The state of the first loop after one more byte. */
  lemma {:induction false} OneMoreUrlByte(connect: bool, t: string, c: char)
    ensures var s := ParseUrlChar(StateAfter(connect, t), c);
            && StateAfter(connect, t + [c]) == s && Levels(connect, t + [c]) == Levels(connect, t) + [Level(s)]
            && (MeetsAt(connect, t + [c], |t| + 1) <==> MeetsAt(connect, t, |t|) || s.SReqServerWithAt?)
  {
    hide ParseUrlChar, Level;
    assert (t + [c])[..|t|] == t && (t + [c])[..|t| + 1] == t + [c];
    forall i | 0 <= i < |t|
      ensures Levels(connect, t + [c])[i] == Levels(connect, t)[i]
    {
      assert (t + [c])[..i + 1] == t[..i + 1];
    }
    if k :| 0 < k <= |t| && StateAfter(connect, t[..k]).SReqServerWithAt? {
      assert (t + [c])[..k] == t[..k];
    }
    if k :| 0 < k <= |t| + 1 && StateAfter(connect, (t + [c])[..k]).SReqServerWithAt? {
      if k <= |t| { assert (t + [c])[..k] == t[..k]; }
    }
  }

  /** The first loop over bytes that all lead to one state. */
  lemma {:induction false} UrlRun(connect: bool, t: string, u: string, s: State)
    requires u != "" ==> ParseUrlChar(StateAfter(connect, t), u[0]) == s
    requires (forall i :: 1 <= i < |u| ==> ParseUrlChar(s, u[i]) == s) && !s.SReqServerWithAt?
    ensures StateAfter(connect, t + u) == if u == "" then StateAfter(connect, t) else s
    ensures Levels(connect, t + u) == Levels(connect, t) + Const(Level(s), |u|)
    ensures MeetsAt(connect, t + u, |t + u|) <==> MeetsAt(connect, t, |t|)
    decreases |u|
  {
    hide ParseUrlChar, Level, StateAfter, Levels, MeetsAt;
    if u == "" {
      assert t + u == t && Levels(connect, t) + Const(Level(s), 0) == Levels(connect, t);
    } else {
      var n := |u| - 1;
      UrlRun(connect, t, u[..n], s);
      assert t + u == (t + u[..n]) + [u[n]];
      OneMoreUrlByte(connect, t + u[..n], u[n]);
      var l := Levels(connect, t);
      assert l + Const(Level(s), n) + [Level(s)] == l + Const(Level(s), |u|);
    }
  }

  /** The bytes of an authority, as far as the first loop can tell. */
  predicate IsServerChar(c: char) { IsUserInfoChar(c) || c == '[' || c == ']' }

  lemma {:induction false} ServerBytes(c: char)
    ensures IsServerChar(c) ==> ServerChar(c) == SReqServer && c != '@' && IsUrlChar(c)
    ensures IsHostChar(c) || IsV6Char(c) || IsZoneChar(c) || IsNum(c) || c == ':' || c == '%' ==> IsServerChar(c)
  {
  }

  lemma {:induction false} UserBytes()
    ensures IsServerChar('[') && IsServerChar(']') && forall c: char :: IsUserInfoChar(c) ==> IsServerChar(c)
  {
  }

  lemma {:induction false} AfterServer(s: State, c: char)
    requires IsServerChar(c) && (s.SReqServerStart? || s.SReqServer? || s.SReqServerWithAt?)
    ensures ParseUrlChar(s, c) == SReqServer
  {
    hide IsUserInfoChar;
    ServerBytes(c);
  }

  /** All bytes of an authority but the one behind the user information. */
  lemma {:induction false} PartsAreServer(d: Parts)
    requires d.Ok()
    ensures forall i :: 0 <= i < |d.HostText() + d.PortText()| ==> IsServerChar((d.HostText() + d.PortText())[i])
    ensures d.user.Some? ==> forall i :: 0 <= i < |d.user.value| ==> IsServerChar(d.user.value[i])
    ensures d.HostText() != ""
  {
    hide IsHostChar, IsUserInfoChar, IsZoneChar, IsHex, IsServerChar, IsNum;
    forall c: char
      ensures IsHostChar(c) || IsV6Char(c) || IsZoneChar(c) || IsNum(c) || c == ':' || c == '%' ==> IsServerChar(c)
    {
      ServerBytes(c);
    }
    UserBytes();
    var h, p := d.HostText(), d.PortText();
    assert forall i :: 0 <= i < |h| ==> IsServerChar(h[i]);
    assert forall i :: 0 <= i < |p| ==> IsServerChar(p[i]);
  }

  /** The levels the first loop gives to the authority, and what it says about an '@'. */
  lemma {:induction false} SiteScanned(front: string, d: Parts)
    requires d.Ok() && StateAfter(false, front).SReqServerStart? && !MeetsAt(false, front, |front|)
    ensures var t := front + d.Text();
            && StateAfter(false, t).SReqServer? && Levels(false, t) == Levels(false, front) + Const(30, |d.Text()|)
            && (MeetsAt(false, t, |t|) <==> d.user.Some?)
  {
    hide IsServerChar, ParseUrlChar, StateAfter, Levels, MeetsAt, ServerChar, Const, Parts.HostText, Parts.PortText,
         Parts.Ok;
    PartsAreServer(d);
    var tail := d.HostText() + d.PortText();
    forall s: State, c: char | IsServerChar(c) && (s.SReqServerStart? || s.SReqServer? || s.SReqServerWithAt?)
      ensures ParseUrlChar(s, c) == SReqServer
    {
      AfterServer(s, c);
    }
    if d.user.Some? {
      UserScanned(front, d.user.value, tail);
      assert front + d.user.value + ['@'] + tail == front + d.Text();
    } else {
      UrlRun(false, front, tail, SReqServer);
      assert d.Text() == tail by { assert "" + d.HostText() + d.PortText() == tail; }
    }
  }

  /** An authority with user information. */
  lemma {:induction false} UserScanned(front: string, u: string, tail: string)
    requires StateAfter(false, front).SReqServerStart? && tail != ""
    requires forall i :: 0 <= i < |u| ==> IsServerChar(u[i])
    requires forall i :: 0 <= i < |tail| ==> IsServerChar(tail[i])
    requires forall s: State, c: char :: IsServerChar(c) && (s.SReqServerStart? || s.SReqServer? || s.SReqServerWithAt?) ==>
               ParseUrlChar(s, c) == SReqServer
    ensures var t := front + u + ['@'] + tail;
            && StateAfter(false, t).SReqServer? && MeetsAt(false, t, |t|)
            && Levels(false, t) == Levels(false, front) + Const(30, |u| + 1 + |tail|)
  {
    hide IsServerChar, ParseUrlChar, StateAfter, Levels, MeetsAt, ServerChar;
    var l := Levels(false, front);
    UrlRun(false, front, u, SReqServer);
    AtSign(StateAfter(false, front + u));
    OneMoreUrlByte(false, front + u, '@');
    UrlRun(false, front + u + ['@'], tail, SReqServer);
    assert l + Const(30, |u|) + [30] + Const(30, |tail|) == l + Const(30, |u| + 1 + |tail|);
  }

  lemma {:induction false} AtSign(s: State)
    ensures s.SReqServerStart? || s.SReqServer? ==> ParseUrlChar(s, '@').SReqServerWithAt?
  {
  }

  /** The scheme and what stands between it and the authority. */
  lemma {:induction false} FrontScanned(scheme: string)
    requires scheme != "" && forall i :: 0 <= i < |scheme| ==> IsAlpha(scheme[i])
    ensures var t := scheme + "://";
            && StateAfter(false, t).SReqServerStart? && !MeetsAt(false, t, |t|)
            && Levels(false, t) == Const(10, |scheme|) + [11, 12, 13]
  {
    hide StateAfter, Levels, MeetsAt, IsAlpha, ParseUrlChar;
    NothingScanned();
    SchemeBytes();
    UrlRun(false, "", scheme, SReqSchema);
    assert "" + scheme == scheme && [] + Const(10, |scheme|) == Const(10, |scheme|);
    OneMoreUrlByte(false, scheme, ':');
    OneMoreUrlByte(false, scheme + [':'], '/');
    OneMoreUrlByte(false, scheme + [':'] + ['/'], '/');
    assert scheme + [':'] + ['/'] + ['/'] == scheme + "://";
    assert Const(10, |scheme|) + [11] + [12] + [13] == Const(10, |scheme|) + [11, 12, 13];
  }

  lemma {:induction false} NothingScanned()
    ensures StateAfter(false, "").SReqSpacesBeforeUrl? && Levels(false, "") == [] && !MeetsAt(false, "", 0)
  {
  }

  lemma {:induction false} SchemeBytes()
    ensures forall c: char :: IsAlpha(c) ==>
              ParseUrlChar(SReqSpacesBeforeUrl, c) == SReqSchema && ParseUrlChar(SReqSchema, c) == SReqSchema
    ensures ParseUrlChar(SReqSchema, ':') == SReqSchemaSlash && ParseUrlChar(SReqSchemaSlash, '/') == SReqSchemaSlashSlash
    ensures ParseUrlChar(SReqSchemaSlashSlash, '/') == SReqServerStart
  {
  }

  /** The levels of what follows the authority. */
  function RestPart(w: Written): seq<nat> {
    Const(50, |w.path|) + TailLevels(w.query, SReqQueryStringStart, SReqQueryString) +
    TailLevels(w.fragment, SReqFragmentStart, SReqFragment)
  }

  /** Path, query and fragment. */
  lemma {:induction false} RestScanned(t: string, w: Written)
    requires StateAfter(false, t).SReqServer? && w.RestOk()
    ensures !StateAfter(false, t + w.Rest()).SDead? && Levels(false, t + w.Rest()) == Levels(false, t) + RestPart(w)
    ensures MeetsAt(false, t + w.Rest(), |t + w.Rest()|) <==> MeetsAt(false, t, |t|)
  {
    hide StateAfter, Levels, MeetsAt, IsUrlChar, ParseUrlChar, Const, Level, TailLevels, AllTail;
    var a, l := t + w.path, Levels(false, t);
    PathBytes();
    UrlRun(false, t, w.path, SReqPath);
    var b := a + w.QueryText();
    TailScanned(a, w.query, SReqQueryStringStart, SReqQueryString, '?');
    TailScanned(b, w.fragment, SReqFragmentStart, SReqFragment, '#');
    assert Level(SReqPath) == 50 by { PathLevel(); }
    var x, y := TailLevels(w.query, SReqQueryStringStart, SReqQueryString),
        TailLevels(w.fragment, SReqFragmentStart, SReqFragment);
    Behind(l, Const(50, |w.path|), x, y);
    Behind(t, w.path, w.QueryText(), w.FragmentText());
  }

  lemma {:induction false} Behind<T>(l: seq<T>, a: seq<T>, x: seq<T>, y: seq<T>)
    ensures l + a + x + y == l + (a + x + y)
  {
  }

  lemma {:induction false} PathLevel()
    ensures Level(SReqPath) == 50
  {
  }

  function TailLevels(tail: Option<string>, first: State, s: State): seq<nat> {
    if tail.Some? then [Level(first)] + Const(Level(s), |tail.value|) else []
  }

  /** A query or a fragment with the character in front of it. */
  lemma {:induction false} TailScanned(t: string, tail: Option<string>, first: State, s: State, c: char)
    requires tail.Some? ==> AllTail(tail.value) && ParseUrlChar(StateAfter(false, t), c) == first
    requires forall x: char :: IsUrlChar(x) || x == '?' ==> ParseUrlChar(first, x) == s && ParseUrlChar(s, x) == s
    requires !first.SReqServerWithAt? && !s.SReqServerWithAt?
    ensures var u := if tail.Some? then [c] + tail.value else "";
            && StateAfter(false, t + u) ==
               (if tail.None? then StateAfter(false, t) else if tail.value == "" then first else s)
            && Levels(false, t + u) == Levels(false, t) + TailLevels(tail, first, s)
            && (MeetsAt(false, t + u, |t + u|) <==> MeetsAt(false, t, |t|))
  {
    hide StateAfter, Levels, MeetsAt, IsUrlChar, ParseUrlChar, Level;
    var l := Levels(false, t);
    if tail.Some? {
      OneMoreUrlByte(false, t, c);
      UrlRun(false, t + [c], tail.value, s);
      assert t + [c] + tail.value == t + ([c] + tail.value);
      assert l + [Level(first)] + Const(Level(s), |tail.value|) == l + ([Level(first)] + Const(Level(s), |tail.value|));
    } else {
      assert t + "" == t && l + [] == l;
    }
  }

  lemma {:induction false} PathBytes()
    ensures ParseUrlChar(SReqServer, '/') == SReqPath && forall c: char :: IsUrlChar(c) ==>
            ParseUrlChar(SReqPath, c) == SReqPath
    ensures ParseUrlChar(SReqServer, '?') == SReqQueryStringStart && ParseUrlChar(SReqPath, '?') == SReqQueryStringStart
    ensures forall c: char :: IsUrlChar(c) || c == '?' ==>
              && ParseUrlChar(SReqQueryStringStart, c) == SReqQueryString &&
                 ParseUrlChar(SReqQueryString, c) == SReqQueryString
              && ParseUrlChar(SReqFragmentStart, c) == SReqFragment && ParseUrlChar(SReqFragment, c) == SReqFragment
    ensures ParseUrlChar(SReqPath, '#') == SReqFragmentStart && ParseUrlChar(SReqQueryStringStart, '#') == SReqFragmentStart
    ensures ParseUrlChar(SReqQueryString, '#') == SReqFragmentStart
  {
  }

  /** The level of every byte of a written URL. */
  function WrittenLevels(w: Written): seq<nat> {
    Const(10, |w.scheme|) + [11, 12, 13] + AuthorityLevels(w.site) + RestPart(w)
  }

  lemma {:induction false} LevelsSizes(w: Written)
    ensures |AuthorityLevels(w.site)| == |w.site.Text()| && |RestPart(w)| == |w.Rest()|
    ensures forall i :: 0 <= i < |AuthorityLevels(w.site)| ==> 20 <= AuthorityLevels(w.site)[i] <= 40
    ensures forall i :: 0 <= i < |RestPart(w)| ==> 50 <= RestPart(w)[i]
  {
    hide AuthorityLevels, TailLevels;
    SiteSizes(w.site);
    var q, f := TailLevels(w.query, SReqQueryStringStart, SReqQueryString),
        TailLevels(w.fragment, SReqFragmentStart, SReqFragment);
    TailSizes(w.query, SReqQueryStringStart, SReqQueryString);
    TailSizes(w.fragment, SReqFragmentStart, SReqFragment);
    assert forall i :: 0 <= i < |q| ==> 50 <= q[i];
    assert forall i :: 0 <= i < |f| ==> 50 <= f[i];
  }

  lemma {:induction false} TailSizes(tail: Option<string>, first: State, s: State)
    requires Level(first) >= 50 && Level(s) >= 50
    ensures var l := TailLevels(tail, first, s);
            |l| == (if tail.Some? then 1 + |tail.value| else 0) && forall i :: 0 <= i < |l| ==> 50 <= l[i]
  {
  }

  lemma {:induction false} SiteSizes(d: Parts)
    ensures |AuthorityLevels(d)| == |d.Text()|
    ensures forall i :: 0 <= i < |AuthorityLevels(d)| ==> 20 <= AuthorityLevels(d)[i] <= 40
  {
    hide HostPart;
    var u := if d.user.Some? then Const(20, |d.user.value|) + [21] else [];
    var p := if d.port.Some? then [32] + Const(40, |d.port.value|) else [];
    HostSizes(d);
    assert forall i :: 0 <= i < |u| ==> 20 <= u[i] <= 40;
    assert forall i :: 0 <= i < |p| ==> 20 <= p[i] <= 40;
    var h := HostPart(d);
    assert AuthorityLevels(d) == u + h + p;
  }

  lemma {:induction false} HostSizes(d: Parts)
    ensures |HostPart(d)| == |d.HostText()| && forall i :: 0 <= i < |HostPart(d)| ==> 20 <= HostPart(d)[i] <= 31
  {
  }

  /** Where levels of `n` begin and end. */
  lemma {:induction false} BelowAt(a: seq<nat>, n: nat, k: nat, b: seq<nat>)
    requires (forall i :: 0 <= i < |a| ==> a[i] < n) && forall i :: 0 <= i < |b| ==> b[i] > n
    ensures Below(a + Const(n, k) + b, n) == |a| && Below(a + Const(n, k) + b, n + 1) == |a| + k
  {
    hide Below;
    var l := a + Const(n, k) + b;
    var x, y := Below(l, n), Below(l, n + 1);
    assert forall i :: 0 <= i < |a| ==> l[i] < n;
    assert forall i :: |a| <= i < |a| + k ==> l[i] == n;
    assert forall i :: |a| + k <= i < |l| ==> l[i] > n;
    if |a| < |l| { assert l[|a|] >= n; }
    if |a| + k < |l| { assert l[|a| + k] > n; }
    if k > 0 { assert l[|a| + k - 1] == n; }
  }

  /** The first loop on a written URL finds the authority. */
  lemma {:induction false} WrittenScanned(w: Written)
    requires w.Ok()
    ensures var s := w.Text(); var a := |w.Front()|;
            && !StateAfter(false, s).SDead? && (MeetsAt(false, s, |s|) <==> w.site.user.Some?)
            && AuthorityStart(false, s) == a && AuthorityEnd(false, s) == a + |w.site.Text()|
            && Authority(false, s) == w.site.Text() && AllLevels(false, s) == WrittenLevels(w)
  {
    hide StateAfter, Levels, MeetsAt, Below, HostLevels, AuthorityLevels, RestPart, IsAlpha;
    var f, d, s := w.Front(), w.site, w.Text();
    FrontScanned(w.scheme);
    SiteScanned(f, d);
    RestScanned(f + d.Text(), w);
    LevelsSizes(w);
    AuthorityRead(d);
    var a, r := Const(10, |w.scheme|) + [11, 12, 13], RestPart(w);
    BelowAt(a, 30, |d.Text()|, r);
    assert s[|f|..|f| + |d.Text()|] == d.Text();
    var l := Levels(false, s);
    assert l == a + Const(30, |d.Text()|) + r;
    assert l[..|f|] == a && l[|f| + |d.Text()|..] == r;
  }

  /** A field is the piece of the URL at its level. */
  lemma {:induction false} FieldAt(s: string, f: UrlField, before: string, piece: string, behind: string, a: seq<nat>,
        b: seq<nat>)
    requires s == before + piece + behind && AllLevels(false, s) == a + Const(Order(f), |piece|) + b && |a| == |before|
    requires (forall i :: 0 <= i < |a| ==> a[i] < Order(f)) && forall i :: 0 <= i < |b| ==> b[i] > Order(f)
    ensures Text(false, s, f) == piece
    ensures Order(f) in AllLevels(false, s) <==> piece != ""
  {
    hide AllLevels, Below;
    BelowAt(a, Order(f), |piece|, b);
    var l := AllLevels(false, s);
    if piece != "" {
      assert l[|a|] == Order(f);
    } else {
      forall i | 0 <= i < |l|
        ensures l[i] != Order(f)
      {
        if i < |a| { assert l[i] == a[i]; } else { assert l[i] == b[i - |a|]; }
      }
    }
  }

  /** Levels below or above `n`. */
  predicate AllUnder(a: seq<nat>, n: nat) { forall i :: 0 <= i < |a| ==> a[i] < n }

  predicate AllOver(b: seq<nat>, n: nat) { forall i :: 0 <= i < |b| ==> b[i] > n }

  lemma {:induction false} SchemeField(w: Written)
    requires w.Ok()
    ensures Text(false, w.Text(), Schema) == w.scheme && Order(Schema) in AllLevels(false, w.Text())
  {
    hide StateAfter, MeetsAt, AllLevels, AuthorityLevels, RestPart, IsAlpha, Authority, AuthorityStart, AuthorityEnd,
         HostAccepted, Const, Written.Rest, Parts.Text, Parts.Ok, Written.RestOk;
    WrittenScanned(w);
    LevelsSizes(w);
    var a, b := AuthorityLevels(w.site), RestPart(w);
    var behind := [11, 12, 13] + a + b;
    assert AllOver(behind, 10);
    Behind(Const(10, |w.scheme|), [11, 12, 13], a, b);
    Behind(w.scheme, "://", w.site.Text(), w.Rest());
    NothingBefore(Const(10, |w.scheme|));
    NothingBefore(w.scheme);
    FieldAt(w.Text(), Schema, "", w.scheme, "://" + w.site.Text() + w.Rest(), [], behind);
  }

  lemma {:induction false} NothingBefore<T>(s: seq<T>)
    ensures [] + s == s
  {
  }

  /** A field of the authority, from its place there. */
  lemma {:induction false} SiteField(w: Written, f: UrlField, before: string, piece: string, behind: string,
        a: seq<nat>, b: seq<nat>)
    requires w.Ok() && w.site.Text() == before + piece + behind && 20 <= Order(f) <= 40
    requires AuthorityLevels(w.site) == a + Const(Order(f), |piece|) + b && |a| == |before|
    requires AllUnder(a, Order(f)) && AllOver(b, Order(f))
    ensures Text(false, w.Text(), f) == piece && (Order(f) in AllLevels(false, w.Text()) <==> piece != "")
  {
    hide StateAfter, MeetsAt, AllLevels, AuthorityLevels, RestPart, IsAlpha, Authority, AuthorityStart, AuthorityEnd,
         HostAccepted, Parts.Text, Written.Ok, Written.Rest;
    WrittenScanned(w);
    LevelsSizes(w);
    var front := Const(10, |w.scheme|) + [11, 12, 13];
    var all, rest := Const(Order(f), |piece|), RestPart(w);
    assert AllUnder(front + a, Order(f));
    assert AllOver(b + rest, Order(f));
    assert front + (a + all + b) + rest == front + a + all + (b + rest);
    assert w.Text() == w.Front() + before + piece + (behind + w.Rest());
    FieldAt(w.Text(), f, w.Front() + before, piece, behind + w.Rest(), front + a, b + rest);
  }

  /** The pieces of an authority: what is nothing where there is no such part. */
  function UserOf(d: Parts): string { if d.user.Some? then d.user.value else "" }

  function PortOf(d: Parts): string { if d.port.Some? then d.port.value else "" }

  function Open(d: Parts): string { (if d.user.Some? then "@" else "") + (if d.v6 then "[" else "") }

  function Close(d: Parts): string { (if d.v6 then "]" else "") + (if d.port.Some? then ":" else "") }

  function OpenLevels(d: Parts): seq<nat> { (if d.user.Some? then [21] else []) + (if d.v6 then [22] else []) }

  function CloseLevels(d: Parts): seq<nat> { (if d.v6 then [31] else []) + (if d.port.Some? then [32] else []) }

  lemma {:induction false} SitePieces(d: Parts)
    requires d.HostOk()
    ensures d.Text() == UserOf(d) + Open(d) + (d.host + d.ZoneText()) + Close(d) + PortOf(d)
    ensures |Open(d)| == |OpenLevels(d)| && |Close(d)| == |CloseLevels(d)|
  {
    hide IsHostChar, AllV6, AllZone;
    var h := d.host + d.ZoneText();
    var a, b := if d.user.Some? then "@" else "", if d.v6 then "[" else "";
    var c, e := if d.v6 then "]" else "", if d.port.Some? then ":" else "";
    assert d.UserText() == UserOf(d) + a;
    PlainZone(d);
    assert d.HostText() == b + h + c;
    assert d.PortText() == e + PortOf(d);
    Regrouped(UserOf(d), a, b, h, c, e, PortOf(d));
  }

  lemma {:induction false} Regrouped<T>(u: seq<T>, a: seq<T>, b: seq<T>, h: seq<T>, c: seq<T>, e: seq<T>, p: seq<T>)
    ensures (u + a) + (b + h + c) + (e + p) == u + (a + b) + h + (c + e) + p
  {
  }

  lemma {:induction false} SiteLevels(d: Parts)
    requires d.HostOk()
    ensures AuthorityLevels(d) ==
            Const(20, |UserOf(d)|) + OpenLevels(d) + Const(30, |d.host + d.ZoneText()|) + CloseLevels(d) +
                Const(40, |PortOf(d)|)
  {
    hide IsHostChar, AllV6, AllZone, Const;
    NoneOf();
    var h := Const(30, |d.host + d.ZoneText()|);
    var u := if d.user.Some? then Const(20, |d.user.value|) + [21] else [];
    var p := if d.port.Some? then [32] + Const(40, |d.port.value|) else [];
    var a, b := if d.user.Some? then [21] else [], if d.v6 then [22] else [];
    var c, e := if d.v6 then [31] else [], if d.port.Some? then [32] else [];
    PlainZone(d);
    assert HostPart(d) == b + h + c;
    assert u == Const(20, |UserOf(d)|) + a;
    assert p == e + Const(40, |PortOf(d)|);
    Regrouped(Const(20, |UserOf(d)|), a, b, h, c, e, Const(40, |PortOf(d)|));
  }

  lemma {:induction false} NoneOf()
    ensures Const(20, 0) == [] && Const(40, 0) == [] && Const(60, 0) == [] && Const(70, 0) == []
  {
  }

  lemma {:induction false} UserField(w: Written)
    requires w.Ok()
    ensures Text(false, w.Text(), UserInfo) == UserOf(w.site)
  {
    hide AllLevels, Url.Text, AuthorityLevels, Parts.Text, Written.Text, IsAlpha, IsUrlChar, IsUserInfoChar, IsHostChar,
         AllV6, AllZone, AllTail, AllDigits, Open, Close, UserOf, PortOf;
    var d := w.site;
    SitePieces(d);
    SiteLevels(d);
    var h := d.host + d.ZoneText();
    var b := OpenLevels(d) + Const(30, |h|) + CloseLevels(d) + Const(40, |PortOf(d)|);
    assert AllOver(b, 20);
    assert AuthorityLevels(d) == [] + Const(20, |UserOf(d)|) + b;
    assert d.Text() == "" + UserOf(d) + (Open(d) + h + Close(d) + PortOf(d));
    SiteField(w, UserInfo, "", UserOf(d), Open(d) + h + Close(d) + PortOf(d), [], b);
  }

  lemma {:induction false} HostField(w: Written)
    requires w.Ok()
    ensures Text(false, w.Text(), Host) == w.site.host + w.site.ZoneText() && Order(Host) in AllLevels(false, w.Text())
  {
    hide AllLevels, Url.Text, AuthorityLevels, Parts.Text, Written.Text, IsAlpha, IsUrlChar, IsUserInfoChar, IsHostChar,
         AllV6, AllZone, AllTail, AllDigits, Open, Close, UserOf, PortOf;
    var d := w.site;
    SitePieces(d);
    SiteLevels(d);
    var h := d.host + d.ZoneText();
    var a, b := Const(20, |UserOf(d)|) + OpenLevels(d), CloseLevels(d) + Const(40, |PortOf(d)|);
    assert AllUnder(a, 30) && AllOver(b, 30);
    assert AuthorityLevels(d) == a + Const(30, |h|) + b;
    assert d.Text() == UserOf(d) + Open(d) + h + (Close(d) + PortOf(d));
    SiteField(w, Host, UserOf(d) + Open(d), h, Close(d) + PortOf(d), a, b);
  }

  lemma {:induction false} PortField(w: Written)
    requires w.Ok()
    ensures Text(false, w.Text(), Port) == PortOf(w.site) &&
            (Order(Port) in AllLevels(false, w.Text()) <==> w.site.port.Some?)
  {
    hide AllLevels, Url.Text, AuthorityLevels, Parts.Text, Written.Text, IsAlpha, IsUrlChar, IsUserInfoChar, IsHostChar,
         AllV6, AllZone, AllTail, AllDigits, Open, Close, UserOf;
    var d := w.site;
    SitePieces(d);
    SiteLevels(d);
    var h := d.host + d.ZoneText();
    var a := Const(20, |UserOf(d)|) + OpenLevels(d) + Const(30, |h|) + CloseLevels(d);
    assert AllUnder(a, 40);
    assert AuthorityLevels(d) == a + Const(40, |PortOf(d)|) + [];
    assert d.Text() == UserOf(d) + Open(d) + h + Close(d) + PortOf(d) + "";
    SiteField(w, Port, UserOf(d) + Open(d) + h + Close(d), PortOf(d), "", a, []);
  }

  lemma {:induction false} PlainZone(d: Parts)
    requires d.HostOk()
    ensures !d.v6 ==> d.ZoneText() == "" && d.host + d.ZoneText() == d.host
  {
  }

  /** A field behind the authority, from its place there. */
  lemma {:induction false} RestField(w: Written, f: UrlField, before: string, piece: string, behind: string,
        a: seq<nat>, b: seq<nat>)
    requires w.Ok() && w.Rest() == before + piece + behind && 50 <= Order(f)
    requires RestPart(w) == a + Const(Order(f), |piece|) + b && |a| == |before|
    requires AllUnder(a, Order(f)) && AllOver(b, Order(f))
    ensures Text(false, w.Text(), f) == piece && (Order(f) in AllLevels(false, w.Text()) <==> piece != "")
  {
    hide StateAfter, MeetsAt, AllLevels, AuthorityLevels, RestPart, IsAlpha, Authority, AuthorityStart, AuthorityEnd,
         HostAccepted, Parts.Text, Written.Ok, Written.Rest;
    WrittenScanned(w);
    LevelsSizes(w);
    var front := Const(10, |w.scheme|) + [11, 12, 13] + AuthorityLevels(w.site);
    var all := Const(Order(f), |piece|);
    assert AllUnder(front + a, Order(f));
    assert front + (a + all + b) == front + a + all + b;
    var head := w.Front() + w.site.Text();
    assert w.Text() == head + before + piece + behind;
    FieldAt(w.Text(), f, head + before, piece, behind, front + a, b);
  }

  function TailOf(tail: Option<string>): string { if tail.Some? then tail.value else "" }

  /** Path, query and fragment. */
  lemma {:induction false} RestFields(w: Written)
    requires w.Ok()
    ensures var s := w.Text();
            && Text(false, s, Path) == w.path && (Order(Path) in AllLevels(false, s) <==> w.path != "")
            && Text(false, s, Query) == TailOf(w.query) && Text(false, s, Fragment) == TailOf(w.fragment)
  {
    hide AllLevels, Url.Text, Written.Ok, Written.Text, Const;
    NoneOf();
    var q, f := TailOf(w.query), TailOf(w.fragment);
    var ql, qt := if w.query.Some? then [51] else [], if w.query.Some? then "?" else "";
    var fl, ft := if w.fragment.Some? then [61] else [], if w.fragment.Some? then "#" else "";
    assert w.QueryText() == qt + q && w.FragmentText() == ft + f;
    assert TailLevels(w.query, SReqQueryStringStart, SReqQueryString) == ql + Const(60, |q|);
    assert TailLevels(w.fragment, SReqFragmentStart, SReqFragment) == fl + Const(70, |f|);
    var x, y := qt + q, ft + f;
    assert w.Rest() == w.path + x + y && RestPart(w) == Const(50, |w.path|) + (ql + Const(60, |q|)) + (fl + Const(70, |f|));
    PathField(w, x, ql + Const(60, |q|), y, fl + Const(70, |f|));
    QueryField(w, qt, ql, q, y, fl + Const(70, |f|));
    FragmentField(w, x, ql + Const(60, |q|), ft, fl, f);
  }

  lemma {:induction false} PathField(w: Written, x: string, xl: seq<nat>, y: string, yl: seq<nat>)
    requires w.Ok() && w.Rest() == w.path + x + y && RestPart(w) == Const(50, |w.path|) + xl + yl
    requires AllOver(xl, 50) && AllOver(yl, 50)
    ensures Text(false, w.Text(), Path) == w.path && (Order(Path) in AllLevels(false, w.Text()) <==> w.path != "")
  {
    hide AllLevels, Url.Text, RestPart, Written.Ok, Written.Text, Written.Rest;
    assert RestPart(w) == [] + Const(50, |w.path|) + (xl + yl) && w.Rest() == "" + w.path + (x + y);
    RestField(w, Path, "", w.path, x + y, [], xl + yl);
  }

  lemma {:induction false} QueryField(w: Written, qt: string, ql: seq<nat>, q: string, y: string, yl: seq<nat>)
    requires w.Ok() && w.Rest() == w.path + (qt + q) + y
    requires RestPart(w) == Const(50, |w.path|) + (ql + Const(60, |q|)) + yl
    requires |qt| == |ql| && ql in {[], [51]} && AllOver(yl, 60)
    ensures Text(false, w.Text(), Query) == q
  {
    hide AllLevels, Url.Text, RestPart, Written.Ok, Written.Text, Written.Rest;
    var a, qs := Const(50, |w.path|) + ql, Const(60, |q|);
    assert AllUnder(a, 60);
    assert RestPart(w) == a + qs + yl && w.Rest() == w.path + qt + q + y;
    RestField(w, Query, w.path + qt, q, y, a, yl);
  }

  lemma {:induction false} FragmentField(w: Written, x: string, xl: seq<nat>, ft: string, fl: seq<nat>, f: string)
    requires w.Ok() && w.Rest() == w.path + x + (ft + f)
    requires RestPart(w) == Const(50, |w.path|) + xl + (fl + Const(70, |f|))
    requires |ft| == |fl| && |x| == |xl| && fl in {[], [61]} && AllUnder(xl, 70)
    ensures Text(false, w.Text(), Fragment) == f
  {
    hide AllLevels, Url.Text, RestPart, Written.Ok, Written.Text, Written.Rest;
    var a, fs := Const(50, |w.path|) + xl + fl, Const(70, |f|);
    assert AllUnder(a, 70);
    assert RestPart(w) == a + fs + [] && w.Rest() == w.path + x + ft + f + "";
    RestField(w, Fragment, w.path + x + ft, f, "", a, []);
  }

  /**
   * Round trip: an absolute URL put together from its parts is accepted exactly if its port is at most 65535, and its
   * fields are those parts. Together with `ParseUrl` this is what the parser makes of it.
   */
  lemma {:induction false} UrlRoundTrip(w: Written)
    requires w.Ok()
    ensures var s, d := w.Text(), w.site;
            && (UrlAccepted(false, s) <==> PortNumber(false, s) <= 0xffff)
            && PortNumber(false, s) == (if d.port.Some? then DecimalValue(d.port.value) else 0)
            && Text(false, s, Schema) == w.scheme
            && Text(false, s, UserInfo) == UserOf(d) && Text(false, s, Host) == d.host + d.ZoneText()
            && Text(false, s, Port) == PortOf(d) && Text(false, s, Path) == w.path
            && Text(false, s, Query) == TailOf(w.query) && Text(false, s, Fragment) == TailOf(w.fragment)
  {
    hide AllLevels, Url.Text, StateAfter, MeetsAt, HostAccepted, Written.Text, IsAlpha, IsUrlChar, IsUserInfoChar,
         IsHostChar, AuthorityStart, AuthorityEnd, Authority, WrittenLevels, AllV6, AllZone, DecimalValue;
    WrittenScanned(w);
    SchemeField(w);
    UserField(w);
    HostField(w);
    PortField(w);
    RestFields(w);
    AuthorityRead(w.site);
    assert AllDigits("") && DecimalValue("") == 0 by { NoDigits(); }
  }

  /**
   * What `handlePath` makes of it: the new host is the host, with its port; the new path is all that follows the
   * authority, unless that does not begin with a path, or its path has a multiple of 65536 bytes.
   */
  lemma {:induction false} WrittenCut(w: Written)
    requires w.Ok() && PortNumber(false, w.Text()) <= 0xffff
    ensures Absolute(w.Text()) && (InReach(false, w.Text()) <==> |w.Front() + w.site.Text()| <= 0xffff)
    ensures !w.site.v6 ==> NewHost(w.Text()) == w.site.host + w.site.PortText()
    ensures NewPath(w.Text()) == if |w.path| % 0x1_0000 != 0 then w.Rest() else "/"
  {
    hide AllLevels, Url.Text, StateAfter, MeetsAt, HostAccepted, Written.Text, Written.Ok, AuthorityLength,
         AuthorityStart, AuthorityEnd, Authority, WrittenLevels, DecimalValue, NewHost, NewPath, PortNumber;
    UrlRoundTrip(w);
    SchemeField(w);
    HostField(w);
    WrittenScanned(w);
    RestSurvives(w.Text());
    WrittenText(w);
    if !w.site.v6 { HostCut(w); }
  }

  lemma {:induction false} WrittenText(w: Written)
    requires w.Ok()
    ensures var n := |w.Front() + w.site.Text()|;
            n <= |w.Text()| && w.Text()[n..] == w.Rest() && w.site.Text() != ""
  {
    hide IsAlpha, IsUrlChar, IsUserInfoChar, IsHostChar, AllV6, AllZone, AllTail;
  }

  lemma {:induction false} HostCut(w: Written)
    requires w.Ok() && !w.site.v6 && Absolute(w.Text())
    ensures NewHost(w.Text()) == w.site.host + w.site.PortText()
  {
    hide AllLevels, StateAfter, MeetsAt, HostAccepted, Absolute, AuthorityStart, AuthorityEnd, Authority, PortNumber,
         IsAlpha, IsUrlChar, IsUserInfoChar, IsHostChar, AllV6, AllZone, AllTail, Below, AuthorityLevels, RestPart,
         Url.Text;
    HostField(w);
    PortField(w);
    HostPlace(w);
    PlainZone(w.site);
    var d, s := w.site, w.Text();
    var a := w.Front() + d.UserText();
    assert s == a + (d.host + d.PortText()) + w.Rest();
    assert s[|a|..|a| + |d.host + d.PortText()|] == d.host + d.PortText();
  }

  lemma {:induction false} HostPlace(w: Written)
    requires w.Ok() && !w.site.v6
    ensures Below(AllLevels(false, w.Text()), 30) == |w.Front() + w.site.UserText()|
  {
    hide AllLevels, StateAfter, MeetsAt, HostAccepted, AuthorityStart, AuthorityEnd, Authority, IsAlpha, IsUrlChar,
         IsUserInfoChar, IsHostChar, AllTail, Below, RestPart, Written.Text, Parts.Text, AuthorityLevels, OpenLevels,
         CloseLevels, UserOf, PortOf, AllV6, AllZone;
    WrittenScanned(w);
    LevelsSizes(w);
    var d := w.site;
    SiteLevels(d);
    var front, rest := Const(10, |w.scheme|) + [11, 12, 13], RestPart(w);
    var h := Const(30, |d.host + d.ZoneText()|);
    var a, b := Const(20, |UserOf(d)|) + OpenLevels(d), CloseLevels(d) + Const(40, |PortOf(d)|);
    SiteOrder(d);
    assert AllUnder(front + a, 30) && AllOver(b + rest, 30);
    assert a + h + CloseLevels(d) + Const(40, |PortOf(d)|) == a + h + b;
    BelowInside(front, a, 30, |d.host + d.ZoneText()|, b, rest);
  }

  lemma {:induction false} BelowInside(front: seq<nat>, a: seq<nat>, n: nat, k: nat, b: seq<nat>, rest: seq<nat>)
    requires AllUnder(front + a, n) && AllOver(b + rest, n)
    ensures Below(front + (a + Const(n, k) + b) + rest, n) == |front + a|
  {
    hide Below;
    var h := Const(n, k);
    assert front + (a + h + b) + rest == front + a + h + (b + rest);
    BelowAt(front + a, n, k, b + rest);
  }

  lemma {:induction false} SiteOrder(d: Parts)
    ensures AllUnder(Const(20, |UserOf(d)|) + OpenLevels(d), 30) && AllOver(CloseLevels(d) + Const(40, |PortOf(d)|), 30)
    ensures !d.v6 ==> |Const(20, |UserOf(d)|) + OpenLevels(d)| == |d.UserText()|
  {
  }
}
