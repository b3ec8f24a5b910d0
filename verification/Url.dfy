/**
 * Splitting a URL into its fields: `http_parser_parse_url` and `http_parse_host`, each a loop over the bytes
 * that records where every field starts and how long it is.
 */
module Url {
  import opened Chars
  import opened HttpParser
  import opened Lengths

  datatype UrlField = Schema | UserInfo | Host | Port | Path | Query | Fragment

  /** Where a field lies in the URL. */
  datatype Slice = Slice(off: nat, len: nat)

  /** The fields found: the keys are the bits of `field_set`. */
  type Fields = map<UrlField, Slice>

  /** The place of a field in the text. */
  function Order(f: UrlField): nat {
    match f
    case Schema => 10 case UserInfo => 20 case Host => 30 case Port => 40 case Path => 50 case Query => 60
    case Fragment => 70
  }

  lemma {:induction false} OrderDecides(f: UrlField, g: UrlField)
    ensures Order(f) == Order(g) ==> f == g
  {
  }

  // ---------------------------------------------------------------- 16-bit fields

  /** What a `uint16_t` keeps of a number. */
  function Short(n: nat): nat { n % 0x1_0000 }

  lemma {:induction false} ShortSteps(n: nat)
    ensures Short(n) <= n && Short(Short(n) + 1) == Short(n + 1) && (n < 0x1_0000 ==> Short(n) == n)
  {
  }

  /** The fields as they are stored: offsets and lengths in 16 bits. */
  function Stored(x: Fields): Fields { map f | f in x :: Slice(Short(x[f].off), Short(x[f].len)) }

  lemma {:induction false} StoredUpdate(x: Fields, f: UrlField, p: Slice)
    ensures Stored(x[f := p]) == Stored(x)[f := Slice(Short(p.off), Short(p.len))]
  {
  }

  lemma {:induction false} StoredSum(x: Fields, y: Fields)
    ensures Stored(x + y) == Stored(x) + Stored(y)
  {
  }

  /** One more byte of the field `f`, or its first byte. */
  function Grown(x: Fields, f: UrlField, i: nat, more: bool): Fields
    requires more ==> f in x
  {
    x[f := if more then Slice(x[f].off, x[f].len + 1) else Slice(i, 1)]
  }

  lemma {:induction false} StoredGrows(x: Fields, f: UrlField, i: nat, more: bool)
    requires more ==> f in x
    ensures Stored(Grown(x, f, i, more)) ==
            Stored(x)[f := if more then Slice(Stored(x)[f].off, Short(Stored(x)[f].len + 1)) else Slice(Short(i), 1)]
  {
    hide Short, Stored;
    if more { ShortSteps(x[f].len); StoredAt(x, f); }
    ShortSteps(1);
    StoredUpdate(x, f, if more then Slice(x[f].off, x[f].len + 1) else Slice(i, 1));
  }

  lemma {:induction false} StoredKeys(x: Fields)
    ensures Stored(x).Keys == x.Keys
  {
  }

  lemma {:induction false} NothingStored()
    ensures Stored(map[]) == map[]
  {
  }

  lemma {:induction false} StoredAt(x: Fields, f: UrlField)
    ensures f in x <==> f in Stored(x)
    ensures f in x ==> Stored(x)[f] == Slice(Short(x[f].off), Short(x[f].len))
  {
  }

  // ---------------------------------------------------------------- fields are runs of a rising sequence

  /** Byte `k` lies in the recorded field `f`. */
  predicate In(u: Fields, f: UrlField, k: nat) { f in u && u[f].off <= k < u[f].off + u[f].len }

  /** A scan gives every byte a level, and levels never fall. */
  ghost predicate Rising(levels: seq<nat>) { forall i, j :: 0 <= i <= j < |levels| ==> levels[i] <= levels[j] }

  /** The recorded fields are exactly the bytes of their level among those from `from` to `i`; none is empty. */
  ghost predicate RunsOk(levels: seq<nat>, from: nat, i: nat, u: Fields) {
    && from <= i <= from + |levels|
    && (forall f :: f in u ==> u[f].len > 0 && from <= u[f].off && u[f].off + u[f].len <= i)
    && (forall f, k :: from <= k < i ==> (In(u, f, k) <==> levels[k - from] == Order(f)))
  }

  /** Recorded fields lie at or below the level of the next byte. */
  lemma {:induction false} RecordedBelow(levels: seq<nat>, from: nat, i: nat, u: Fields, g: UrlField)
    requires RunsOk(levels, from, i, u) && i < from + |levels| && Rising(levels) && g in u
    ensures Order(g) <= levels[i - from]
  {
    assert In(u, g, u[g].off);
  }

  /** One more byte of the field recorded last extends it. */
  lemma {:induction false} RunExtends(levels: seq<nat>, from: nat, i: nat, u: Fields, f: UrlField)
    requires RunsOk(levels, from, i, u) && i < from + |levels| && Rising(levels) && levels[i - from] == Order(f)
    requires f in u
    ensures u[f].off + u[f].len == i && RunsOk(levels, from, i + 1, u[f := Slice(u[f].off, u[f].len + 1)])
  {
    assert In(u, f, u[f].off);
    assert In(u, f, i - 1);
    var v := u[f := Slice(u[f].off, u[f].len + 1)];
    forall g, k: nat | from <= k < i + 1
      ensures In(v, g, k) <==> levels[k - from] == Order(g)
    {
      if k < i { assert In(u, g, k) <==> levels[k - from] == Order(g); }
      OrderDecides(f, g);
    }
  }

  /** The first byte of a field opens it. */
  lemma {:induction false} RunOpens(levels: seq<nat>, from: nat, i: nat, u: Fields, f: UrlField)
    requires RunsOk(levels, from, i, u) && i < from + |levels| && levels[i - from] == Order(f) && f !in u
    ensures RunsOk(levels, from, i + 1, u[f := Slice(i, 1)])
  {
    var v := u[f := Slice(i, 1)];
    forall g, k: nat | from <= k < i + 1
      ensures In(v, g, k) <==> levels[k - from] == Order(g)
    {
      if k < i { assert In(u, g, k) <==> levels[k - from] == Order(g); }
      OrderDecides(f, g);
    }
  }

  /** The loop opens a field only once: a field it meets again is the one it recorded last. */
  lemma {:induction false} RunGrows(levels: seq<nat>, from: nat, i: nat, u: Fields, last: Option<UrlField>, f: UrlField)
    requires RunsOk(levels, from, i, u) && i < from + |levels| && Rising(levels) && levels[i - from] == Order(f)
    requires last.Some? ==> last.value in u
    requires forall g :: g in u ==> last.Some? && Order(g) <= Order(last.value)
    ensures last == Some(f) ==> RunsOk(levels, from, i + 1, u[f := Slice(u[f].off, u[f].len + 1)])
    ensures last != Some(f) ==> RunsOk(levels, from, i + 1, u[f := Slice(i, 1)])
    ensures forall g :: g in u ==> Order(g) <= Order(f)
  {
    hide RunsOk, Rising;
    forall g | g in u
      ensures Order(g) <= Order(f)
    {
      RecordedBelow(levels, from, i, u, g);
    }
    if f in u {
      OrderDecides(f, last.value);
      RunExtends(levels, from, i, u, f);
    } else {
      RunOpens(levels, from, i, u, f);
    }
  }

  lemma {:induction false} NoFieldHere(levels: seq<nat>, from: nat, i: nat, u: Fields)
    requires RunsOk(levels, from, i, u) && i < from + |levels| && forall f: UrlField :: levels[i - from] != Order(f)
    ensures RunsOk(levels, from, i + 1, u)
  {
  }

  lemma {:induction false} NoRuns(levels: seq<nat>, from: nat)
    ensures RunsOk(levels, from, from, map[])
  {
  }

  /** Fields are disjoint and in textual order. */
  lemma {:induction false} InOrder(levels: seq<nat>, from: nat, i: nat, u: Fields, f: UrlField, g: UrlField)
    requires RunsOk(levels, from, i, u) && Rising(levels) && f in u && g in u && Order(f) < Order(g)
    ensures u[f].off + u[f].len <= u[g].off
  {
    var a, b := u[f].off + u[f].len - 1, u[g].off;
    assert In(u, f, a) && In(u, g, b);
    assert levels[a - from] == Order(f) && levels[b - from] == Order(g);
  }

  // ---------------------------------------------------------------- the URL states

  function Start(connect: bool): State { if connect then SReqServerStart else SReqSpacesBeforeUrl }

  /** The URL state after the bytes `s`. */
  function StateAfter(connect: bool, s: string): State {
    if s == "" then Start(connect) else ParseUrlChar(StateAfter(connect, s[..|s| - 1]), s[|s| - 1])
  }

  /** The field a byte belongs to, by the state it leads to; delimiters belong to none. */
  function FieldOf(s: State): Option<UrlField> {
    if s.SReqSchema? then Some(Schema)
    else if s.SReqServer? || s.SReqServerWithAt? then Some(Host)
    else if s.SReqPath? then Some(Path)
    else if s.SReqQueryString? then Some(Query)
    else if s.SReqFragment? then Some(Fragment)
    else None
  }

  /** How far into the URL a state is. */
  function Level(s: State): nat {
    if s.SReqSpacesBeforeUrl? then 0
    else if s.SReqSchema? then 10
    else if s.SReqSchemaSlash? then 11
    else if s.SReqSchemaSlashSlash? then 12
    else if s.SReqServerStart? then 13
    else if s.SReqServer? || s.SReqServerWithAt? then 30
    else if s.SReqPath? then 50
    else if s.SReqQueryStringStart? then 51
    else if s.SReqQueryString? then 60
    else if s.SReqFragmentStart? then 61
    else if s.SReqFragment? then 70
    else 99
  }

  lemma {:induction false} FieldByLevel(s: State)
    ensures FieldOf(s).Some? ==> Level(s) == Order(FieldOf(s).value)
    ensures FieldOf(s).None? ==> forall f: UrlField :: Level(s) != Order(f)
  {
  }

  /** URL states never go back. */
  lemma {:induction false} LevelRises(s: State, c: char)
    ensures Level(s) <= Level(ParseUrlChar(s, c))
  {
  }

  function Levels(connect: bool, s: string): (r: seq<nat>)
    ensures |r| == |s|
  {
    seq(|s|, i requires 0 <= i < |s| => Level(StateAfter(connect, s[..i + 1])))
  }

  lemma {:induction false} LevelsRise(connect: bool, s: string, i: nat, j: nat)
    requires i <= j < |s|
    ensures Levels(connect, s)[i] <= Levels(connect, s)[j]
    decreases j
  {
    hide ParseUrlChar, Level;
    if i < j {
      LevelsRise(connect, s, i, j - 1);
      StateStep(connect, s, j);
      LevelRises(StateAfter(connect, s[..j]), s[j]);
    }
  }

  lemma {:induction false} LevelsRising(connect: bool, s: string)
    ensures Rising(Levels(connect, s))
  {
    hide Levels;
    forall i, j | 0 <= i <= j < |s| { LevelsRise(connect, s, i, j); }
  }

  lemma {:induction false} StateStep(connect: bool, s: string, i: nat)
    requires i < |s|
    ensures StateAfter(connect, s[..i + 1]) == ParseUrlChar(StateAfter(connect, s[..i]), s[i])
  {
    assert s[..i + 1][..i] == s[..i];
  }

  lemma {:induction false} DeadStays(connect: bool, s: string, i: nat)
    requires i <= |s| && StateAfter(connect, s[..i]).SDead?
    ensures StateAfter(connect, s).SDead?
    decreases |s| - i
  {
    if i == |s| {
      assert s[..i] == s;
    } else {
      StateStep(connect, s, i);
      DeadStays(connect, s, i + 1);
    }
  }

  /** Whether the loop meets an '@' in the authority. */
  ghost predicate MeetsAt(connect: bool, s: string, i: nat)
    requires i <= |s|
  {
    exists k :: 0 < k <= i && StateAfter(connect, s[..k]).SReqServerWithAt?
  }

  /** The outcome of the first loop. */
  datatype Scan = Scan(u: Fields, foundAt: bool)

  /**
   * The loop of `http_parser_parse_url` over the bytes of the URL; None if a byte is not allowed. What is stored of
   * the fields `x` is 16 bits wide.
   */
  method ScanFields(s: string, connect: bool) returns (r: Option<Scan>, ghost x: Fields)
    ensures r.None? <==> StateAfter(connect, s).SDead?
    ensures r.Some? ==> RunsOk(Levels(connect, s), 0, |s|, x) && r.value.u == Stored(x)
    ensures r.Some? ==> (r.value.foundAt <==> MeetsAt(connect, s, |s|))
  {
    hide ParseUrlChar, RunsOk, Level, Rising, Short, Stored;
    var u: Fields := map[];
    x := map[];
    NothingStored();
    var last: Option<UrlField> := None;
    var state := Start(connect);
    var foundAt := false;
    ghost var levels := Levels(connect, s);
    NoRuns(levels, 0);
    LevelsRising(connect, s);
    assert s[..0] == "";
    var i := 0;
    while i < |s|
      invariant 0 <= i <= |s| && state == StateAfter(connect, s[..i]) && !state.SDead?
      invariant RunsOk(levels, 0, i, x) && u == Stored(x)
      invariant last.Some? ==> last.value in x
      invariant forall g :: g in x ==> last.Some? && Order(g) <= Order(last.value)
      invariant foundAt <==> MeetsAt(connect, s, i)
    {
      StateStep(connect, s, i);
      state := ParseUrlChar(state, s[i]);
      if state.SDead? {
        DeadStays(connect, s, i + 1);
        return None, x;
      }
      foundAt := foundAt || state.SReqServerWithAt?;
      var uf := FieldOf(state);
      FieldByLevel(state);
      if uf.Some? {
        var f := uf.value;
        RunGrows(levels, 0, i, x, last, f);
        StoredAt(x, f);
        StoredGrows(x, f, i, uf == last);
        u := u[f := if uf == last then Slice(u[f].off, Short(u[f].len + 1)) else Slice(Short(i), 1)];
        x := Grown(x, f, i, uf == last);
        last := uf;
      } else {
        NoFieldHere(levels, 0, i, x);
      }
      i := i + 1;
    }
    assert s[..i] == s;
    return Some(Scan(u, foundAt)), x;
  }

  // ---------------------------------------------------------------- the authority

  datatype HostState =
    | HostDead | UserInfoStart | InUserInfo | HostStart | V6Start | InHost | InV6 | V6End | V6ZoneStart | InV6Zone
    | PortStart | InPort

  predicate IsHex(c: char) { IsNum(c) || 'a' <= Lower(c) <= 'f' }

  predicate IsZoneChar(c: char) { IsAlphaNum(c) || c == '%' || c == '.' || c == '-' || c == '_' || c == '~' }

  /** `http_parse_host_char`. */
  function ParseHostChar(s: HostState, ch: char): HostState {
    match s
    case UserInfoStart => if ch == '@' then HostStart else if IsUserInfoChar(ch) then InUserInfo else HostDead
    case InUserInfo => if ch == '@' then HostStart else if IsUserInfoChar(ch) then InUserInfo else HostDead
    case HostStart => if ch == '[' then V6Start else if IsHostChar(ch) then InHost else HostDead
    case InHost => if IsHostChar(ch) then InHost else if ch == ':' then PortStart else HostDead
    case V6End => if ch == ':' then PortStart else HostDead
    case InV6 =>
      if ch == ']' then V6End else if IsHex(ch) || ch == ':' || ch == '.' then InV6
      else if ch == '%' then V6ZoneStart else HostDead
    case V6Start => if IsHex(ch) || ch == ':' || ch == '.' then InV6 else HostDead
    case InV6Zone => if ch == ']' then V6End else if IsZoneChar(ch) then InV6Zone else HostDead
    case V6ZoneStart => if IsZoneChar(ch) then InV6Zone else HostDead
    case PortStart => if IsNum(ch) then InPort else HostDead
    case InPort => if IsNum(ch) then InPort else HostDead
    case HostDead => HostDead
  }

  function HostFieldOf(s: HostState): Option<UrlField> {
    if s.InHost? || s.InV6? || s.V6ZoneStart? || s.InV6Zone? then Some(Host)
    else if s.InPort? then Some(Port)
    else if s.InUserInfo? then Some(UserInfo)
    else None
  }

  function HostLevel(s: HostState): nat {
    match s
    case UserInfoStart => 0 case InUserInfo => 20 case HostStart => 21 case V6Start => 22 case InHost => 30
    case InV6 => 30 case V6ZoneStart => 30 case InV6Zone => 30 case V6End => 31 case PortStart => 32
    case InPort => 40 case HostDead => 99
  }

  lemma {:induction false} HostFieldByLevel(s: HostState)
    ensures HostFieldOf(s).Some? ==> HostLevel(s) == Order(HostFieldOf(s).value)
    ensures HostFieldOf(s).None? ==> forall f: UrlField :: HostLevel(s) != Order(f)
  {
  }

  /** The states an authority must not end in. */
  predicate HostUnfinished(s: HostState) {
    s.HostStart? || s.V6Start? || s.InV6? || s.V6ZoneStart? || s.InV6Zone? || s.PortStart? || s.InUserInfo? ||
    s.UserInfoStart?
  }

  function HostStateAfter(foundAt: bool, t: string): HostState {
    if t == "" then (if foundAt then UserInfoStart else HostStart)
    else ParseHostChar(HostStateAfter(foundAt, t[..|t| - 1]), t[|t| - 1])
  }

  function HostLevels(foundAt: bool, t: string): (r: seq<nat>)
    ensures |r| == |t|
  {
    seq(|t|, i requires 0 <= i < |t| => HostLevel(HostStateAfter(foundAt, t[..i + 1])))
  }

  lemma {:induction false} HostStep(foundAt: bool, t: string, i: nat)
    requires i < |t|
    ensures HostStateAfter(foundAt, t[..i + 1]) == ParseHostChar(HostStateAfter(foundAt, t[..i]), t[i])
  {
    assert t[..i + 1][..i] == t[..i];
  }

  lemma {:induction false} HostLevelRises(s: HostState, c: char)
    ensures HostLevel(s) <= HostLevel(ParseHostChar(s, c))
  {
  }

  lemma {:induction false} HostLevelsRise(foundAt: bool, t: string, i: nat, j: nat)
    requires i <= j < |t|
    ensures HostLevels(foundAt, t)[i] <= HostLevels(foundAt, t)[j]
    decreases j
  {
    hide ParseHostChar, HostLevel;
    if i < j {
      HostLevelsRise(foundAt, t, i, j - 1);
      HostStep(foundAt, t, j);
      HostLevelRises(HostStateAfter(foundAt, t[..j]), t[j]);
    }
  }

  lemma {:induction false} HostDeadStays(foundAt: bool, t: string, i: nat)
    requires i <= |t| && HostStateAfter(foundAt, t[..i]).HostDead?
    ensures HostStateAfter(foundAt, t).HostDead?
    decreases |t| - i
  {
    if i == |t| {
      assert t[..i] == t;
    } else {
      HostStep(foundAt, t, i);
      HostDeadStays(foundAt, t, i + 1);
    }
  }

  /** An authority `http_parse_host` accepts. */
  predicate HostAccepted(foundAt: bool, t: string) {
    var s := HostStateAfter(foundAt, t);
    !s.HostDead? && !HostUnfinished(s)
  }

  /** Behind every state from the host on lies a byte of the host. */
  lemma {:induction false} HostSeen(foundAt: bool, t: string) returns (k: nat)
    requires HostLevel(HostStateAfter(foundAt, t)) in {30, 31, 32, 40}
    ensures k < |t| && HostLevels(foundAt, t)[k] == 30
    decreases |t|
  {
    hide ParseHostChar;
    var n := |t| - 1;
    HostStep(foundAt, t, n);
    assert t[..n + 1] == t;
    if HostLevel(HostStateAfter(foundAt, t)) == 30 {
      k := n;
    } else {
      HostBefore(HostStateAfter(foundAt, t[..n]), t[n]);
      k := HostSeen(foundAt, t[..n]);
      assert t[..n][..k + 1] == t[..k + 1];
    }
  }

  lemma {:induction false} HostBefore(s: HostState, c: char)
    requires HostLevel(ParseHostChar(s, c)) in {31, 32, 40}
    ensures HostLevel(s) in {30, 31, 32, 40}
  {
  }

  lemma {:induction false} HasHost(levels: seq<nat>, from: nat, to: nat, u: Fields, foundAt: bool, t: string)
    requires RunsOk(levels, from, to, u) && levels == HostLevels(foundAt, t) && to == from + |t|
    requires HostAccepted(foundAt, t)
    ensures Host in u
  {
    hide HostLevels, ParseHostChar;
    var k := HostSeen(foundAt, t);
    assert In(u, Host, from + k);
  }

  /** `http_parse_host` on the bytes `from..to` of the URL: what is stored of the fields `x` of the authority. */
  method ParseHost(s: string, from: nat, to: nat, foundAt: bool) returns (r: Option<Fields>, ghost x: Fields)
    requires from <= to <= |s|
    ensures r.Some? <==> HostAccepted(foundAt, s[from..to])
    ensures r.Some? ==> RunsOk(HostLevels(foundAt, s[from..to]), from, to, x) && Host in x && r.value == Stored(x)
  {
    hide ParseHostChar, RunsOk, HostLevel, Rising, Short, Stored;
    ghost var t := s[from..to];
    ghost var levels := HostLevels(foundAt, t);
    assert Rising(levels) by { HostLevelsRising(foundAt, t); }
    var u: Fields := map[];
    x := map[];
    NothingStored();
    var state := if foundAt then UserInfoStart else HostStart;
    ghost var last: Option<UrlField> := None;
    NoRuns(levels, from);
    assert t[..0] == "";
    var i := from;
    while i < to
      invariant from <= i <= to && state == HostStateAfter(foundAt, t[..i - from]) && !state.HostDead?
      invariant RunsOk(levels, from, i, x) && u == Stored(x)
      invariant last.Some? ==> last.value in x
      invariant forall g :: g in x ==> last.Some? && Order(g) <= Order(last.value)
      invariant i > from ==> (HostFieldOf(state).Some? ==> last == HostFieldOf(state))
      invariant last.Some? && HostFieldOf(state).None? ==> Order(last.value) < HostLevel(state)
      invariant i == from ==> last.None?
    {
      HostStep(foundAt, t, i - from);
      assert t[i - from] == s[i];
      var next := ParseHostChar(state, s[i]);
      if next.HostDead? {
        HostDeadStays(foundAt, t, i - from + 1);
        return None, x;
      }
      HostLevelRises(state, s[i]);
      HostFieldByLevel(state);
      HostFieldByLevel(next);
      var uf := HostFieldOf(next);
      if uf.Some? {
        var f := uf.value;
        RunGrows(levels, from, i, x, last, f);
        // A field goes on exactly when the state before was in it.
        if last == uf { OrderDecides(f, f); }
        StoredAt(x, f);
        var more := HostFieldOf(state) == uf;
        StoredGrows(x, f, i, more);
        u := u[f := if more then Slice(u[f].off, Short(u[f].len + 1)) else Slice(Short(i), 1)];
        x := Grown(x, f, i, more);
        last := uf;
      } else {
        NoFieldHere(levels, from, i, x);
      }
      state, i := next, i + 1;
    }
    assert t[..i - from] == t;
    if HostUnfinished(state) { return None, x; }
    HasHost(levels, from, to, x, foundAt, t);
    return Some(u), x;
  }

  lemma {:induction false} HostLevelsRising(foundAt: bool, t: string)
    ensures Rising(HostLevels(foundAt, t))
  {
    hide HostLevels;
    forall i, j | 0 <= i <= j < |t| { HostLevelsRise(foundAt, t, i, j); }
  }

  // ---------------------------------------------------------------- the whole URL

  /** The first index whose level is at least `n`. */
  function Below(levels: seq<nat>, n: nat): (r: nat)
    ensures r <= |levels| && (forall k :: 0 <= k < r ==> levels[k] < n) && (r < |levels| ==> levels[r] >= n)
  {
    if levels == [] || levels[0] >= n then 0 else 1 + Below(levels[1..], n)
  }

  function AuthorityStart(connect: bool, s: string): (r: nat)
    ensures r <= |s|
  {
    Below(Levels(connect, s), 30)
  }

  function AuthorityEnd(connect: bool, s: string): (r: nat)
    ensures AuthorityStart(connect, s) <= r <= |s|
  {
    Below(Levels(connect, s), 31)
  }

  /** The bytes between "//" and the path: user information, host and port. */
  function Authority(connect: bool, s: string): string { s[AuthorityStart(connect, s)..AuthorityEnd(connect, s)] }

  /** The level of every byte of the URL, where those of the authority have the level the host parser gives them. */
  ghost function AllLevels(connect: bool, s: string): (r: seq<nat>)
    ensures |r| == |s|
  {
    var t := Authority(connect, s);
    Levels(connect, s)[..AuthorityStart(connect, s)] + HostLevels(MeetsAt(connect, s, |s|), t) +
    Levels(connect, s)[AuthorityEnd(connect, s)..]
  }

  /** The text of a field, empty if the URL does not have it. */
  ghost function Text(connect: bool, s: string, f: UrlField): string {
    var levels := AllLevels(connect, s);
    if Below(levels, Order(f)) <= Below(levels, Order(f) + 1)
    then s[Below(levels, Order(f))..Below(levels, Order(f) + 1)] else ""
  }

  /** The URLs `http_parser_parse_url` accepts. */
  ghost predicate UrlAccepted(connect: bool, s: string) {
    && !StateAfter(connect, s).SDead?
    && (Order(Schema) in AllLevels(connect, s) ==> Authority(connect, s) != "")
    && (Authority(connect, s) != "" ==> HostAccepted(MeetsAt(connect, s, |s|), Authority(connect, s)))
    && (connect ==> forall f :: Order(f) in AllLevels(connect, s) <==> f == Host || f == Port)
    && PortNumber(connect, s) <= 0xffff
  }

  /** The decimal value of the port, 0 if the URL has none. */
  ghost function PortNumber(connect: bool, s: string): nat {
    var t := Text(connect, s, Port);
    if AllDigits(t) then DecimalValue(t) else 0
  }

  /** The recorded fields are the texts of the levels. */
  lemma {:induction false} FieldIsText(levels: seq<nat>, u: Fields, f: UrlField)
    requires RunsOk(levels, 0, |levels|, u) && Rising(levels)
    ensures f in u <==> Order(f) in levels
    ensures f in u ==>
              && u[f].len > 0 && u[f].off == Below(levels, Order(f))
              && u[f].off + u[f].len == Below(levels, Order(f) + 1)
  {
    hide Below;
    if f in u {
      var a, b := u[f].off, u[f].off + u[f].len;
      assert In(u, f, a) && In(u, f, b - 1);
      assert levels[a - 0] == Order(f) && levels[b - 1 - 0] == Order(f);
      var x, y := Below(levels, Order(f)), Below(levels, Order(f) + 1);
      assert x <= a && levels[x] <= levels[a];
      assert In(u, f, x) <==> levels[x - 0] == Order(f);
      assert b <= y;
      if b < |levels| { assert levels[b - 1] <= levels[b]; assert In(u, f, b) <==> levels[b - 0] == Order(f); }
    }
    if Order(f) in levels {
      var k :| 0 <= k < |levels| && levels[k] == Order(f);
      assert In(u, f, k) <==> levels[k - 0] == Order(f);
    }
  }

  /** The bytes of the authority are those at the level of the host. */
  lemma {:induction false} AuthorityIsHost(levels: seq<nat>, k: nat)
    requires Rising(levels) && k < |levels|
    ensures levels[k] == 30 <==> Below(levels, 30) <= k < Below(levels, 31)
  {
    hide Below;
    var a, b := Below(levels, 30), Below(levels, 31);
    if a <= k { assert levels[a] <= levels[k]; }
    if b <= k { assert levels[b] <= levels[k]; }
  }

  lemma {:induction false} LevelValues(connect: bool, s: string, k: nat)
    requires k < |s|
    ensures Levels(connect, s)[k] in {0, 10, 11, 12, 13, 30, 50, 51, 60, 61, 70, 99}
  {
    hide StateAfter;
  }

  lemma {:induction false} HostLevelValues(foundAt: bool, t: string, k: nat)
    requires k < |t| && !HostStateAfter(foundAt, t).HostDead?
    ensures HostLevels(foundAt, t)[k] in {20, 21, 22, 30, 31, 32, 40}
  {
    hide HostStateAfter, ParseHostChar;
    HostStep(foundAt, t, k);
    if HostStateAfter(foundAt, t[..k + 1]).HostDead? { HostDeadStays(foundAt, t, k + 1); }
    AfterByte(HostStateAfter(foundAt, t[..k]), t[k]);
  }

  lemma {:induction false} AfterByte(s: HostState, c: char)
    ensures !ParseHostChar(s, c).UserInfoStart?
  {
  }

  /** Replacing the host run by the fields of the authority keeps every recorded run exact. */
  lemma {:induction false} MergeRuns(levels: seq<nat>, host: seq<nat>, a: nat, b: nat, u: Fields, h: Fields)
    requires a <= b <= |levels| && |host| == b - a
    requires RunsOk(levels, 0, |levels|, u) && RunsOk(host, a, b, h) && Host in h
    requires forall k :: 0 <= k < |levels| ==> (levels[k] == 30 <==> a <= k < b) && levels[k] != 20 && levels[k] != 40
    requires forall k :: 0 <= k < |host| ==> host[k] in {20, 21, 22, 30, 31, 32, 40}
    ensures RunsOk(levels[..a] + host + levels[b..], 0, |levels|, u + h)
  {
    var v := u + h;
    var all := levels[..a] + host + levels[b..];
    forall f, k: nat | 0 <= k < |levels|
      ensures In(v, f, k) <==> all[k - 0] == Order(f)
    {
      assert In(u, f, k) <==> levels[k - 0] == Order(f);
      if a <= k < b {
        assert In(h, f, k) <==> host[k - a] == Order(f);
      } else if f in h {
        assert In(h, f, h[f].off);
      }
    }
  }

  lemma {:induction false} AllRising(connect: bool, s: string)
    requires Authority(connect, s) != "" ==> !HostStateAfter(MeetsAt(connect, s, |s|), Authority(connect, s)).HostDead?
    ensures Rising(AllLevels(connect, s))
  {
    hide Below, Levels, HostLevels, HostStateAfter, MeetsAt, StateAfter;
    var levels, a, b := Levels(connect, s), AuthorityStart(connect, s), AuthorityEnd(connect, s);
    var foundAt := MeetsAt(connect, s, |s|);
    var t := Authority(connect, s);
    var host := HostLevels(foundAt, t);
    LevelsRising(connect, s);
    if t != "" { HostLevelsRising(foundAt, t); }
    forall i, j | 0 <= i <= j < |s|
      ensures AllLevels(connect, s)[i] <= AllLevels(connect, s)[j]
    {
      LevelValues(connect, s, i);
      LevelValues(connect, s, j);
      AuthorityIsHost(levels, i);
      AuthorityIsHost(levels, j);
      assert levels[i] <= levels[j];
      if a <= i < b { HostLevelValues(foundAt, t, i - a); }
      if a <= j < b { HostLevelValues(foundAt, t, j - a); }
    }
  }

  /** The port is a run of digits. */
  lemma {:induction false} PortDigits(connect: bool, s: string, k: nat)
    requires k < |s| && AllLevels(connect, s)[k] == 40
    ensures IsNum(s[k])
  {
    hide HostLevels, HostStateAfter, MeetsAt, StateAfter, Levels;
    var foundAt := MeetsAt(connect, s, |s|);
    var t, a := Authority(connect, s), AuthorityStart(connect, s);
    LevelValues(connect, s, k);
    assert a <= k < AuthorityEnd(connect, s);
    HostLevelAt(foundAt, t, k - a);
    HostStep(foundAt, t, k - a);
  }

  lemma {:induction false} HostLevelAt(foundAt: bool, t: string, k: nat)
    requires k < |t|
    ensures HostLevels(foundAt, t)[k] == HostLevel(HostStateAfter(foundAt, t[..k + 1]))
  {
  }

  /** Not exactly a host and a port. */
  lemma {:induction false} KeysDiffer(u: Fields)
    ensures u.Keys == {Host, Port} <==> forall f :: f in u <==> f == Host || f == Port
  {
  }

  /** What `http_parser_parse_url` fills in. */
  datatype ParsedUrl = ParsedUrl(fields: Fields, port: nat)

  /** The authority, if there is one, ends where an offset of 16 bits can still reach. */
  predicate InReach(connect: bool, s: string) { Authority(connect, s) != "" ==> AuthorityEnd(connect, s) <= 0xffff }

  /** The bytes that are read as the authority: those the stored offset and length point at. */
  function AuthorityRead(connect: bool, s: string): string {
    var a, n := AuthorityStart(connect, s), |Authority(connect, s)|;
    ShortSteps(a);
    ShortSteps(n);
    s[Short(a)..Short(a) + Short(n)]
  }

  /**
   * `http_parser_parse_url`. If the authority is in reach, the URLs accepted, the fields `x` and the port are what
   * the levels of the bytes say, and 16 bits of every offset and length are stored. If not, other bytes are read in
   * place of the authority.
   */
  method ParseUrl(s: string, connect: bool) returns (r: Option<ParsedUrl>, ghost x: Fields)
    ensures InReach(connect, s) ==> (r.Some? <==> UrlAccepted(connect, s))
    ensures InReach(connect, s) && r.Some? ==> FoundIn(connect, s, r.value, x)
    ensures r.Some? ==> r.value.fields == Stored(x) && Inside(x, |s|)
    ensures !InReach(connect, s) && r.Some? ==> HostAccepted(MeetsAt(connect, s, |s|), AuthorityRead(connect, s))
  {
    hide Levels, HostLevels, StateAfter, HostStateAfter, MeetsAt, RunsOk, Rising, HostAccepted, UrlAccepted;
    hide AuthorityStart, AuthorityEnd, Below, Stored, Short, InReach, AuthorityRead, AllLevels;
    var scan, x0 := ScanFields(s, connect);
    x := x0;
    if scan.None? { DeadUrl(connect, s); return None, x; }
    var u := scan.value.u;
    HostInReach(connect, s, x0);
    RunsInside(Levels(connect, s), 0, |s|, x0);
    StoredAt(x0, Schema);
    StoredAt(x0, Host);
    if Schema in u && Host !in u { NoHost(connect, s, x0); return None, x; }
    if Host in u {
      var h, y := ParseHost(s, u[Host].off, u[Host].off + u[Host].len, scan.value.foundAt);
      if h.None? { if InReach(connect, s) { BadHost(connect, s); } return None, x; }
      RunsInside(HostLevels(scan.value.foundAt, AuthorityRead(connect, s)), u[Host].off, u[Host].off + u[Host].len, y);
      if InReach(connect, s) { HostMerged(connect, s, x0, y); }
      StoredSum(x0, y);
      u, x := u + h.value, x0 + y;
    }
    ghost var inReach := InReach(connect, s);
    if inReach { AllFound(connect, s, x0, x); PortFound(connect, s, x); }
    StoredKeys(x);
    if connect && u.Keys != {Host, Port} { return None, x; }
    var port := 0;
    if Port in u {
      StoredAt(x, Port);
      ShortSteps(x[Port].off);
      port := Strtoul(s, u[Port].off);
      if port > 0xffff { return None, x; }
    }
    assert inReach ==> FoundIn(connect, s, ParsedUrl(u, port), x);
    return Some(ParsedUrl(u, port)), x;
  }

  /** The value `strtoul` gives to the digits from `off` on, but for its saturation far above any port. */
  method Strtoul(s: string, off: nat) returns (v: nat)
    requires off <= |s|
    ensures v == DecimalValue(Digits(s[off..]))
  {
    hide AllDigits, DecimalValue, Digits;
    v := 0;
    var i := off;
    NoDigits();
    assert s[off..i] == "";
    while i < |s| && IsNum(s[i])
      invariant off <= i <= |s| && AllDigits(s[off..i]) && v == DecimalValue(s[off..i])
    {
      DecimalSnoc(s[off..i], s[i]);
      assert s[off..i + 1] == s[off..i] + [s[i]];
      v, i := v * 10 + Digit(s[i]), i + 1;
    }
    DigitsStop(s[off..i], s[i..]);
    assert s[off..] == s[off..i] + s[i..];
  }

  /** The digits at the front of a text. */
  function Digits(s: string): (r: string)
    ensures AllDigits(r)
  {
    if s != "" && IsNum(s[0]) then [s[0]] + Digits(s[1..]) else ""
  }

  lemma {:induction false} DigitsStop(t: string, rest: string)
    requires AllDigits(t) && (rest == "" || !IsNum(rest[0]))
    ensures Digits(t + rest) == t
    decreases |t|
  {
    if t == "" {
      assert t + rest == rest;
    } else {
      assert (t + rest)[1..] == t[1..] + rest;
      DigitsStop(t[1..], rest);
    }
  }

  /** Every field lies within the first `n` bytes. */
  ghost predicate Inside(x: Fields, n: nat) { forall f :: f in x ==> x[f].off + x[f].len <= n }

  lemma {:induction false} RunsInside(levels: seq<nat>, from: nat, i: nat, x: Fields)
    requires RunsOk(levels, from, i, x)
    ensures Inside(x, i)
  {
  }

  lemma {:induction false} DeadUrl(connect: bool, s: string)
    requires StateAfter(connect, s).SDead?
    ensures !UrlAccepted(connect, s)
  {
  }

  lemma {:induction false} NoHost(connect: bool, s: string, x: Fields)
    requires RunsOk(Levels(connect, s), 0, |s|, x) && Schema in x && Host !in x
    ensures !UrlAccepted(connect, s)
  {
    hide Levels, StateAfter, RunsOk, Below, AllLevels, PortNumber, HostAccepted;
    ScanIsUrl(connect, s, x);
  }

  lemma {:induction false} BadHost(connect: bool, s: string)
    requires Authority(connect, s) != "" && !HostAccepted(MeetsAt(connect, s, |s|), Authority(connect, s))
    ensures !UrlAccepted(connect, s)
  {
    hide StateAfter, Authority, AllLevels, PortNumber, HostAccepted;
  }

  /** Where the authority is looked for. */
  lemma {:induction false} HostInReach(connect: bool, s: string, x: Fields)
    requires RunsOk(Levels(connect, s), 0, |s|, x)
    ensures Host in x <==> Authority(connect, s) != ""
    ensures Host !in x ==> InReach(connect, s)
    ensures Host in x ==>
              var a, n := Short(x[Host].off), Short(x[Host].len);
              && a + n <= |s| && s[a..a + n] == AuthorityRead(connect, s)
              && (InReach(connect, s) ==> a == AuthorityStart(connect, s) && a + n == AuthorityEnd(connect, s))
    ensures Host in x && InReach(connect, s) ==> AuthorityRead(connect, s) == Authority(connect, s)
  {
    hide Levels, StateAfter, RunsOk, Below, Short;
    ScanIsUrl(connect, s, x);
    if Host in x {
      ShortSteps(x[Host].off);
      ShortSteps(x[Host].len);
    }
  }

  /** The fields are those of an accepted URL, as far as the second loop can tell. */
  lemma {:induction false} AllFound(connect: bool, s: string, x0: Fields, x: Fields)
    requires RunsOk(Levels(connect, s), 0, |s|, x0) && !StateAfter(connect, s).SDead? && (Schema in x0 ==> Host in x0)
    requires Host !in x0 ==> x == x0
    requires Host in x0 ==>
               HostAccepted(MeetsAt(connect, s, |s|), Authority(connect, s)) && RunsOk(AllLevels(connect, s), 0, |s|, x)
    ensures Sorted(connect, s, x)
    ensures UrlAccepted(connect, s) <==> (connect ==> x.Keys == {Host, Port}) && PortNumber(connect, s) <= 0xffff
  {
    hide Levels, HostLevels, StateAfter, HostStateAfter, MeetsAt, RunsOk, Rising, HostAccepted, PortNumber, Below,
         Authority, AllLevels;
    ScanIsUrl(connect, s, x0);
    AllRisingIfAccepted(connect, s);
    forall f
      ensures f in x <==> Order(f) in AllLevels(connect, s)
    {
      FieldIsText(AllLevels(connect, s), x, f);
    }
    KeysDiffer(x);
  }

  /** The exact fields of a URL whose authority, if there is one, is accepted. */
  ghost predicate Sorted(connect: bool, s: string, x: Fields) {
    && RunsOk(AllLevels(connect, s), 0, |s|, x) && Rising(AllLevels(connect, s))
    && (Authority(connect, s) != "" ==> HostAccepted(MeetsAt(connect, s, |s|), Authority(connect, s)))
  }

  /** A port in reach is read where it is, up to the end of the authority. */
  lemma {:induction false} PortFound(connect: bool, s: string, x: Fields)
    requires InReach(connect, s) && !StateAfter(connect, s).SDead? && Sorted(connect, s, x)
    ensures Port in x ==> x[Port].off <= |s| && Short(x[Port].off) == x[Port].off
    ensures Port in x ==> PortNumber(connect, s) == DecimalValue(Digits(s[x[Port].off..]))
    ensures Port !in x ==> PortNumber(connect, s) == 0
  {
    hide Levels, StateAfter, MeetsAt, HostAccepted, PortNumber, Below, AllLevels, AllDigits, DecimalValue, RunsOk,
         Rising, AuthorityStart, AuthorityEnd;
    PortText(connect, s, x);
    if Port in x {
      PortEnds(connect, s, x);
      var a, e := x[Port].off, AuthorityEnd(connect, s);
      if e < |s| { AuthorityEndsAt(connect, s); }
      DigitsStop(s[a..e], s[e..]);
      assert s[a..] == s[a..e] + s[e..];
    }
  }

  /** The port is the last part of the authority. */
  lemma {:induction false} PortEnds(connect: bool, s: string, x: Fields)
    requires Sorted(connect, s, x) && Port in x
    ensures Authority(connect, s) != "" && x[Port].len > 0 && x[Port].off + x[Port].len == AuthorityEnd(connect, s) <= |s|
  {
    hide Levels, StateAfter, MeetsAt, Below, HostLevels, HostStateAfter, HostUnfinished;
    var levels := AllLevels(connect, s);
    var e := x[Port].off + x[Port].len;
    assert In(x, Port, e - 1);
    assert levels[e - 1 - 0] == 40;
    var k := PortStartsIn(connect, s, e - 1);
    if e < AuthorityEnd(connect, s) {
      assert In(x, Port, e) <==> levels[e - 0] == 40;
      assert levels[e - 1] <= levels[e];
      HostLevelValues(MeetsAt(connect, s, |s|), Authority(connect, s), e - AuthorityStart(connect, s));
    }
  }

  /** What `http_parser_parse_url` has found out about an accepted URL. */
  ghost predicate FoundIn(connect: bool, s: string, v: ParsedUrl, x: Fields) {
    && RunsOk(AllLevels(connect, s), 0, |s|, x) && Rising(AllLevels(connect, s))
    && v.fields == Stored(x) && v.port == PortNumber(connect, s) <= 0xffff
  }

  lemma {:induction false} AllRisingIfAccepted(connect: bool, s: string)
    requires Authority(connect, s) != "" ==> HostAccepted(MeetsAt(connect, s, |s|), Authority(connect, s))
    ensures Rising(AllLevels(connect, s))
  {
    hide Rising, AllLevels, HostStateAfter;
    AllRising(connect, s);
  }

  /** What the first loop found, as far as the second needs it. */
  lemma {:induction false} ScanIsUrl(connect: bool, s: string, u: Fields)
    requires RunsOk(Levels(connect, s), 0, |s|, u)
    ensures Host in u <==> Authority(connect, s) != ""
    ensures Host in u ==> u[Host].off == AuthorityStart(connect, s) &&
                          u[Host].off + u[Host].len == AuthorityEnd(connect, s) <= |s|
    ensures Schema in u <==> Order(Schema) in AllLevels(connect, s)
    ensures Authority(connect, s) == "" ==> AllLevels(connect, s) == Levels(connect, s)
  {
    hide Levels, HostLevels, RunsOk, Rising, MeetsAt, StateAfter, Below;
    var levels := Levels(connect, s);
    LevelsRising(connect, s);
    FieldIsText(levels, u, Host);
    FieldIsText(levels, u, Schema);
    if Authority(connect, s) != "" {
      AuthorityIsHost(levels, AuthorityStart(connect, s));
      assert 30 in levels;
    } else {
      assert HostLevels(MeetsAt(connect, s, |s|), "") == [];
    }
    SchemaOutside(connect, s);
  }

  lemma {:induction false} SchemaOutside(connect: bool, s: string)
    ensures 10 in Levels(connect, s) <==> 10 in AllLevels(connect, s)
  {
    hide Levels, HostLevels, HostStateAfter, MeetsAt, StateAfter, Below;
    var levels, a, b := Levels(connect, s), AuthorityStart(connect, s), AuthorityEnd(connect, s);
    LevelsRising(connect, s);
    if 10 in levels {
      var k :| 0 <= k < |levels| && levels[k] == 10;
      AuthorityIsHost(levels, k);
      assert AllLevels(connect, s)[k] == 10;
    }
    if 10 in AllLevels(connect, s) {
      var k :| 0 <= k < |s| && AllLevels(connect, s)[k] == 10;
      if a <= k < b {
        HostLevelAt(MeetsAt(connect, s, |s|), Authority(connect, s), k - a);
      } else {
        assert levels[k] == 10;
      }
    }
  }

  lemma {:induction false} HostMerged(connect: bool, s: string, u: Fields, h: Fields)
    requires RunsOk(Levels(connect, s), 0, |s|, u) && Host in u && Host in h
    requires HostAccepted(MeetsAt(connect, s, |s|), Authority(connect, s))
    requires RunsOk(HostLevels(MeetsAt(connect, s, |s|), Authority(connect, s)), AuthorityStart(connect, s),
                    AuthorityEnd(connect, s), h)
    ensures RunsOk(AllLevels(connect, s), 0, |s|, u + h)
  {
    hide Levels, HostLevels, HostStateAfter, MeetsAt, StateAfter, RunsOk, Rising, Below;
    var levels := Levels(connect, s);
    var foundAt, t := MeetsAt(connect, s, |s|), Authority(connect, s);
    LevelsRising(connect, s);
    var a, b := AuthorityStart(connect, s), AuthorityEnd(connect, s);
    forall k | 0 <= k < |levels|
      ensures (levels[k] == 30 <==> a <= k < b) && levels[k] != 20 && levels[k] != 40
    {
      LevelValues(connect, s, k);
      AuthorityIsHost(levels, k);
    }
    forall k | 0 <= k < |t|
      ensures HostLevels(foundAt, t)[k] in {20, 21, 22, 30, 31, 32, 40}
    {
      HostLevelValues(foundAt, t, k);
    }
    MergeRuns(levels, HostLevels(foundAt, t), a, b, u, h);
  }

  lemma {:induction false} PortText(connect: bool, s: string, u: Fields)
    requires RunsOk(AllLevels(connect, s), 0, |s|, u) && Rising(AllLevels(connect, s))
    ensures Port in u ==> u[Port].off + u[Port].len <= |s|
    ensures Port in u ==>
              var t := s[u[Port].off..u[Port].off + u[Port].len];
              AllDigits(t) && PortNumber(connect, s) == DecimalValue(t)
    ensures Port !in u ==> PortNumber(connect, s) == 0
  {
    hide AllLevels, Below, Rising, DecimalValue;
    FieldIsText(AllLevels(connect, s), u, Port);
    var t := Text(connect, s, Port);
    if Port !in u {
      NoPort(connect, s);
      return;
    }
    forall k | 0 <= k < |t|
      ensures IsNum(t[k])
    {
      assert In(u, Port, u[Port].off + k);
      assert AllLevels(connect, s)[u[Port].off + k - 0] == Order(Port);
      PortDigits(connect, s, u[Port].off + k);
    }
  }

  lemma {:induction false} NoPort(connect: bool, s: string)
    requires Rising(AllLevels(connect, s)) && Order(Port) !in AllLevels(connect, s)
    ensures PortNumber(connect, s) == 0
  {
    hide AllLevels;
    var levels := AllLevels(connect, s);
    var a := Below(levels, 40);
    assert a < |levels| ==> levels[a] != 40;
    assert DecimalValue("") == 0;
  }

  // ---------------------------------------------------------------- the authority of an absolute URL

  lemma {:induction false} NoBracket(foundAt: bool, t: string)
    requires '[' !in t
    ensures var s := HostStateAfter(foundAt, t);
            !s.V6Start? && !s.InV6? && !s.V6End? && !s.V6ZoneStart? && !s.InV6Zone?
    decreases |t|
  {
    if t != "" { NoBracket(foundAt, t[..|t| - 1]); }
  }

  /** Behind the first digit of a port lies a colon, and behind that a host that is not in brackets. */
  lemma {:induction false} ColonBefore(foundAt: bool, t: string, k: nat)
    requires k < |t| && HostStateAfter(foundAt, t[..k + 1]).InPort? && !HostStateAfter(foundAt, t[..k]).InPort?
    ensures k >= 2 && t[k - 1] == ':' && HostStateAfter(foundAt, t[..k]).PortStart?
    ensures '[' !in t ==> HostStateAfter(foundAt, t[..k - 1]).InHost?
  {
    hide HostStateAfter;
    HostStep(foundAt, t, k);
    Begin(foundAt, t);
    assert k > 0;
    HostStep(foundAt, t, k - 1);
    if k == 1 { Begin(foundAt, t); }
    if '[' !in t { NoBracket(foundAt, t[..k - 1]); }
  }

  lemma {:induction false} Begin(foundAt: bool, t: string)
    ensures HostStateAfter(foundAt, t[..0]).UserInfoStart? || HostStateAfter(foundAt, t[..0]).HostStart?
  {
  }

  /**
   * For a URL whose host is not in brackets, the slice `handlePath` cuts as authority is the host, or the host,
   * a colon and the port (section 5.3.2 of RFC 7230).
   */
  lemma {:induction false} AuthoritySlice(connect: bool, s: string, u: Fields)
    requires UrlAccepted(connect, s) && RunsOk(AllLevels(connect, s), 0, |s|, u)
    requires '[' !in Authority(connect, s) && Host in u && Port in u
    ensures u[Port].off == u[Host].off + u[Host].len + 1 && u[Port].off + u[Port].len <= |s|
    ensures s[u[Host].off..u[Host].off + (u[Host].len + u[Port].len + 1)] ==
            Text(connect, s, Host) + ":" + Text(connect, s, Port)
  {
    hide HostStateAfter, Levels, MeetsAt, StateAfter, Below, RunsOk, Rising, HostLevels, AllLevels, Authority,
         HostAccepted;
    AllRisingIfAccepted(connect, s);
    var levels := AllLevels(connect, s);
    FieldIsText(levels, u, Host);
    FieldIsText(levels, u, Port);
    ColonBetween(connect, s, u);
    ThreePieces(s, u[Host], u[Port]);
  }

  lemma {:induction false} ThreePieces(s: string, h: Slice, p: Slice)
    requires p.off == h.off + h.len + 1 && p.off + p.len <= |s| && s[h.off + h.len] == ':'
    ensures s[h.off..h.off + (h.len + p.len + 1)] == s[h.off..h.off + h.len] + ":" + s[p.off..p.off + p.len]
  {
  }

  /** Host and port never touch. */
  lemma {:induction false} ColonBetween(connect: bool, s: string, u: Fields)
    requires UrlAccepted(connect, s) && RunsOk(AllLevels(connect, s), 0, |s|, u) && Rising(AllLevels(connect, s))
    requires Host in u && Port in u
    ensures u[Port].off >= u[Host].off + u[Host].len + 1
    ensures '[' !in Authority(connect, s) ==>
              u[Port].off == u[Host].off + u[Host].len + 1 && s[u[Host].off + u[Host].len] == ':'
  {
    hide HostStateAfter, MeetsAt, StateAfter, Below, HostLevels, Levels, UrlAccepted, ParseHostChar, AllLevels;
    var levels := AllLevels(connect, s);
    var p := u[Port].off;
    assert In(u, Port, p);
    var k := PortStartsIn(connect, s, p);
    var t, foundAt := Authority(connect, s), MeetsAt(connect, s, |s|);
    if k > 0 {
      AtAuthority(connect, s, p - 1);
      var before: nat := p - 1;
      assert In(u, Port, before) <==> levels[before - 0] == Order(Port);
    } else { Begin(foundAt, t); }
    ColonBefore(foundAt, t, k);
    AtAuthority(connect, s, p - 1);
    AtAuthority(connect, s, p - 2);
    assert levels[p - 1] == 32;
    assert In(u, Host, p - 1) <==> levels[p - 1 - 0] == Order(Host);
    assert In(u, Host, p - 2) <==> levels[p - 2 - 0] == Order(Host);
    InOrder(levels, 0, |s|, u, Host, Port);
  }

  /** The place in the authority of a byte at the level of the port. */
  lemma {:induction false} PortStartsIn(connect: bool, s: string, p: nat) returns (k: nat)
    requires p < |s| && AllLevels(connect, s)[p] == 40
    ensures AuthorityStart(connect, s) + k == p && k < |Authority(connect, s)|
    ensures HostStateAfter(MeetsAt(connect, s, |s|), Authority(connect, s)[..k + 1]).InPort?
  {
    hide HostStateAfter, MeetsAt, StateAfter, Below, HostLevels, Levels, ParseHostChar;
    LevelValues(connect, s, p);
    k := p - AuthorityStart(connect, s);
    HostLevelAt(MeetsAt(connect, s, |s|), Authority(connect, s), k);
  }

  lemma {:induction false} AtAuthority(connect: bool, s: string, p: nat)
    requires AuthorityStart(connect, s) <= p < AuthorityEnd(connect, s)
    ensures var k := p - AuthorityStart(connect, s);
            AllLevels(connect, s)[p] == HostLevel(HostStateAfter(MeetsAt(connect, s, |s|), Authority(connect, s)[..k + 1]))
  {
    hide HostStateAfter, MeetsAt, StateAfter, Below, HostLevels, Levels;
    HostLevelAt(MeetsAt(connect, s, |s|), Authority(connect, s), p - AuthorityStart(connect, s));
  }

  /** Behind a bracket the host parser stays inside it, or goes on to the port. */
  lemma {:induction false} AfterBracket(foundAt: bool, t: string, k: nat, i: nat)
    requires k < i <= |t| && t[k] == '[' && !HostStateAfter(foundAt, t[..i]).HostDead?
    ensures var h := HostStateAfter(foundAt, t[..i]);
            h.V6Start? || h.InV6? || h.V6End? || h.V6ZoneStart? || h.InV6Zone? || h.PortStart? || h.InPort?
    ensures i == k + 1 ==> HostStateAfter(foundAt, t[..i]).V6Start?
    decreases i
  {
    hide HostStateAfter;
    HostStep(foundAt, t, i - 1);
    if i > k + 1 { AfterBracket(foundAt, t, k, i - 1); }
  }

  /** The bytes of a host in brackets end at the closing bracket. */
  lemma {:induction false} BracketCloses(foundAt: bool, t: string, k: nat, x: nat)
    requires HostAccepted(foundAt, t) && k < |t| && t[k] == '[' && 0 < x <= |t|
    requires HostLevels(foundAt, t)[x - 1] == 30 && (x < |t| ==> HostLevels(foundAt, t)[x] > 30)
    ensures x < |t| && t[x] == ']'
  {
    hide HostStateAfter, ParseHostChar, HostLevel;
    HostLevelAt(foundAt, t, x - 1);
    forall i | 0 <= i <= |t|
      ensures !HostStateAfter(foundAt, t[..i]).HostDead?
    {
      if HostStateAfter(foundAt, t[..i]).HostDead? { HostDeadStays(foundAt, t, i); }
    }
    assert t[..|t|] == t;
    AfterBracket(foundAt, t, k, k + 1);
    HostLevelAt(foundAt, t, k);
    BracketLevel(HostStateAfter(foundAt, t[..k + 1]));
    if x - 1 <= k { HostLevelsRise(foundAt, t, x - 1, k); }
    AfterBracket(foundAt, t, k, x);
    BracketLevel(HostStateAfter(foundAt, t[..x]));
    if x < |t| {
      HostLevelAt(foundAt, t, x);
      HostStep(foundAt, t, x);
      OutOfBracket(HostStateAfter(foundAt, t[..x]), t[x]);
    }
  }

  lemma {:induction false} BracketLevel(h: HostState)
    ensures h.V6Start? <==> HostLevel(h) == 22
    ensures HostLevel(h) == 30 <==> h.InHost? || h.InV6? || h.V6ZoneStart? || h.InV6Zone?
  {
  }

  lemma {:induction false} OutOfBracket(h: HostState, c: char)
    requires h.InV6? || h.V6ZoneStart? || h.InV6Zone?
    ensures HostLevel(ParseHostChar(h, c)) == 30 || ParseHostChar(h, c).HostDead? || c == ']'
  {
  }

  lemma {:induction false} ClosingBracket(connect: bool, s: string, u: Fields)
    requires UrlAccepted(connect, s) && RunsOk(AllLevels(connect, s), 0, |s|, u)
    requires '[' in Authority(connect, s) && Host in u
    ensures var e := u[Host].off + u[Host].len; e < |s| && s[e] == ']'
  {
    hide HostStateAfter, Levels, MeetsAt, StateAfter, Below, Rising, HostLevels, HostAccepted, PortNumber, AllLevels,
         RunsOk;
    AllRisingIfAccepted(connect, s);
    var t, foundAt := Authority(connect, s), MeetsAt(connect, s, |s|);
    var k :| 0 <= k < |t| && t[k] == '[';
    var e := HostEnd(connect, s, u);
    BracketCloses(foundAt, t, k, e - AuthorityStart(connect, s));
    assert s[e] == t[e - AuthorityStart(connect, s)];
  }

  /**
   * For a host in brackets the byte behind the host is the closing bracket, so the slice cut as authority is never
   * the host, a colon and the port.
   */
  lemma {:induction false} BracketedSlice(connect: bool, s: string, u: Fields)
    requires UrlAccepted(connect, s) && RunsOk(AllLevels(connect, s), 0, |s|, u)
    requires '[' in Authority(connect, s) && Host in u && Port in u
    ensures var n := u[Host].len + u[Port].len + 1;
            && u[Host].off + n <= |s| && s[u[Host].off + u[Host].len] == ']'
            && s[u[Host].off..u[Host].off + n] != Text(connect, s, Host) + ":" + Text(connect, s, Port)
  {
    hide HostStateAfter, MeetsAt, StateAfter, Below, RunsOk, Rising, AllLevels, Authority, UrlAccepted;
    RisingIfAccepted(connect, s);
    ClosingBracket(connect, s, u);
    FieldIsText(AllLevels(connect, s), u, Host);
    FieldIsText(AllLevels(connect, s), u, Port);
    ColonBetween(connect, s, u);
    NotTheColon(s, u[Host], u[Port]);
  }

  lemma {:induction false} NotTheColon(s: string, h: Slice, p: Slice)
    requires h.off + h.len < p.off && p.off + p.len <= |s| && s[h.off + h.len] != ':'
    ensures s[h.off..h.off + (h.len + p.len + 1)] != s[h.off..h.off + h.len] + ":" + s[p.off..p.off + p.len]
  {
    var a := s[h.off..h.off + (h.len + p.len + 1)];
    var b := s[h.off..h.off + h.len] + ":" + s[p.off..p.off + p.len];
    assert a[h.len] == s[h.off + h.len] && b[h.len] == ':';
  }

  /** Where the host ends inside the authority. */
  lemma {:induction false} HostEnd(connect: bool, s: string, u: Fields) returns (e: nat)
    requires UrlAccepted(connect, s) && RunsOk(AllLevels(connect, s), 0, |s|, u) && Rising(AllLevels(connect, s)) &&
             Host in u
    ensures e == u[Host].off + u[Host].len
    ensures AuthorityStart(connect, s) < e <= AuthorityEnd(connect, s)
    ensures var x, host := e - AuthorityStart(connect, s), HostLevels(MeetsAt(connect, s, |s|), Authority(connect, s));
            host[x - 1] == 30 && (x < |host| ==> host[x] > 30)
  {
    hide HostStateAfter, Levels, MeetsAt, StateAfter, Below, HostLevels, HostAccepted, PortNumber;
    var levels := AllLevels(connect, s);
    e := u[Host].off + u[Host].len;
    assert In(u, Host, e - 1);
    assert levels[e - 1 - 0] == 30;
    LevelsRising(connect, s);
    AuthorityIsHost(Levels(connect, s), e - 1);
    if e < AuthorityEnd(connect, s) {
      assert !In(u, Host, e);
      assert levels[e - 0] != 30 && levels[e - 1] <= levels[e];
    }
  }

  /** The fields of an accepted URL: not empty, in bounds, disjoint, in textual order, and the texts of the URL. */
  lemma {:induction false} FieldsInOrder(connect: bool, s: string, u: Fields)
    requires UrlAccepted(connect, s) && RunsOk(AllLevels(connect, s), 0, |s|, u)
    ensures forall f :: f in u ==> u[f].len > 0 && u[f].off + u[f].len <= |s| &&
                                   s[u[f].off..u[f].off + u[f].len] == Text(connect, s, f)
    ensures forall f, g :: f in u && g in u && Order(f) < Order(g) ==> u[f].off + u[f].len <= u[g].off
  {
    hide AllLevels, Below, Rising, UrlAccepted;
    assert Rising(AllLevels(connect, s)) by { RisingIfAccepted(connect, s); }
    var levels := AllLevels(connect, s);
    forall f | f in u
      ensures u[f].len > 0 && u[f].off + u[f].len <= |s| && s[u[f].off..u[f].off + u[f].len] == Text(connect, s, f)
    {
      FieldIsText(levels, u, f);
    }
    forall f, g | f in u && g in u && Order(f) < Order(g)
      ensures u[f].off + u[f].len <= u[g].off
    {
      InOrder(levels, 0, |s|, u, f, g);
    }
  }

  lemma {:induction false} RisingIfAccepted(connect: bool, s: string)
    requires UrlAccepted(connect, s)
    ensures Rising(AllLevels(connect, s))
  {
    hide AllLevels, HostAccepted, Rising;
    AllRisingIfAccepted(connect, s);
  }

  // ---------------------------------------------------------------- what handlePath cuts out

  /** An absolute URL with a scheme and a host. */
  ghost predicate Absolute(s: string) {
    UrlAccepted(false, s) && Order(Schema) in AllLevels(false, s) && Order(Host) in AllLevels(false, s)
  }

  /** The length of the authority as `handlePath` adds it up. */
  ghost function AuthorityLength(s: string): nat
    requires Absolute(s)
  {
    |Text(false, s, Host)| + if Order(Port) in AllLevels(false, s) then |Text(false, s, Port)| + 1 else 0
  }

  /** The new host header: that many bytes from the host on. */
  ghost function NewHost(s: string): string
    requires Absolute(s)
  {
    var a := Below(AllLevels(false, s), 30);
    if a + AuthorityLength(s) <= |s| then s[a..a + AuthorityLength(s)] else ""
  }

  /**
   * The new path: all from the path on, or "/" if there is none, even before a query. A path whose length has all of
   * its low 16 bits clear counts as none.
   */
  ghost function NewPath(s: string): string {
    if Order(Path) in AllLevels(false, s) && Short(|Text(false, s, Path)|) > 0 then s[Below(AllLevels(false, s), 50)..]
    else "/"
  }

  /** An authority ends at a slash, at a question mark, or at the end of the URL. */
  lemma {:induction false} AuthorityEndsAt(connect: bool, s: string)
    requires !StateAfter(connect, s).SDead? && Authority(connect, s) != "" && AuthorityEnd(connect, s) < |s|
    ensures var e := AuthorityEnd(connect, s);
            && (s[e] == '/' || s[e] == '?')
            && Levels(connect, s)[e] == if s[e] == '/' then 50 else 51
  {
    hide StateAfter, Below, Rising, ParseUrlChar;
    var e := AuthorityEnd(connect, s);
    LevelsRising(connect, s);
    AuthorityIsHost(Levels(connect, s), e - 1);
    StateStep(connect, s, e);
    if StateAfter(connect, s[..e + 1]).SDead? { DeadStays(connect, s, e + 1); }
    BehindServer(StateAfter(connect, s[..e]), s[e]);
  }

  lemma {:induction false} BehindServer(s: State, c: char)
    requires Level(s) == 30
    ensures var r := ParseUrlChar(s, c);
            r.SDead? || Level(r) == 30 || (c == '/' && Level(r) == 50) || (c == '?' && Level(r) == 51)
  {
  }

  /**
   * What becomes of the rest of an absolute URL, behind its authority: it survives as the path exactly if there is
   * none, or it begins with a slash and its path, up to a query or fragment, has no multiple of 65536 bytes.
   */
  lemma {:induction false} RestSurvives(s: string)
    requires Absolute(s)
    ensures var rest, n := s[AuthorityEnd(false, s)..], |Text(false, s, Path)|;
            && (rest == "" || rest[0] == '/' || rest[0] == '?')
            && (n > 0 <==> rest != "" && rest[0] == '/')
            && NewPath(s) == (if n % 0x1_0000 != 0 then rest else "/")
            && (rest == "" || NewPath(s) == rest <==> rest == "" || n % 0x1_0000 != 0)
  {
    hide StateAfter, Below, HostLevels, Levels, MeetsAt, Level, AllLevels, Authority, AuthorityEnd, HostAccepted,
         PortNumber;
    var e := AuthorityEnd(false, s);
    HasAuthority(s);
    if e < |s| { AuthorityEndsAt(false, s); }
    RestLevels(s);
    FirstAt(AllLevels(false, s), e);
    var levels := AllLevels(false, s);
    assert e < |s| && levels[e] == 50 ==> Below(levels, 51) > e;
    assert |Text(false, s, Path)| <= |s| - e;
  }

  /** The levels in front of the path and behind the authority. */
  lemma {:induction false} RestLevels(s: string)
    requires Absolute(s)
    ensures var e, all := AuthorityEnd(false, s), AllLevels(false, s);
            && (forall k :: 0 <= k < e ==> all[k] < 50)
            && (forall k :: e <= k < |s| ==> all[k] >= all[e])
            && (e < |s| ==> all[e] == Levels(false, s)[e])
  {
    hide StateAfter, Below, HostLevels, Levels, MeetsAt, HostAccepted, PortNumber, Level;
    LevelsRising(false, s);
    forall k | 0 <= k < AuthorityEnd(false, s)
      ensures AllLevels(false, s)[k] < 50
    {
      LevelBelowPath(s, k);
    }
  }

  /** The first level from 50 on, if all before `e` are lower and none behind it than at `e`. */
  lemma {:induction false} FirstAt(levels: seq<nat>, e: nat)
    requires e <= |levels| && (forall k :: 0 <= k < e ==> levels[k] < 50)
    requires forall k :: e <= k < |levels| ==> levels[k] >= levels[e]
    requires e < |levels| ==> levels[e] >= 50
    ensures 50 in levels <==> e < |levels| && levels[e] == 50
    ensures Below(levels, 50) == e
  {
    hide Below;
  }

  lemma {:induction false} HasAuthority(s: string)
    requires Absolute(s)
    ensures Authority(false, s) != ""
  {
    hide Below, HostLevels, Levels, MeetsAt, HostAccepted, PortNumber, StateAfter;
    var k :| 0 <= k < |s| && AllLevels(false, s)[k] == 30;
    LevelsRising(false, s);
    AuthorityIsHost(Levels(false, s), k);
  }

  lemma {:induction false} LevelBelowPath(s: string, k: nat)
    requires Absolute(s) && k < AuthorityEnd(false, s)
    ensures AllLevels(false, s)[k] < 50
  {
    hide HostLevels, Levels, MeetsAt, PortNumber, StateAfter, HostStateAfter, HostUnfinished;
    var a := AuthorityStart(false, s);
    if a <= k {
      HostLevelValues(MeetsAt(false, s, |s|), Authority(false, s), k - a);
    }
  }

  /** The host `handlePath` cuts out, from the fields of the URL. */
  lemma {:induction false} HostByFields(s: string, u: Fields)
    requires UrlAccepted(false, s) && RunsOk(AllLevels(false, s), 0, |s|, u) && Absolute(s) && Host in u
    ensures var n := u[Host].len + if Port in u then u[Port].len + 1 else 0;
            u[Host].off + n <= |s| && NewHost(s) == s[u[Host].off..u[Host].off + n]
  {
    hide Rising, RunsOk, Below, AllLevels, UrlAccepted;
    RisingIfAccepted(false, s);
    FieldIsText(AllLevels(false, s), u, Host);
    FieldIsText(AllLevels(false, s), u, Port);
    if Port in u { ColonBetween(false, s, u); }
  }

  /** The host and the port of an absolute URL in reach lie where 16 bits can point at them. */
  lemma {:induction false} HostStored(s: string, x: Fields)
    requires Absolute(s) && InReach(false, s) && Sorted(false, s, x) && Host in x
    ensures Short(x[Host].off) == x[Host].off && Short(x[Host].len) == x[Host].len
    ensures var n := x[Host].len + if Port in x then x[Port].len + 1 else 0;
            Short(n) == n && (Port in x ==> Short(x[Port].len) == x[Port].len)
  {
    hide Rising, RunsOk, Below, AllLevels, Levels, HostLevels, PortNumber, StateAfter, MeetsAt, AuthorityEnd,
         HostAccepted;
    HasAuthority(s);
    var e := HostEnd(false, s, x);
    if Port in x {
      ColonBetween(false, s, x);
      PortEnds(false, s, x);
    }
  }

  /** The path begins where the authority ends. */
  lemma {:induction false} PathStored(s: string, x: Fields)
    requires Absolute(s) && InReach(false, s) && RunsOk(AllLevels(false, s), 0, |s|, x) && Rising(AllLevels(false, s))
    ensures Path in x ==> Short(x[Path].off) == x[Path].off <= |s| && x[Path].len == |Text(false, s, Path)|
    ensures NewPath(s) == if Path in x && Short(x[Path].len) > 0 then s[x[Path].off..] else "/"
  {
    hide Rising, RunsOk, Below, AllLevels, HostLevels, PortNumber, StateAfter, MeetsAt, AuthorityEnd, Authority,
         HostAccepted, Levels, Level;
    var e := AuthorityEnd(false, s);
    FieldIsText(AllLevels(false, s), x, Path);
    HasAuthority(s);
    if e < |s| { AuthorityEndsAt(false, s); }
    RestLevels(s);
    FirstAt(AllLevels(false, s), e);
  }

  lemma {:induction false} AbsoluteByFields(s: string, x: Fields)
    requires UrlAccepted(false, s) && RunsOk(AllLevels(false, s), 0, |s|, x) && Rising(AllLevels(false, s))
    ensures Absolute(s) <==> Host in x && Schema in x
  {
    hide Rising, RunsOk, AllLevels, UrlAccepted;
    FieldIsText(AllLevels(false, s), x, Schema);
    FieldIsText(AllLevels(false, s), x, Host);
  }

  /** At most `n` bytes from `a` on. */
  function Clip(s: string, a: nat, n: nat): string {
    var from := if a <= |s| then a else |s|;
    s[from..if from + n <= |s| then from + n else |s|]
  }

  /** What the stored fields of an accepted URL say about it. */
  lemma {:induction false} CutStored(s: string, u: Fields, x: Fields)
    requires InReach(false, s) && UrlAccepted(false, s) && u == Stored(x)
    requires RunsOk(AllLevels(false, s), 0, |s|, x) && Rising(AllLevels(false, s))
    ensures Absolute(s) <==> Host in u && Schema in u
    ensures Absolute(s) ==>
              NewHost(s) == Clip(s, u[Host].off, Short(u[Host].len + if Port in u then u[Port].len + 1 else 0))
    ensures Absolute(s) && Path in u ==> u[Path].off <= |s|
    ensures Absolute(s) ==> NewPath(s) == if Path in u && u[Path].len > 0 then s[u[Path].off..] else "/"
  {
    hide Rising, RunsOk, AllLevels, NewHost, NewPath, PortNumber, InReach, Absolute, Short, Stored, HostAccepted,
         MeetsAt, Authority, StateAfter, Below;
    AbsoluteByFields(s, x);
    StoredAt(x, Host); StoredAt(x, Port); StoredAt(x, Path); StoredAt(x, Schema);
    if Absolute(s) {
      HostStored(s, x);
      HostByFields(s, x);
      PathStored(s, x);
    }
  }

  /** The slices of `handlePath`, computed from the fields. */
  method CutAbsolute(s: string) returns (r: Option<(string, string)>)
    ensures InReach(false, s) ==> (r.Some? <==> Absolute(s)) && (r.Some? ==> r.value == (NewHost(s), NewPath(s)))
  {
    hide Rising, RunsOk, AllLevels, UrlAccepted, NewHost, NewPath, PortNumber, InReach, Absolute, Short, Stored, Clip,
         HostAccepted, MeetsAt;
    var p, x := ParseUrl(s, false);
    NotAbsolute(s);
    if p.None? { return None; }
    var u := p.value.fields;
    if InReach(false, s) { CutStored(s, u, x); }
    StoredAt(x, Path);
    if Host !in u || Schema !in u { return None; }
    var host := Clip(s, u[Host].off, Short(u[Host].len + if Port in u then u[Port].len + 1 else 0));
    if Path in u { ShortSteps(x[Path].off); }
    var path := if Path in u && u[Path].len > 0 then s[u[Path].off..] else "/";
    return Some((host, path));
  }

  lemma {:induction false} NotAbsolute(s: string)
    ensures Absolute(s) ==> UrlAccepted(false, s)
  {
  }

  // ---------------------------------------------------------------- URLs whose rest is dropped

  const SITE := "http://h"

  /** The states of the bytes of `SITE` up to the host. */
  lemma {:induction false} SiteStates(s: string)
    requires SITE <= s
    ensures forall i :: 1 <= i <= 4 ==> StateAfter(false, s[..i]).SReqSchema?
    ensures StateAfter(false, s[..5]).SReqSchemaSlash? && StateAfter(false, s[..6]).SReqSchemaSlashSlash?
    ensures StateAfter(false, s[..7]).SReqServerStart? && StateAfter(false, s[..8]).SReqServer?
  {
    hide StateAfter;
    assert s[..0] == "";
    StartState0();
    StateStep(false, s, 0); StateStep(false, s, 1); StateStep(false, s, 2); StateStep(false, s, 3);
    StateStep(false, s, 4); StateStep(false, s, 5); StateStep(false, s, 6); StateStep(false, s, 7);
  }

  lemma {:induction false} StartState0()
    ensures StateAfter(false, "").SReqSpacesBeforeUrl?
  {
  }

  /** The site with anything behind it: its authority is its host. */
  lemma {:induction false} SiteAuthority(s: string)
    requires SITE <= s && !StateAfter(false, s).SDead? && (|s| == 8 || Levels(false, s)[8] >= 50)
    ensures AuthorityStart(false, s) == 7 && AuthorityEnd(false, s) == 8 && Authority(false, s) == "h"
    ensures AllLevels(false, s) == Levels(false, s) && Levels(false, s)[..8] == [10, 10, 10, 10, 11, 12, 13, 30]
    ensures Absolute(s) && InReach(false, s)
  {
    hide StateAfter, Below, HostAccepted, PortNumber, MeetsAt, HostLevels, Absolute;
    SiteStates(s);
    var levels := Levels(false, s);
    assert levels[..8] == [10, 10, 10, 10, 11, 12, 13, 30];
    assert levels[7] == 30 && levels[0] == 10;
    assert s[7..8] == "h";
    NoAt(s);
    HostAlone();
    assert Order(Schema) in levels && Order(Host) in levels;
    SiteAccepted(s);
  }

  lemma {:induction false} NoAt(s: string)
    requires SITE <= s && (|s| == 8 || Levels(false, s)[8] >= 50)
    ensures !MeetsAt(false, s, |s|)
  {
    hide StateAfter;
    SiteStates(s);
    forall k | 0 < k <= |s|
      ensures !StateAfter(false, s[..k]).SReqServerWithAt?
    {
      if k > 8 {
        LevelsRise(false, s, 8, k - 1);
        assert Levels(false, s)[k - 1] >= 50;
      }
    }
  }

  lemma {:induction false} HostAlone()
    ensures HostLevels(false, "h") == [30] && HostAccepted(false, "h")
  {
    assert "h"[..0] == "" && "h"[..1] == "h";
    assert HostStateAfter(false, "h").InHost?;
  }

  lemma {:induction false} SiteAccepted(s: string)
    requires !StateAfter(false, s).SDead? && Authority(false, s) == "h" && !MeetsAt(false, s, |s|)
    requires |s| >= 8 && HostAccepted(false, "h") && AllLevels(false, s) == Levels(false, s)
    requires Levels(false, s)[..8] == [10, 10, 10, 10, 11, 12, 13, 30]
    ensures Absolute(s)
  {
    hide StateAfter, HostAccepted, PortNumber, MeetsAt, HostLevels, Authority, AllLevels;
    var levels := AllLevels(false, s);
    assert levels[0] == 10 && levels[7] == 30;
    LevelsRising(false, s);
    if 40 in levels {
      var k :| 0 <= k < |levels| && levels[k] == 40;
      LevelValues(false, s, k);
    }
    NoPort(false, s);
  }

  const QUERY_URL := "http://h?q=1"

  lemma {:induction false} QueryStates()
    ensures StateAfter(false, QUERY_URL[..9]).SReqQueryStringStart? && StateAfter(false, QUERY_URL).SReqQueryString?
  {
    hide StateAfter;
    var s := QUERY_URL;
    SiteStates(s);
    StateStep(false, s, 8); StateStep(false, s, 9); StateStep(false, s, 10); StateStep(false, s, 11);
    assert s[..12] == s;
  }

  /** The URL "http://h?q=1" is absolute, and its query is lost. */
  lemma {:induction false} QueryDropped()
    ensures Absolute(QUERY_URL) && NewPath(QUERY_URL) == "/" && QUERY_URL[AuthorityEnd(false, QUERY_URL)..] == "?q=1"
  {
    hide StateAfter, Below, HostLevels, HostAccepted, PortNumber, MeetsAt, AllLevels, Authority, Absolute, ParseUrlChar;
    QueryStates();
    SiteAuthority(QUERY_URL);
    RestSurvives(QUERY_URL);
  }

  /** Where levels that are all 50 from `n` on begin and end. */
  lemma {:induction false} FirstFrom(levels: seq<nat>, n: nat)
    requires 0 < n <= |levels| && Rising(levels) && levels[n - 1] < 50 && forall k :: n <= k < |levels| ==> levels[k] == 50
    ensures Below(levels, 51) == |levels| && Below(levels, 50) == n
  {
    hide Below;
    if n < |levels| { assert levels[n] == 50; }
    forall k | 0 <= k < n
      ensures levels[k] < 50
    {
      assert levels[k] <= levels[n - 1];
    }
  }

  lemma {:induction false} PathByte(state: State, c: char)
    requires (state.SReqServer? && c == '/') || (state.SReqPath? && IsUrlChar(c))
    ensures ParseUrlChar(state, c).SReqPath?
  {
  }

  /** Behind a slash and path bytes the URL is in its path. */
  lemma {:induction false} PathStates(p: string, n: nat)
    requires 0 < n <= |p| && p[0] == '/' && forall i :: 0 <= i < |p| ==> IsUrlChar(p[i])
    ensures StateAfter(false, (SITE + p)[..8 + n]).SReqPath?
    decreases n
  {
    hide StateAfter, ParseUrlChar;
    var s, k: nat := SITE + p, 7 + n;
    assert s[k] == p[n - 1];
    StateStep(false, s, k);
    if n == 1 {
      SiteStates(s);
      PathByte(SReqServer, '/');
    } else {
      PathStates(p, n - 1);
      PathByte(SReqPath, p[n - 1]);
    }
  }

  /**
   * An absolute URL that ends with its path keeps it if and only if the path has no multiple of 65536 bytes; otherwise
   * `handlePath` makes the path "/".
   */
  lemma {:induction false} PathDropped(p: string)
    requires p != "" && p[0] == '/' && forall i :: 0 <= i < |p| ==> IsUrlChar(p[i])
    ensures Absolute(SITE + p) && InReach(false, SITE + p)
    ensures NewPath(SITE + p) == if |p| % 0x1_0000 == 0 then "/" else p
  {
    hide StateAfter, Below, HostLevels, HostAccepted, PortNumber, MeetsAt, AllLevels, Authority, Absolute, InReach,
         IsUrlChar, AuthorityStart;
    var s := SITE + p;
    var levels := Levels(false, s);
    forall k | 8 <= k < |s|
      ensures StateAfter(false, s[..k + 1]).SReqPath? && levels[k] == 50
    {
      PathStates(p, k - 7);
    }
    var last: nat := |s| - 1;
    assert levels[last] == 50 && s[..last + 1] == s;
    SiteAuthority(s);
    RestSurvives(s);
    LevelsRising(false, s);
    assert levels[7] == levels[..8][7] == 30;
    FirstFrom(levels, 8);
    assert s[8..] == p;
  }
}
