/**
 * The value of a `Connection` header: tokens separated by commas (section 6.1 of RFC 7230), and which of them the
 * parser hears. It takes the comma behind the beginning of a token it looks for as part of that token, and stops
 * listening at a blank element, so it does not hear every token.
 */
module TokenLists {
  import opened Chars
  import opened HttpParser

  // ---------------------------------------------------------------- elements

  /** The elements of a list: the pieces between its commas. */
  function Elements(s: string): (es: seq<string>)
    ensures es != []
  {
    if s == "" then [""]
    else
      var es := Elements(s[..|s| - 1]);
      var n := |es| - 1;
      if s[|s| - 1] == ',' then es + [""] else es[..n] + [es[n] + [s[|s| - 1]]]
  }

  /** Elements put together again. */
  function WithCommas(es: seq<string>): string {
    if es == [] then "" else if |es| == 1 then es[0] else WithCommas(es[..|es| - 1]) + "," + es[|es| - 1]
  }

  /** The elements are the one way to cut the list at its commas. */
  lemma {:induction false} ElementsJoined(s: string)
    ensures WithCommas(Elements(s)) == s && forall i :: 0 <= i < |Elements(s)| ==> ',' !in Elements(s)[i]
    decreases |s|
  {
    if s != "" {
      var n, es := |s| - 1, Elements(s[..|s| - 1]);
      ElementsJoined(s[..n]);
      assert s == s[..n] + [s[n]];
      if s[n] == ',' {
        assert (es + [""])[..|es|] == es;
        assert s[..n] + "," + "" == s;
      } else {
        var m := |es| - 1;
        var fs := es[..m] + [es[m] + [s[n]]];
        assert fs[..m] == es[..m];
        if m > 0 { assert WithCommas(es[..m]) + "," + es[m] + [s[n]] == WithCommas(es[..m]) + "," + (es[m] + [s[n]]); }
      }
    }
  }

  lemma {:induction false} JoinedElements(es: seq<string>)
    requires es != [] && forall i :: 0 <= i < |es| ==> ',' !in es[i]
    ensures Elements(WithCommas(es)) == es
    decreases |es|, |es[|es| - 1]|
  {
    var n, s := |es| - 1, WithCommas(es);
    var t := es[n];
    if t == "" {
      if n > 0 {
        JoinedElements(es[..n]);
        assert s[..|s| - 1] == WithCommas(es[..n]);
      }
    } else {
      var fs := es[..n] + [t[..|t| - 1]];
      JoinedElements(fs);
      assert fs[..n] == es[..n] && t == t[..|t| - 1] + [t[|t| - 1]];
      assert s[..|s| - 1] == WithCommas(fs) && s[|s| - 1] == t[|t| - 1];
      assert t[|t| - 1] in t;
    }
  }

  // ---------------------------------------------------------------- tokens

  /** The text without the spaces in front. */
  function Stripped(t: string): (d: string)
    ensures d != "" ==> d[0] != ' '
  {
    if t != "" && t[0] == ' ' then Stripped(t[1..]) else t
  }

  /** `d` is the word `w` in any letter case, with nothing but spaces behind it. */
  predicate Spells(d: string, w: string) {
    |d| >= |w| && ToLower(d[..|w|]) == w && forall i :: |w| <= i < |d| ==> d[i] == ' '
  }

  /** An element that is the token `w`, in any letter case, with spaces around it. */
  predicate Says(t: string, w: string) { Spells(Stripped(t), w) }

  /** The list has the token `w`. */
  predicate HasToken(s: string, w: string) { exists i :: 0 <= i < |Elements(s)| && Says(Elements(s)[i], w) }

  /** The beginning of `w` in any letter case, and not all of it. */
  predicate Begins(d: string, w: string) { 0 < |d| < |w| && ToLower(d) == w[..|d|] }

  // ---------------------------------------------------------------- which elements the parser hears

  /** The beginning of a token the parser looks for: its comma is taken for a part of it. */
  predicate Cut(t: string) {
    var d := Stripped(t); Begins(d, KEEP_ALIVE) || Begins(d, CLOSE) || Begins(d, UPGRADE)
  }

  /** A character an element behind a comma may begin with: `LOWER` of it is a token character. */
  predicate Opens(c: char) { IsToken(Lower(c)) }

  /** An element the parser takes for a token of its own, but for the comma behind it. */
  predicate Sound(t: string, first: bool) {
    if first then t != "" else Stripped(t) != "" && Opens(Stripped(t)[0])
  }

  /** What becomes of an element: it is heard, it counts as the rest of the element before, or all is ignored. */
  datatype Place = Seen | Absorbed | Ignored

  function PlaceOf(es: seq<string>, i: nat): Place
    requires i < |es|
  {
    if i == 0 then Seen
    else
      var t := es[i - 1];
      match PlaceOf(es, i - 1)
      case Seen => if Cut(t) || (i == 1 && t == "") then Absorbed else if Sound(t, i == 1) then Seen else Ignored
      case Absorbed => Seen
      case Ignored => Ignored
  }

  /** The parser hears the token `w` in a header value. */
  predicate Sent(s: string, w: string) {
    s != "" && exists i :: 0 <= i < |Elements(s)| && PlaceOf(Elements(s), i).Seen? && Says(Elements(s)[i], w)
  }

  /** An element behind which the parser goes on as it should. */
  predicate Plain(t: string, first: bool) { Sound(t, first) && !Cut(t) }

  /** A list is heard as it is written if all its elements but the last are plain. */
  lemma {:induction false} PlainIsHeard(s: string, w: string)
    requires s != "" && forall i :: 0 <= i < |Elements(s)| - 1 ==> Plain(Elements(s)[i], i == 0)
    ensures Sent(s, w) <==> HasToken(s, w)
  {
    hide Elements, Plain, Says;
    forall i: nat | i < |Elements(s)|
      ensures PlaceOf(Elements(s), i).Seen?
    {
      PlainPlaces(Elements(s), i);
    }
  }

  lemma {:induction false} PlainPlaces(es: seq<string>, i: nat)
    requires i < |es| && forall k :: 0 <= k < |es| - 1 ==> Plain(es[k], k == 0)
    ensures PlaceOf(es, i).Seen?
  {
    hide Cut, Opens, Stripped;
    if i > 0 {
      PlainPlaces(es, i - 1);
      assert Plain(es[i - 1], i - 1 == 0);
    }
  }

  /** Only tokens that are in the list are heard. */
  lemma {:induction false} SentIsThere(s: string, w: string)
    requires Sent(s, w)
    ensures HasToken(s, w)
  {
    hide Elements, PlaceOf, Says;
  }

  /**
   * Of two elements the second is not heard exactly if the first is the beginning of one of the three tokens, or
   * nothing at all: so "c, close" does not close the connection.
   */
  lemma {:induction false} SecondIsLost(t: string, u: string)
    requires ',' !in t && ',' !in u
    ensures Elements(t + "," + u) == [t, u]
    ensures PlaceOf([t, u], 1).Seen? <==> t != "" && !Cut(t)
  {
    hide Elements, Cut;
    TwoJoined(t, u);
    JoinedElements([t, u]);
    FirstHeard(t, u);
  }

  lemma {:induction false} TwoJoined(t: string, u: string)
    ensures WithCommas([t, u]) == t + "," + u
  {
    assert [t, u][..1] == [t];
  }

  lemma {:induction false} FirstHeard(t: string, u: string)
    ensures PlaceOf([t, u], 0).Seen?
  {
  }

  /** "c, close" has the token "close", which the parser does not hear. */
  lemma {:induction false} CloseIsLost()
    ensures HasToken("c, close", CLOSE) && !Sent("c, close", CLOSE)
  {
    hide Elements, HasToken, Sent;
    var t, u := "c", " close";
    assert t + "," + u == "c, close";
    SecondIsLost(t, u);
    assert Stripped(t) == t && ToLower(t) == CLOSE[..1];
    assert u[1..] == CLOSE && Stripped(u) == CLOSE;
    assert CLOSE[..5] == CLOSE && ToLower(CLOSE) == CLOSE;
    assert [t, u][1] == u && Says(u, CLOSE) && !Says(t, CLOSE);
    LostOfTwo("c, close", t, u);
  }

  lemma {:induction false} LostOfTwo(s: string, t: string, u: string)
    requires s != "" && Elements(s) == [t, u] && !PlaceOf([t, u], 1).Seen? && !Says(t, CLOSE) && Says(u, CLOSE)
    ensures HasToken(s, CLOSE) && !Sent(s, CLOSE)
  {
    hide Says, PlaceOf;
    assert Elements(s)[1] == u;
  }
}
