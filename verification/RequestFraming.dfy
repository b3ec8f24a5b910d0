/**
 * The request-framing filter and the session's read loop: bytes from the socket collect in a cache, from which
 * whole requests are cut, one for each call of `read`.
 */
module RequestFraming {
  import opened Chars
  import opened Lengths

  /** `MAX_HTTP_SIZE`. */
  const MAX_HTTP_SIZE: nat := 4096
  const INT_MAX: nat := 0x7fff_ffff
  const HEAD_END: string := "\r\n\r\n"
  const LENGTH_KEY: string := "content-length:"

  // ---------------------------------------------------------------- finding

  predicate IsAt(s: string, pattern: string, i: nat) { i + |pattern| <= |s| && s[i..i + |pattern|] == pattern }

  /** The first place of `pattern` in `s`, if any. */
  function Find(s: string, pattern: string): (r: Option<nat>)
    ensures r.Some? ==> IsAt(s, pattern, r.value) && forall k :: 0 <= k < r.value ==> !IsAt(s, pattern, k)
    ensures r.None? ==> forall k :: 0 <= k <= |s| ==> !IsAt(s, pattern, k)
    decreases |s|
  {
    if pattern == "" then Some(0)
    else if |s| < |pattern| then None
    else if s[..|pattern|] == pattern then Some(0)
    else
      var r := Find(s[1..], pattern);
      assert forall k: nat :: IsAt(s[1..], pattern, k) <==> IsAt(s, pattern, k + 1) by { FindShift(s, pattern); }
      assert forall k: nat :: k > 0 && IsAt(s, pattern, k) ==> IsAt(s[1..], pattern, k - 1);
      if r.None? then None else Some(r.value + 1)
  }

  lemma {:induction false} FindShift(s: string, pattern: string)
    requires s != ""
    ensures forall k: nat :: IsAt(s[1..], pattern, k) <==> IsAt(s, pattern, k + 1)
  {
    forall k: nat
      ensures IsAt(s[1..], pattern, k) <==> IsAt(s, pattern, k + 1)
    {
      if k + 1 + |pattern| <= |s| { assert s[1..][k..k + |pattern|] == s[k + 1..k + 1 + |pattern|]; }
    }
  }

  /** What is found stays where it is when more follows. */
  lemma {:induction false} FindStable(s: string, t: string, pattern: string)
    requires Find(s, pattern).Some?
    ensures Find(s + t, pattern) == Find(s, pattern)
  {
    var i := Find(s, pattern).value;
    AtStable(s, t, pattern, i);
    var j := Find(s + t, pattern).value;
    if j < i { AtStable(s, t, pattern, j); }
  }

  lemma {:induction false} AtStable(s: string, t: string, pattern: string, k: nat)
    requires k + |pattern| <= |s|
    ensures IsAt(s, pattern, k) <==> IsAt(s + t, pattern, k)
  {
    assert (s + t)[k..k + |pattern|] == s[k..k + |pattern|];
  }

  // ---------------------------------------------------------------- the length of a request

  /** `EString::trim`: without the characters up to the space at both ends. */
  function Trim(s: string): string
    decreases |s|
  {
    if s == "" then ""
    else if s[0] <= ' ' then Trim(s[1..])
    else if s[|s| - 1] <= ' ' then Trim(s[..|s| - 1])
    else s
  }

  /** The body length a complete head announces; None if the text after the key is no length. */
  function BodyLength(head: string): Option<nat> {
    var key := Find(ToLower(head), LENGTH_KEY);
    if key.None? then Some(0)
    else
      var text := head[key.value + |LENGTH_KEY|..];
      var end := Find(text, CRLF);
      var digits := Trim(if end.Some? then text[..end.value] else text);
      if digits != "" && AllDigits(digits) && DecimalValue(digits) <= INT_MAX then Some(DecimalValue(digits)) else None
  }

  /**
   * What the cache starts with: a whole request, part of one, a head whose length cannot be read, or a head with a
   * length so large that the size of the request is no `int`.
   */
  datatype First = Whole(size: nat) | Partial | Malformed | Overflows

  function FirstRequest(s: string): (r: First)
    ensures r.Whole? ==> 0 < r.size <= |s|
  {
    var head := Find(s, HEAD_END);
    if head.None? then Partial
    else
      var hlen := head.value + 4;
      var blen := BodyLength(s[..hlen]);
      if blen.None? then Malformed
      else if hlen + blen.value > INT_MAX then Overflows
      else if hlen + blen.value <= |s| then Whole(hlen + blen.value)
      else Partial
  }

  /** A sum of two `int`s as the machine leaves it. */
  function Int32(n: int): int { if n > INT_MAX then n - UINT32_RANGE else n }

  /**
   * The code compares the size of the cache with the machine's sum. For a cache within its limit, exactly when that
   * sum overflows does the comparison pass though the request is not there.
   */
  lemma {:induction false} OverflowPasses(s: string)
    requires |s| <= MAX_HTTP_SIZE && Find(s, HEAD_END).Some?
    requires BodyLength(s[..Find(s, HEAD_END).value + 4]).Some?
    ensures var hlen := Find(s, HEAD_END).value + 4; var blen := BodyLength(s[..hlen]).value;
            && (Int32(hlen + blen) <= |s| < hlen + blen <==> FirstRequest(s).Overflows?)
            && (FirstRequest(s).Whole? <==> Int32(hlen + blen) <= |s| && !FirstRequest(s).Overflows?)
  {
    hide Find, ToLower, Trim, AllDigits, DecimalValue;
    var hlen := Find(s, HEAD_END).value + 4;
    SmallLength(s[..hlen]);
  }

  lemma {:induction false} SmallLength(head: string)
    ensures BodyLength(head).Some? ==> BodyLength(head).value <= INT_MAX
  {
    hide Find, ToLower, Trim, AllDigits, DecimalValue;
  }

  /** A request whose size overflows: its body would be the largest the length can say. */
  const OVERFLOWING: string := "Content-Length:2147483647\r\n\r\n"

  lemma {:induction false} OverflowingRequest()
    ensures |OVERFLOWING| == 29 && FirstRequest(OVERFLOWING).Overflows?
  {
    hide Find, ToLower, Trim, DecimalValue, AllDigits;
    OverflowingHead();
    OverflowingLength();
  }

  // ---------------------------------------------------------------- requests as they are written

  /** The characters `trim` takes for blanks. */
  predicate Blanks(s: string) { forall i :: 0 <= i < |s| ==> s[i] <= ' ' }

  /** A head that ends with its first blank line. */
  predicate IsHead(head: string) {
    |head| >= 4 && IsAt(head, HEAD_END, |head| - 4) && forall k :: 0 <= k < |head| - 4 ==> !IsAt(head, HEAD_END, k)
  }

  /** A head in pieces: what is in front of its first length key, the key, the rest of that line, and what follows. */
  datatype LengthLine = LengthLine(before: string, key: string, value: string, after: string) {
    function Text(): string { before + key + value + CRLF + after }

    /** The key is written in any letter case and stands nowhere before. */
    predicate Ok() {
      && ToLower(key) == LENGTH_KEY && (forall i :: 0 <= i < |value| ==> !IsAt(value, CRLF, i))
      && forall i :: 0 <= i < |before| ==> !IsAt(ToLower(Text()), LENGTH_KEY, i)
    }
  }

  /** A decimal number with blanks around it. */
  predicate IsLength(value: string, n: nat) {
    exists i, j :: 0 <= i < j <= |value| && Blanks(value[..i]) && Blanks(value[j..]) && IsNumber(value[i..j], n)
  }

  predicate IsNumber(s: string, n: nat) { s != "" && AllDigits(s) && DecimalValue(s) == n }

  /** The head has no length key and `n` is 0, or the line of its first length key says `n`. */
  ghost predicate Announces(head: string, n: nat) {
    || (n == 0 && forall i :: 0 <= i <= |head| ==> !IsAt(ToLower(head), LENGTH_KEY, i))
    || (n <= INT_MAX && exists l: LengthLine :: l.Text() == head && l.Ok() && IsLength(l.value, n))
  }

  lemma {:induction false} KeyFound(l: LengthLine)
    requires l.Ok()
    ensures Find(ToLower(l.Text()), LENGTH_KEY) == Some(|l.before|)
    ensures var text := l.Text()[|l.before| + |LENGTH_KEY|..];
            Find(text, CRLF) == Some(|l.value|) && text[..|l.value|] == l.value
  {
    hide Find;
    var s, b := l.Text(), |l.before|;
    assert |l.key| == |LENGTH_KEY|;
    assert ToLower(s)[b..b + |l.key|] == LENGTH_KEY by {
      forall i | 0 <= i < |l.key|
        ensures ToLower(s)[b..b + |l.key|][i] == ToLower(l.key)[i]
      {
        assert s[b + i] == l.key[i];
      }
    }
    assert IsAt(ToLower(s), LENGTH_KEY, b);
    var text := s[b + |LENGTH_KEY|..];
    assert text == l.value + CRLF + l.after;
    FirstLineEnd(l.value, l.after);
  }

  /** The end of a line with no line end in it. */
  lemma {:induction false} FirstLineEnd(line: string, rest: string)
    requires forall i :: 0 <= i < |line| ==> !IsAt(line, CRLF, i)
    ensures Find(line + CRLF + rest, CRLF) == Some(|line|)
  {
    hide Find;
    var s := line + CRLF + rest;
    assert s[|line|..|line| + 2] == CRLF;
    assert IsAt(s, CRLF, |line|);
    forall k | 0 <= k < |line|
      ensures !IsAt(s, CRLF, k)
    {
      if k + 2 <= |line| { assert s[k..k + 2] == line[k..k + 2] && !IsAt(line, CRLF, k); } else { assert s[k + 1] == CR; }
    }
  }

  /** `trim` takes away the blanks in front of a text and behind it. */
  lemma {:induction false} Trimmed(a: string, s: string, b: string)
    requires Blanks(a) && Blanks(b) && (s != "" ==> s[0] > ' ' && s[|s| - 1] > ' ')
    ensures Trim(a + s + b) == s
    decreases |a| + |b|
  {
    var t := a + s + b;
    if a != "" {
      assert t[0] == a[0] && t[1..] == a[1..] + s + b;
      Trimmed(a[1..], s, b);
    } else if b != "" {
      var n := |b| - 1;
      assert t[|t| - 1] == b[n] && t[..|t| - 1] == a + s + b[..n];
      Trimmed(a, s, b[..n]);
      if s == "" { BlanksVanish(t); }
    } else {
      assert t == s;
    }
  }

  lemma {:induction false} BlanksVanish(s: string)
    requires Blanks(s)
    ensures Trim(s) == ""
    decreases |s|
  {
    if s != "" { BlanksVanish(s[1..]); }
  }

  lemma {:induction false} SliceOfSlice(s: string, a: nat, b: nat, i: nat, j: nat)
    requires a <= b <= |s| && i <= j <= b - a
    ensures s[a..b][i..j] == s[a + i..a + j]
  {
    var t, x, y := s[a..b], s[a..b][i..j], s[a + i..a + j];
    forall k | 0 <= k < j - i
      ensures x[k] == y[k]
    {
      assert x[k] == t[i + k] && t[i + k] == s[a + i + k];
    }
    assert x == y;
  }

  /** One blank less, in front of the text or behind it. */
  lemma {:induction false} TrimFront(s: string, i: nat, j: nat)
    requires s != "" && s[0] <= ' ' && i <= j < |s| && Blanks(s[1..][..i]) && Blanks(s[1..][j..])
    ensures s[1..][i..j] == s[i + 1..j + 1] && Blanks(s[..i + 1]) && Blanks(s[j + 1..])
  {
    var t := s[1..];
    assert s == [s[0]] + t;
    assert s[..i + 1] == [s[0]] + t[..i];
    assert s[j + 1..] == t[j..];
    SliceOfSlice(s, 1, |s|, i, j);
  }

  lemma {:induction false} TrimBack(s: string, i: nat, j: nat)
    requires s != "" && s[|s| - 1] <= ' ' && i <= j < |s| && Blanks(s[..|s| - 1][..i]) && Blanks(s[..|s| - 1][j..])
    ensures s[..|s| - 1][i..j] == s[i..j] && Blanks(s[..i]) && Blanks(s[j..])
  {
    var n := |s| - 1;
    var t := s[..n];
    assert s == t + [s[n]];
    assert s[j..] == t[j..] + [s[n]];
    assert s[..i] == t[..i];
    SliceOfSlice(s, 0, n, i, j);
  }

  /** What `trim` leaves is a part of the text with nothing but blanks around it. */
  lemma {:induction false} TrimmedFrom(s: string) returns (i: nat, j: nat)
    ensures i <= j <= |s| && Trim(s) == s[i..j] && Blanks(s[..i]) && Blanks(s[j..])
    decreases |s|
  {
    if s == "" {
      i, j := 0, 0;
    } else if s[0] <= ' ' {
      i, j := TrimmedFrom(s[1..]);
      hide Blanks;
      TrimFront(s, i, j);
      i, j := i + 1, j + 1;
    } else if s[|s| - 1] <= ' ' {
      i, j := TrimmedFrom(s[..|s| - 1]);
      hide Blanks;
      TrimBack(s, i, j);
    } else {
      i, j := 0, |s|;
      assert s[0..|s|] == s;
    }
  }

  /** The body length a head announces is the one that is read. */
  lemma {:induction false} AnnouncedIsRead(head: string, n: nat)
    requires Announces(head, n)
    ensures BodyLength(head) == Some(n)
  {
    hide Find, Trim, AllDigits, DecimalValue, ToLower, Blanks;
    if l: LengthLine :| n <= INT_MAX && l.Text() == head && l.Ok() && IsLength(l.value, n) {
      KeyFound(l);
      var i, j :| 0 <= i < j <= |l.value| && Blanks(l.value[..i]) && Blanks(l.value[j..]) && IsNumber(l.value[i..j], n);
      assert l.value == l.value[..i] + l.value[i..j] + l.value[j..];
      DigitsAreNotBlank(l.value[i..j]);
      Trimmed(l.value[..i], l.value[i..j], l.value[j..]);
    }
  }

  /** No other length is read. */
  lemma {:induction false} ReadIsAnnounced(head: string, n: nat)
    requires IsHead(head) && BodyLength(head) == Some(n)
    ensures Announces(head, n)
  {
    hide Find, Trim, AllDigits, DecimalValue, ToLower, Blanks;
    var key := Find(ToLower(head), LENGTH_KEY);
    if key.Some? {
      var l := LineAt(head, key.value);
      KeyFound(l);
      var i, j := TrimmedFrom(l.value);
      assert IsNumber(l.value[i..j], n);
      assert IsLength(l.value, n);
    }
  }

  /** The line of the first length key of a head. */
  lemma {:induction false} LineAt(head: string, k: nat) returns (l: LengthLine)
    requires IsHead(head) && Find(ToLower(head), LENGTH_KEY) == Some(k)
    ensures l.Text() == head && l.Ok() && |l.before| == k
  {
    hide Find, IsHead;
    var b := k + |LENGTH_KEY|;
    KeyInHead(head, k);
    var text := head[b..];
    LastLineEnd(head, b);
    var e := Find(text, CRLF).value;
    l := LengthLine(head[..k], head[k..b], text[..e], text[e + 2..]);
    assert text == text[..e] + CRLF + text[e + 2..];
    assert head == head[..k] + head[k..b] + text;
    assert ToLower(head[k..b]) == ToLower(head)[k..b];
    NoLineEndBefore(text, e);
  }

  lemma {:induction false} LastLineEnd(head: string, b: nat)
    requires IsHead(head) && b <= |head| - 4
    ensures Find(head[b..], CRLF).Some?
  {
    hide Find;
    var text := head[b..];
    assert text[|text| - 2..] == head[|head| - 4..][2..] == CRLF;
    assert IsAt(text, CRLF, |text| - 2);
  }

  lemma {:induction false} NoLineEndBefore(text: string, e: nat)
    requires Find(text, CRLF) == Some(e)
    ensures forall i :: 0 <= i < |text[..e]| ==> !IsAt(text[..e], CRLF, i)
  {
    hide Find;
    forall i | 0 <= i < |text[..e]|
      ensures !IsAt(text[..e], CRLF, i)
    {
      if i + 2 <= e { assert text[..e][i..i + 2] == text[i..i + 2] && !IsAt(text, CRLF, i); }
    }
  }

  /** The blank line lies behind the key. */
  lemma {:induction false} KeyInHead(head: string, k: nat)
    requires IsHead(head) && IsAt(ToLower(head), LENGTH_KEY, k)
    ensures k + |LENGTH_KEY| <= |head| - 4
  {
    var n, e := |head| - 4, k + |LENGTH_KEY|;
    forall i | k <= i < e
      ensures head[i] != CR && head[i] != LF
    {
      assert ToLower(head)[k..e][i - k] == LENGTH_KEY[i - k];
    }
    forall i | n <= i < |head|
      ensures head[i] == CR || head[i] == LF
    {
      assert head[n..n + 4][i - n] == HEAD_END[i - n];
    }
    var m := if k <= n < e then n else k;
    var c := head[m];
  }

  lemma {:induction false} DigitsAreNotBlank(s: string)
    requires AllDigits(s)
    ensures s != "" ==> s[0] > ' ' && s[|s| - 1] > ' '
  {
  }

  /**
   * A request as it is written: a head that announces the length of the body, then the body. Whatever follows, it is
   * the first request, to the byte, and no part of it is one.
   */
  lemma {:induction false} WrittenRequest(head: string, body: string, more: string)
    requires IsHead(head) && Announces(head, |body|) && |head + body| <= INT_MAX
    ensures FirstRequest(head + body + more) == Whole(|head + body|)
    ensures forall k :: 0 <= k < |head + body| ==> FirstRequest((head + body)[..k]).Partial?
  {
    hide Find, BodyLength, Announces;
    AnnouncedIsRead(head, |body|);
    HeadFound(head, body + more);
    assert head + (body + more) == head + body + more;
    forall k | 0 <= k < |head + body|
      ensures FirstRequest((head + body)[..k]).Partial?
    {
      if k < |head| {
        assert (head + body)[..k] == head[..k];
        NoHeadYet(head, k);
      } else {
        assert (head + body)[..k] == head + body[..k - |head|];
        HeadFound(head, body[..k - |head|]);
      }
    }
  }

  lemma {:induction false} HeadFound(head: string, rest: string)
    requires IsHead(head)
    ensures Find(head + rest, HEAD_END) == Some(|head| - 4) && (head + rest)[..|head|] == head
  {
    hide Find;
    FindStable(head, rest, HEAD_END);
  }

  lemma {:induction false} NoHeadYet(head: string, k: nat)
    requires IsHead(head) && k < |head|
    ensures Find(head[..k], HEAD_END).None?
  {
    hide Find;
    forall i | 0 <= i <= k
      ensures !IsAt(head[..k], HEAD_END, i)
    {
      if i + 4 <= k {
        AtStable(head[..k], head[k..], HEAD_END, i);
        assert head[..k] + head[k..] == head;
      }
    }
  }

  /** What a stream starts with, read off its first head and what stands behind it. */
  lemma {:induction false} FirstClassified(head: string, rest: string)
    requires IsHead(head)
    ensures FirstRequest(head + rest).Malformed? <==> forall n: nat :: !Announces(head, n)
    ensures forall n: nat :: Announces(head, n) ==>
              FirstRequest(head + rest) ==
              if |head| + n > INT_MAX then Overflows else if n <= |rest| then Whole(|head| + n) else Partial
  {
    hide Find, BodyLength, Announces;
    HeadFound(head, rest);
    forall n: nat | Announces(head, n)
      ensures BodyLength(head) == Some(n)
    {
      AnnouncedIsRead(head, n);
    }
    if BodyLength(head).Some? { ReadIsAnnounced(head, BodyLength(head).value); }
  }

  /** Without a head there is nothing yet. */
  lemma {:induction false} NoHead(s: string)
    requires forall k :: 0 <= k <= |s| ==> !IsHead(s[..k])
    ensures FirstRequest(s).Partial?
  {
    hide Find, IsHead;
    if Find(s, HEAD_END).Some? { HeadAt(s, Find(s, HEAD_END).value); }
  }

  lemma {:induction false} HeadAt(s: string, n: nat)
    requires Find(s, HEAD_END) == Some(n)
    ensures n + 4 <= |s| && IsHead(s[..n + 4])
  {
    hide Find;
    var k := n + 4;
    forall i | 0 <= i <= n
      ensures IsAt(s[..k], HEAD_END, i) <==> IsAt(s, HEAD_END, i)
    {
      AtStable(s[..k], s[k..], HEAD_END, i);
      assert s[..k] + s[k..] == s;
    }
  }

  /** Bytes that arrive later change nothing about a request that is whole, or malformed. */
  lemma {:induction false} FirstStable(s: string, t: string)
    ensures !FirstRequest(s).Partial? ==> FirstRequest(s + t) == FirstRequest(s)
  {
    hide Find, BodyLength;
    var head := Find(s, HEAD_END);
    if head.Some? {
      FindStable(s, t, HEAD_END);
      assert (s + t)[..head.value + 4] == s[..head.value + 4];
    }
  }

  /** The requests a byte stream consists of, and what is left behind them. */
  function Requests(s: string): seq<string>
    decreases |s|
  {
    var f := FirstRequest(s);
    if f.Whole? then [s[..f.size]] + Requests(s[f.size..]) else []
  }

  function Rest(s: string): string
    decreases |s|
  {
    var f := FirstRequest(s);
    if f.Whole? then Rest(s[f.size..]) else s
  }

  /** Nothing is lost: the requests and the rest are the stream. */
  lemma {:induction false} NothingLost(s: string)
    ensures Join(Requests(s)) + Rest(s) == s && Requests(Rest(s)) == []
    decreases |s|
  {
    hide FirstRequest;
    var f := FirstRequest(s);
    if f.Whole? {
      NothingLost(s[f.size..]);
      JoinAppend([s[..f.size]], Requests(s[f.size..]));
      JoinOne(s[..f.size]);
      var x, y := Join(Requests(s[f.size..])), Rest(s);
      assert s[..f.size] + x + y == s[..f.size] + (x + y);
      assert s[..f.size] + s[f.size..] == s;
    }
  }

  /** The requests of a stream do not depend on where it is cut. */
  lemma {:induction false} RequestsAppend(s: string, t: string)
    ensures Requests(s + t) == Requests(s) + Requests(Rest(s) + t)
    decreases |s|
  {
    hide FirstRequest;
    var f := FirstRequest(s);
    FirstStable(s, t);
    if f.Whole? {
      RequestsAppend(s[f.size..], t);
      assert (s + t)[..f.size] == s[..f.size] && (s + t)[f.size..] == s[f.size..] + t;
      assert [s[..f.size]] + (Requests(s[f.size..]) + Requests(Rest(s) + t)) ==
             [s[..f.size]] + Requests(s[f.size..]) + Requests(Rest(s) + t);
    }
  }

  /** A request as it is written: a head, and a body of the length the head announces. */
  ghost predicate IsRequest(s: string) {
    |s| <= INT_MAX && exists h: nat :: h <= |s| && IsHead(s[..h]) && Announces(s[..h], |s| - h)
  }

  lemma {:induction false} RequestAtFront(s: string, more: string)
    requires IsRequest(s)
    ensures s != "" && FirstRequest(s + more) == Whole(|s|)
    ensures forall k :: 0 <= k < |s| ==> FirstRequest(s[..k]).Partial?
  {
    hide FirstRequest, IsHead, Announces;
    var h: nat :| h <= |s| && IsHead(s[..h]) && Announces(s[..h], |s| - h);
    WrittenRequest(s[..h], s[h..], more);
    assert s[..h] + s[h..] == s;
  }

  /** Requests written one behind the other are the requests of the stream, and a part of a further one is its rest. */
  lemma {:induction false} WrittenRequests(ms: seq<string>, tail: string)
    requires (forall i :: 0 <= i < |ms| ==> IsRequest(ms[i])) && FirstRequest(tail).Partial?
    ensures Requests(Join(ms) + tail) == ms && Rest(Join(ms) + tail) == tail
    decreases |ms|
  {
    hide FirstRequest, IsRequest, Join;
    if ms == [] {
      JoinNone();
      assert "" + tail == tail;
    } else {
      var s, rest := ms[0], Join(ms[1..]) + tail;
      FrontOfAll(ms);
      RequestAtFront(s, rest);
      assert s + rest == Join(ms) + tail && (s + rest)[..|s|] == s && (s + rest)[|s|..] == rest;
      WrittenRequests(ms[1..], tail);
    }
  }

  lemma {:induction false} JoinNone()
    ensures Join([]) == ""
  {
  }

  lemma {:induction false} FrontOfAll(ms: seq<string>)
    requires ms != []
    ensures Join(ms) == ms[0] + Join(ms[1..])
  {
    hide Join;
    JoinAppend([ms[0]], ms[1..]);
    JoinOne(ms[0]);
    assert [ms[0]] + ms[1..] == ms;
  }

  lemma {:induction false} NothingPartial()
    ensures FirstRequest("").Partial?
  {
  }

  /** More bytes behind the cache. */
  lemma {:induction false} Arrived(all: string, gone: seq<string>, cached: string, bytes: string)
    requires Join(gone) + cached == all && Requests(all) == gone + Requests(cached)
    ensures Join(gone) + (cached + bytes) == all + bytes
    ensures Requests(all + bytes) == gone + Requests(cached + bytes)
  {
    hide FirstRequest, Requests, Rest, Join;
    assert Join(gone) + (cached + bytes) == Join(gone) + cached + bytes;
    RequestsAppend(all, bytes);
    RequestsAppend(cached, bytes);
    SameRest(all, gone, cached);
    var more := Requests(Rest(cached) + bytes);
    assert gone + Requests(cached) + more == gone + (Requests(cached) + more);
  }

  lemma {:induction false} FirstRead(received: string, bytes: string, input: seq<string>)
    ensures received + Join([bytes] + input) == received + bytes + Join(input)
  {
    JoinAppend([bytes], input);
    JoinOne(bytes);
    assert received + (bytes + Join(input)) == received + bytes + Join(input);
  }

  /** The rest of the stream is the rest of the cache. */
  lemma {:induction false} SameRest(all: string, gone: seq<string>, cached: string)
    requires Join(gone) + cached == all && Requests(all) == gone + Requests(cached)
    ensures Rest(all) == Rest(cached)
  {
    hide FirstRequest, Join;
    NothingLost(all);
    NothingLost(cached);
    JoinAppend(gone, Requests(cached));
    var a, b := Join(gone), Join(Requests(cached));
    assert a + b + Rest(all) == a + (b + Rest(cached));
    assert (a + b + Rest(all))[|a + b|..] == Rest(all);
    assert (a + (b + Rest(cached)))[|a + b|..] == Rest(cached);
  }

  /** A whole request is cut from the front of the cache. */
  lemma {:induction false} Cut(gone: seq<string>, cached: string, size: nat)
    requires FirstRequest(cached) == Whole(size)
    ensures size <= |cached|
    ensures Join(gone + [cached[..size]]) + cached[size..] == Join(gone) + cached
    ensures gone + [cached[..size]] + Requests(cached[size..]) == gone + Requests(cached)
  {
    hide FirstRequest, Join;
    var r := cached[..size];
    JoinAppend(gone, [r]);
    JoinOne(r);
    assert Join(gone) + r + cached[size..] == Join(gone) + (r + cached[size..]);
    assert r + cached[size..] == cached;
    assert gone + [r] + Requests(cached[size..]) == gone + ([r] + Requests(cached[size..]));
  }

  lemma {:induction false} OverflowingHead()
    ensures |OVERFLOWING| == 29 && Find(OVERFLOWING, HEAD_END) == Some(25)
    ensures OVERFLOWING[..25 + 4] == OVERFLOWING
  {
    hide Find;
    var s := OVERFLOWING;
    assert IsAt(s, HEAD_END, 25);
    forall k | 0 <= k < 25
      ensures !IsAt(s, HEAD_END, k)
    {
      assert s[k] != CR ==> s[k..k + 4][0] != CR;
    }
  }

  lemma {:induction false} OverflowingLength()
    ensures BodyLength(OVERFLOWING) == Some(INT_MAX)
  {
    hide Find, Trim, DecimalValue, AllDigits;
    var s := OVERFLOWING;
    assert IsAt(ToLower(s), LENGTH_KEY, 0) by { assert ToLower(s)[0..15] == LENGTH_KEY; }
    var text := s[15..];
    assert text == "2147483647\r\n\r\n";
    assert IsAt(text, CRLF, 10) by { assert text[10..12] == CRLF; }
    forall k | 0 <= k < 10
      ensures !IsAt(text, CRLF, k)
    {
      assert text[k] != CR ==> text[k..k + 2][0] != CR;
    }
    assert text[..10] == "2147483647";
    LargestLength();
  }

  lemma {:induction false} LargestLength()
    ensures Trim("2147483647") == "2147483647" && AllDigits("2147483647") && DecimalValue("2147483647") == INT_MAX
  {
    hide DecimalValue, AllDigits;
    var s := "2147483647";
    assert "21474" + ['8'] == "214748" && "214748" + ['3'] == "2147483" && "2147483" + ['6'] == "21474836";
    assert "21474836" + ['4'] == "214748364" && "214748364" + ['7'] == s;
    FirstDigits();
    DecimalSnoc("21474", '8');
    DecimalSnoc("214748", '3');
    DecimalSnoc("2147483", '6');
    DecimalSnoc("21474836", '4');
    DecimalSnoc("214748364", '7');
  }

  lemma {:induction false} FirstDigits()
    ensures AllDigits("21474") && DecimalValue("21474") == 21474
  {
    hide DecimalValue, AllDigits;
    assert "" + ['2'] == "2" && "2" + ['1'] == "21" && "21" + ['4'] == "214" && "214" + ['7'] == "2147";
    assert "2147" + ['4'] == "21474";
    NoDigits();
    DecimalSnoc("", '2');
    DecimalSnoc("2", '1');
    DecimalSnoc("21", '4');
    DecimalSnoc("214", '7');
    DecimalSnoc("2147", '4');
  }

  lemma {:induction false} NoDigits()
    ensures AllDigits("") && DecimalValue("") == 0
  {
  }

  lemma {:induction false} DecimalSnoc(s: string, c: char)
    requires AllDigits(s) && IsNum(c)
    ensures AllDigits(s + [c]) && DecimalValue(s + [c]) == 10 * DecimalValue(s) + Digit(c)
  {
    assert (s + [c])[..|s|] == s;
  }

  // ---------------------------------------------------------------- the session

  /**
   * Whether a session with this cache and these reads of the socket still to come goes on to the end of its stream
   * without an exception: every length can be read, no size overflows, and the cache never has to hold more than its
   * limit.
   */
  predicate Smooth(cached: string, input: seq<string>)
    decreases |input|, |cached|
  {
    match FirstRequest(cached)
    case Whole(size) => Smooth(cached[size..], input)
    case Malformed => false
    case Overflows => false
    case Partial =>
      input == [] ||
      (input[0] != "" && |cached + input[0]| <= MAX_HTTP_SIZE && Smooth(cached + input[0], input[1..]))
  }

  /**
   * The reads of the socket carry written requests: no read is empty, and a request together with any read is small
   * enough for the cache.
   */
  ghost predicate Carries(input: seq<string>, ms: seq<string>) {
    && (forall i :: 0 <= i < |ms| ==> IsRequest(ms[i])) && Join(input) == Join(ms)
    && (forall k :: 0 <= k < |input| ==> input[k] != "")
    && (forall i, k :: 0 <= i < |ms| && 0 <= k < |input| ==> |input[k]| <= MAX_HTTP_SIZE + 1 - |ms[i]|)
  }

  /** Nothing goes wrong then, wherever the requests are cut. */
  lemma {:induction false} CarriedSmoothly(cached: string, input: seq<string>, ms: seq<string>)
    requires (forall i :: 0 <= i < |ms| ==> IsRequest(ms[i])) && cached + Join(input) == Join(ms)
    requires forall k :: 0 <= k < |input| ==> input[k] != ""
    requires forall i, k :: 0 <= i < |ms| && 0 <= k < |input| ==> |input[k]| <= MAX_HTTP_SIZE + 1 - |ms[i]|
    ensures Smooth(cached, input)
    decreases |input|, |cached|
  {
    hide FirstRequest, IsRequest, Join, Requests;
    if ms == [] {
      NothingCarried(cached, input);
    } else {
      FrontOfAll(ms);
      var s, rest := ms[0], Join(ms[1..]);
      RequestAtFront(s, "");
      if |cached| >= |s| {
        assert cached == s + cached[|s|..] by { assert (cached + Join(input))[..|s|] == cached[..|s|]; }
        RequestAtFront(s, cached[|s|..]);
        assert cached[|s|..] + Join(input) == rest by {
          assert (cached + Join(input))[|s|..] == cached[|s|..] + Join(input);
        }
        CarriedSmoothly(cached[|s|..], input, ms[1..]);
      } else {
        assert s[..|cached|] == cached by { assert (cached + Join(input))[..|cached|] == cached; }
        JoinNone();
        assert |cached| + |Join(input)| == |s| + |rest|;
        FrontOfAll(input);
        assert cached + (input[0] + Join(input[1..])) == cached + input[0] + Join(input[1..]);
        CarriedSmoothly(cached + input[0], input[1..], ms);
      }
    }
  }

  lemma {:induction false} NothingCarried(cached: string, input: seq<string>)
    requires cached + Join(input) == Join([]) && forall k :: 0 <= k < |input| ==> input[k] != ""
    ensures cached == "" && input == [] && FirstRequest(cached).Partial?
  {
    hide Join;
    JoinNone();
    if input != [] { FrontOfAll(input); }
    NothingPartial();
  }

  /**
   * What `read` gives: a request, the end of the stream, or an exception; or, when a size overflows, a request made
   * of bytes that are not there, about which nothing can be said.
   */
  datatype Outcome = Request(bytes: string) | Nothing | Thrown | Undefined

  class SocketSession {
    var cache: Option<string>       // the session attribute of the filter
    var input: seq<string>          // what the socket will still deliver, read by read
    ghost var received: string      // all bytes read from the socket
    ghost var returned: seq<string> // the requests returned so far

    function Cached(): string
      reads this
    {
      if cache.Some? then cache.value else ""
    }

    /** Requests returned, then the cache, are the bytes received; and they are its first requests. */
    ghost predicate Valid()
      reads this
    {
      Join(returned) + Cached() == received && Requests(received) == returned + Requests(Cached())
    }

    constructor (input: seq<string>)
      ensures Valid() && this.input == input && received == "" && returned == []
    {
      cache, this.input, received, returned := None, input, "", [];
    }

    /** `messageReceived`: the bytes join the cache, and a whole request is cut from its front. */
    method MessageReceived(message: Option<string>) returns (r: Outcome)
      requires Valid()
      modifies this`cache, this`received, this`returned
      ensures Valid()
      ensures var arrived := old(Cached()) + if message.Some? then message.value else "";
              if message.Some? && |arrived| > MAX_HTTP_SIZE then r.Thrown? && received == old(received)
              else
                && received == old(received) + (if message.Some? then message.value else "")
                && match FirstRequest(arrived) {
                     case Whole(size) => r == Request(arrived[..size]) && Cached() == arrived[size..]
                     case Partial => r.Nothing? && Cached() == arrived
                     case Malformed => r.Thrown?
                     case Overflows => r.Undefined?
                   }
      ensures returned == old(returned) + if r.Request? then [r.bytes] else []
      ensures r.Request? ==> r.bytes != ""
    {
      hide FirstRequest, Requests, Join;
      var cached := Cached();
      ghost var all, gone := received, returned;
      NothingPartial();
      assert gone + [] == gone && all + "" == all && cached + "" == cached;
      if message.None? && cached == "" { return Nothing; }
      if message.Some? {
        if |cached| + |message.value| > MAX_HTTP_SIZE { return Thrown; }
        Arrived(all, gone, cached, message.value);
        cached := cached + message.value;
        received := received + message.value;
      }
      cache := Some(cached);
      var first := FirstRequest(cached);
      if first.Malformed? { return Thrown; }
      if first.Overflows? { return Undefined; }
      if first.Partial? { return Nothing; }
      var request := cached[..first.size];
      Cut(gone, cached, first.size);
      cache := Some(cached[first.size..]);
      returned := returned + [request];
      return Request(request);
    }

    /**
     * `read`: a request that is whole in the cache already, else as many reads of the socket as it takes. At the
     * end of the stream there is no whole request left.
     */
    method Read() returns (r: Outcome)
      requires Valid()
      modifies this
      ensures Valid() && |input| <= |old(input)| && input == old(input)[|old(input)| - |input|..]
      ensures !r.Thrown? && !r.Undefined? ==> received + Join(input) == old(received) + old(Join(input))
      ensures returned == old(returned) + if r.Request? then [r.bytes] else []
      ensures r.Request? ==> r.bytes != ""
      ensures r.Nothing? ==> input == [] && FirstRequest(Cached()).Partial?
      ensures old(Smooth(Cached(), input)) <==> r.Nothing? || (r.Request? && Smooth(Cached(), input))
    {
      hide FirstRequest, Requests, Join, Valid;
      assert Cached() + "" == Cached();
      r := MessageReceived(None);
      while r.Nothing?
        invariant r.Request? ==> r.bytes != ""
        invariant old(Smooth(Cached(), input)) <==> !r.Thrown? && !r.Undefined? && Smooth(Cached(), input)
        invariant Valid() && |input| <= |old(input)| && input == old(input)[|old(input)| - |input|..]
        invariant !r.Thrown? && !r.Undefined? ==> received + Join(input) == old(received) + old(Join(input))
        invariant returned == old(returned) + if r.Request? then [r.bytes] else []
        invariant r.Nothing? ==> FirstRequest(Cached()).Partial?
        decreases |input|, r.Nothing?
      {
        if input == [] { return; }
        r := Pull();
      }
    }

    /** One read of the socket; one that gives neither bytes nor the end of the stream throws. */
    method Pull() returns (r: Outcome)
      requires Valid() && input != [] && FirstRequest(Cached()).Partial?
      modifies this
      ensures Valid() && input == old(input)[1..]
      ensures !r.Thrown? && !r.Undefined? ==> received + Join(input) == old(received) + old(Join(input))
      ensures returned == old(returned) + if r.Request? then [r.bytes] else []
      ensures r.Request? ==> r.bytes != ""
      ensures r.Nothing? ==> FirstRequest(Cached()).Partial?
      ensures old(Smooth(Cached(), input)) <==> !r.Thrown? && !r.Undefined? && Smooth(Cached(), input)
    {
      hide FirstRequest, Requests, Join;
      var bytes := input[0];
      assert input == [bytes] + input[1..];
      input := input[1..];
      if bytes == "" { return Thrown; }
      FirstRead(received, bytes, input);
      r := MessageReceived(Some(bytes));
    }
  }

  /**
   * All requests of a connection. When the stream ends without an exception, the requests returned by successive
   * reads are those the byte stream consists of, whatever the socket made of it, and the cache is what is left.
   */
  method ReadAll(s: SocketSession) returns (requests: seq<string>, failed: bool)
    requires s.Valid() && s.returned == [] && s.received == "" && s.Cached() == ""
    modifies s
    ensures s.Valid() && s.returned == requests
    ensures !failed <==> old(Smooth("", s.input))
    ensures !failed ==> requests == Requests(old(Join(s.input))) && s.Cached() == Rest(old(Join(s.input)))
    ensures Join(requests) + s.Cached() == s.received
    ensures forall ms :: old(Carries(s.input, ms)) ==> !failed && requests == ms && s.Cached() == ""
  {
    hide FirstRequest, Requests, Join, Rest, Smooth, Carries;
    ghost var stream := s.input;
    requests, failed := [], false;
    ghost var total := s.received + Join(s.input);
    var r := s.Read();
    while r.Request?
      invariant s.Valid() && s.returned == requests + if r.Request? then [r.bytes] else []
      invariant !r.Thrown? && !r.Undefined? ==> s.received + Join(s.input) == total
      invariant old(Smooth("", s.input)) <==> r.Nothing? || (r.Request? && Smooth(s.Cached(), s.input))
      invariant r.Nothing? ==> s.input == [] && FirstRequest(s.Cached()).Partial?
      invariant r.Request? ==> r.bytes != ""
      decreases |total| - |Join(s.returned)|, r.Request?
    {
      requests := requests + [r.bytes];
      r := s.Read();
      if r.Request? { JoinGrows(requests, r.bytes); }
      assert requests + [] == requests;
    }
    forall ms | Carries(stream, ms)
      ensures Smooth("", stream) && Requests(Join(stream)) == ms && Rest(Join(stream)) == ""
    {
      AllCarried(stream, ms);
    }
    failed := !r.Nothing?;
    assert requests + [] == requests;
    assert "" + Join(old(s.input)) == Join(old(s.input));
    if !failed {
      Ended(s.received, requests, s.Cached());
      EmptyInput(s.received);
    }
  }

  /** What is carried is read. */
  lemma {:induction false} AllCarried(input: seq<string>, ms: seq<string>)
    requires Carries(input, ms)
    ensures Smooth("", input) && Requests(Join(input)) == ms && Rest(Join(input)) == ""
  {
    hide FirstRequest, Requests, Join, Rest, Smooth, IsRequest;
    assert "" + Join(input) == Join(input) && Join(ms) + "" == Join(ms);
    CarriedSmoothly("", input, ms);
    NothingPartial();
    WrittenRequests(ms, "");
  }

  lemma {:induction false} Ended(all: string, gone: seq<string>, cached: string)
    requires Join(gone) + cached == all && Requests(all) == gone + Requests(cached) && FirstRequest(cached).Partial?
    ensures Requests(all) == gone && Rest(all) == cached
  {
    hide FirstRequest, Join;
    SameRest(all, gone, cached);
    assert gone + [] == gone;
  }

  lemma {:induction false} JoinGrows(a: seq<string>, b: string)
    ensures |Join(a + [b])| == |Join(a)| + |b|
  {
    JoinAppend(a, [b]);
    JoinOne(b);
  }

  lemma {:induction false} EmptyInput(s: string)
    ensures s + Join([]) == s
  {
  }
}
