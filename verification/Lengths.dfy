/** Length arithmetic: decimal and hexadecimal numbers as the parser reads them and as the codec writes them. */
module Lengths {
  import opened Chars
  import opened HttpParser

  predicate AllDigits(s: string) { forall i :: 0 <= i < |s| ==> IsNum(s[i]) }

  predicate AllHex(s: string) { forall i :: 0 <= i < |s| ==> UnHex(s[i]) >= 0 }

  /** The number the decimal digits `s` stand for. */
  function DecimalValue(s: string): nat
    requires AllDigits(s)
  {
    if s == "" then 0 else DecimalValue(s[..|s| - 1]) * 10 + Digit(s[|s| - 1])
  }

  function HexValue(s: string): nat
    requires AllHex(s)
  {
    if s == "" then 0 else HexValue(s[..|s| - 1]) * 16 + UnHex(s[|s| - 1])
  }

  /** What the `Content-Length` states make of the digits `s`: a length, or None for an error. */
  function ReadDecimal(s: string): Option<nat>
    requires s != "" && AllDigits(s)
  {
    var n := |s| - 1;
    if n == 0 then Some(Digit(s[0]))
    else var v := ReadDecimal(s[..n]); if v.None? then None else AppendDigit(v.value, Digit(s[n]))
  }

  /** What the chunk size states make of the digits `s`. */
  function ReadHex(s: string): Option<nat>
    requires s != "" && AllHex(s)
  {
    var n := |s| - 1;
    if n == 0 then Some(UnHex(s[0]) as nat)
    else var v := ReadHex(s[..n]); if v.None? then None else AppendHexDigit(v.value, UnHex(s[n]))
  }

  const DECIMAL_LIMIT: nat := (ULLONG_MAX - 10) / 10
  const HEX_LIMIT: nat := (ULLONG_MAX - 16) / 16

  /**
   * The decimal accumulator returns the exact value, and does so exactly when the value without its last digit
   * is within the guard: it never wraps and never yields the sentinel.
   */
  lemma {:induction false} ReadDecimalExact(s: string)
    requires s != "" && AllDigits(s)
    ensures ReadDecimal(s).Some? <==> |s| == 1 || DecimalValue(s[..|s| - 1]) <= DECIMAL_LIMIT
    ensures ReadDecimal(s).Some? ==> ReadDecimal(s).value == DecimalValue(s) < ULLONG_MAX
    decreases |s|
  {
    var n := |s| - 1;
    if n == 0 {
      assert s[..0] == "";
    } else {
      ReadDecimalExact(s[..n]);
      if n > 1 { assert DecimalValue(s[..n]) >= DecimalValue(s[..n][..n - 1]); }
    }
  }

  lemma {:induction false} ReadHexExact(s: string)
    requires s != "" && AllHex(s)
    ensures ReadHex(s).Some? <==> |s| == 1 || HexValue(s[..|s| - 1]) <= HEX_LIMIT
    ensures ReadHex(s).Some? ==> ReadHex(s).value == HexValue(s) < ULLONG_MAX
    decreases |s|
  {
    var n := |s| - 1;
    if n == 0 {
      assert s[..0] == "";
    } else {
      ReadHexExact(s[..n]);
      if n > 1 { assert HexValue(s[..n]) >= HexValue(s[..n][..n - 1]); }
    }
  }

  // ---------------------------------------------------------------- printing

  function DigitChar(d: nat): (c: char)
    requires d < 10
    ensures IsNum(c) && Digit(c) == d
  {
    (d + '0' as int) as char
  }

  function HexChar(d: nat): (c: char)
    requires d < 16
    ensures UnHex(c) == d
  {
    if d < 10 then DigitChar(d) else (d - 10 + 'a' as int) as char
  }

  lemma {:induction false} DecimalSnoc(s: string, c: char)
    requires AllDigits(s) && IsNum(c)
    ensures AllDigits(s + [c]) && DecimalValue(s + [c]) == DecimalValue(s) * 10 + Digit(c)
  {
    assert (s + [c])[..|s|] == s;
  }

  lemma {:induction false} HexSnoc(s: string, c: char)
    requires AllHex(s) && UnHex(c) >= 0
    ensures AllHex(s + [c]) && HexValue(s + [c]) == HexValue(s) * 16 + UnHex(c)
  {
    assert (s + [c])[..|s|] == s;
  }

  /** The decimal digits of `n`. */
  function Decimal(n: nat): (s: string)
    ensures s != "" && AllDigits(s) && DecimalValue(s) == n
  {
    hide AllDigits, DecimalValue;
    var rest := if n < 10 then "" else Decimal(n / 10);
    assert AllDigits("") && DecimalValue("") == 0 by { NoDigits(); }
    DecimalSnoc(rest, DigitChar(n % 10));
    rest + [DigitChar(n % 10)]
  }

  lemma {:induction false} NoDigits()
    ensures AllDigits("") && DecimalValue("") == 0 && AllHex("") && HexValue("") == 0
  {
  }

  /** The format `%x` of `n`. */
  function Hex(n: nat): (s: string)
    ensures s != "" && AllHex(s) && HexValue(s) == n
  {
    hide AllHex, HexValue;
    var rest := if n < 16 then "" else Hex(n / 16);
    assert AllHex("") && HexValue("") == 0 by { NoDigits(); }
    HexSnoc(rest, HexChar(n % 16));
    rest + [HexChar(n % 16)]
  }

  function Pow16(k: nat): nat { if k == 0 then 1 else 16 * Pow16(k - 1) }

  /** Hexadecimal numbers are written as `%x` does: in lower case, and with no zero in front. */
  lemma {:induction false} HexWritten(n: nat)
    ensures forall i :: 0 <= i < |Hex(n)| ==> Hex(n)[i] in "0123456789abcdef"
    ensures Hex(n)[0] == '0' <==> n == 0
    ensures n == 0 ==> Hex(n) == "0"
  {
    hide AllHex, HexValue;
    LowerHex(n % 16);
    if n >= 16 {
      HexWritten(n / 16);
    } else {
      assert Hex(n) == "" + [HexChar(n)];
    }
  }

  lemma {:induction false} LowerHex(d: nat)
    requires d < 16
    ensures HexChar(d) == "0123456789abcdef"[d] && HexChar(d) in "0123456789abcdef"
    ensures HexChar(d) == '0' <==> d == 0
  {
  }

  /** A number below 16^k has at most k hexadecimal digits. */
  lemma {:induction false} HexLength(n: nat, k: nat)
    requires k > 0 && n < Pow16(k)
    ensures |Hex(n)| <= k
    decreases k
  {
    assert Pow16(0) == 1;
    if n >= 16 { HexLength(n / 16, k - 1); }
  }

  lemma {:induction false} EightHexDigits(n: nat)
    requires n < UINT32_RANGE
    ensures |Hex(n)| <= 8
  {
    assert Pow16(4) == 65536;
    assert Pow16(8) == UINT32_RANGE;
    HexLength(n, 8);
  }

  function Pow10(k: nat): (p: nat)
    ensures p > 0
  {
    if k == 0 then 1 else 10 * Pow10(k - 1)
  }

  /** `k` digits are enough exactly for the numbers below 10^k. */
  lemma {:induction false} DecimalLength(n: nat, k: nat)
    requires k > 0
    ensures |Decimal(n)| <= k <==> n < Pow10(k)
    decreases k
  {
    if k == 1 {
      assert Pow10(1) == 10 * Pow10(0) == 10;
    } else {
      DecimalLength(n / 10, k - 1);
      assert Pow10(k) == 10 * Pow10(k - 1);
      if n < 10 { PowGrows(k); }
    }
  }

  lemma {:induction false} PowGrows(k: nat)
    requires k > 0
    ensures Pow10(k) >= 10
  {
  }

  lemma {:induction false} Pow20()
    ensures Pow10(20) == 100_000_000_000_000_000_000
  {
    assert Pow10(5) == 100_000 by { assert Pow10(1) == 10; assert Pow10(3) == 1000; }
    assert Pow10(10) == 10_000_000_000 by { assert Pow10(7) == 10_000_000; assert Pow10(9) == 1_000_000_000; }
    assert Pow10(15) == 1_000_000_000_000_000 by {
      assert Pow10(12) == 1_000_000_000_000;
      assert Pow10(14) == 100_000_000_000_000;
    }
    assert Pow10(18) == 1_000_000_000_000_000_000 by { assert Pow10(17) == 100_000_000_000_000_000; }
  }

  /** The parser reads a printed decimal back exactly within the guard of its accumulator. */
  lemma {:induction false} DecimalRoundTrip(n: nat)
    ensures ReadDecimal(Decimal(n)) == if n / 10 <= DECIMAL_LIMIT then Some(n) else None
  {
    var s := Decimal(n);
    ReadDecimalExact(s);
    if n >= 10 { assert s[..|s| - 1] == Decimal(n / 10); }
  }

  lemma {:induction false} HexRoundTrip(n: nat)
    ensures ReadHex(Hex(n)) == if n / 16 <= HEX_LIMIT then Some(n) else None
  {
    var s := Hex(n);
    ReadHexExact(s);
    if n >= 16 { assert s[..|s| - 1] == Hex(n / 16); }
  }

  // ---------------------------------------------------------------- itoa

  function Reversed(s: string): (r: string)
    ensures |r| == |s| && forall i :: 0 <= i < |s| ==> r[i] == s[|s| - 1 - i]
  {
    seq(|s|, i requires 0 <= i < |s| => s[|s| - 1 - i])
  }

  /** The digits of `n` from its last one on: the first, and what follows. */
  lemma {:induction false} ReversedDecimal(n: nat)
    ensures var r := Reversed(Decimal(n));
            r[0] == DigitChar(n % 10) && (n >= 10 ==> r[1..] == Reversed(Decimal(n / 10))) && (n < 10 ==> |r| == 1)
  {
    if n >= 10 { assert Decimal(n) == Decimal(n / 10) + [DigitChar(n % 10)]; }
  }

  /**
   * `StringUtil::itoa`: the digits of `n`, least significant first, then reversed in place, then a NUL.
   * A buffer below 21 bytes is refused, and 21 bytes are always enough for 64 bits.
   */
  method Itoa(out: array<char>, n: nat) returns (length: nat, refused: bool)
    requires n <= ULLONG_MAX
    modifies out
    ensures refused <==> out.Length < 21
    ensures refused ==> out[..] == old(out[..])
    ensures !refused ==> length <= 20 && out[..length] == Decimal(n) && out[length] == NUL
    ensures !refused ==> out[length + 1..] == old(out[length + 1..])
  {
    hide Decimal, DigitChar, DecimalValue, AllDigits, Pow10;
    if out.Length < 21 { return 0, true; }
    refused := false;
    Pow20();
    DecimalLength(n, 20);
    ghost var digits := Reversed(Decimal(n));
    length := 0;
    var rest := n;
    var more := true;
    while more
      invariant length <= |digits| <= 20
      invariant forall k :: 0 <= k < length ==> out[k] == digits[k]
      invariant forall k :: length <= k < out.Length ==> out[k] == old(out[k])
      invariant more ==> length < |digits| && digits[length..] == Reversed(Decimal(rest))
      invariant !more ==> length == |digits|
      decreases more, rest
    {
      ReversedDecimal(rest);
      assert digits[length] == digits[length..][0];
      assert digits[length + 1..] == digits[length..][1..];
      out[length] := DigitChar(rest % 10);
      length := length + 1;
      more := rest / 10 > 0;
      rest := rest / 10;
    }
    ReverseInPlace(out, length, digits);
    out[length] := NUL;
    assert Reversed(digits) == Decimal(n);
    assert out[..length] == Decimal(n);
  }

  /** The swap loop of `itoa`. */
  method ReverseInPlace(out: array<char>, length: nat, ghost digits: string)
    requires 0 < length == |digits| <= out.Length && forall k :: 0 <= k < length ==> out[k] == digits[k]
    modifies out
    ensures forall k :: 0 <= k < length ==> out[k] == Reversed(digits)[k]
    ensures forall k :: length <= k < out.Length ==> out[k] == old(out[k])
  {
    var i, j := 0, length - 1;
    while i < j
      invariant 0 <= i <= length && j == length - 1 - i && i <= j + 1
      invariant forall k :: 0 <= k < i || j < k < length ==> out[k] == digits[length - 1 - k]
      invariant forall k :: i <= k <= j ==> out[k] == digits[k]
      invariant forall k :: length <= k < out.Length ==> out[k] == old(out[k])
    {
      out[i], out[j] := out[j], out[i];
      i, j := i + 1, j - 1;
    }
  }
}
