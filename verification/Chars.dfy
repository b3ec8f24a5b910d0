/** Character classes of the HTTP/1 parser in strict mode. A `char` stands for one byte of the stream. */
module Chars {

  datatype Option<+T> = None | Some(value: T)

  const NUL := '\0'
  const TAB := '\t'
  const LF := '\n'
  const CR := '\r'
  const CRLF: string := [CR, LF]

  const ULLONG_MAX: nat := 0xFFFF_FFFF_FFFF_FFFF
  const UINT64_RANGE: nat := 0x1_0000_0000_0000_0000
  const UINT32_RANGE: nat := 0x1_0000_0000

  /** `c | 0x20` on one byte. */
  function Lower(c: char): (r: char)
    ensures 'A' <= c <= 'Z' ==> 'a' <= r <= 'z'
    ensures 'a' <= r <= 'z' ==> 'A' <= c <= 'Z' || r == c
  {
    if c as int < 256 && (c as int / 32) % 2 == 0 then (c as int + 32) as char else c
  }

  predicate IsAlpha(c: char) { 'a' <= Lower(c) <= 'z' }

  predicate IsNum(c: char) { '0' <= c <= '9' }

  predicate IsAlphaNum(c: char) { IsAlpha(c) || IsNum(c) }

  predicate IsMark(c: char) {
    c == '-' || c == '_' || c == '.' || c == '!' || c == '~' || c == '*' || c == '\'' || c == '(' || c == ')'
  }

  predicate IsUserInfoChar(c: char) {
    IsAlphaNum(c) || IsMark(c) || c == '%' || c == ';' || c == ':' || c == '&' || c == '=' || c == '+' ||
    c == '$' || c == ','
  }

  predicate IsHostChar(c: char) { IsAlphaNum(c) || c == '.' || c == '-' }

  /** The bits of `normal_url_char`: every visible ASCII character but '#' and '?'. */
  predicate IsUrlChar(c: char) { 33 <= c as int <= 126 && c != '#' && c != '?' }

  /** The non-zero entries of the `tokens` table. */
  predicate IsToken(c: char) {
    IsAlphaNum(c) || c == '!' || c == '#' || c == '$' || c == '%' || c == '&' || c == '\'' || c == '*' ||
    c == '+' || c == '-' || c == '.' || c == '^' || c == '_' || c == '`' || c == '|' || c == '~'
  }

  /** The entry of the `tokens` table: a letter in lower case, any other token character as it is, 0 otherwise. */
  function Token(c: char): char {
    if IsAlpha(c) then Lower(c) else if IsToken(c) then c else NUL
  }

  predicate IsHeaderChar(c: char) {
    c == CR || c == LF || c == TAB || (c as int > 31 && c as int != 127)
  }

  /** The `unhex` table. Only its first 128 entries are given a value: the others are 0, not -1. */
  function UnHex(c: char): (r: int)
    ensures -1 <= r < 16
  {
    if IsNum(c) then c as int - '0' as int
    else if 'a' <= c <= 'f' then c as int - 'a' as int + 10
    else if 'A' <= c <= 'F' then c as int - 'A' as int + 10
    else if c as int >= 128 then 0
    else -1
  }

  function Digit(c: char): (d: nat)
    requires IsNum(c)
    ensures d < 10
  {
    c as int - '0' as int
  }

  /** Reading a C string literal: the characters, then the terminating NUL. */
  function At(s: string, i: nat): char {
    if i < |s| then s[i] else NUL
  }

  function ToLower(s: string): (r: string)
    ensures |r| == |s|
    ensures forall i :: 0 <= i < |s| ==> r[i] == LowerCase(s[i])
  {
    seq(|s|, i requires 0 <= i < |s| => LowerCase(s[i]))
  }

  /** One entry of the codec's lower-case table: only 'A'..'Z' change. */
  function LowerCase(c: char): char {
    if 'A' <= c <= 'Z' then Lower(c) else c
  }

  // ---------------------------------------------------------------- the tables in their own words

  /** A token character is a visible one that delimits nothing (section 3.2.6 of RFC 7230). */
  lemma {:induction false} TokenCharacters(c: char)
    ensures IsToken(c) <==> '!' <= c <= '~' && c !in "\"(),/:;<=>?@[\\]{}"
  {
  }

  /** The visible characters that cannot stand in user information. */
  lemma {:induction false} UserInfoCharacters(c: char)
    ensures IsUserInfoChar(c) <==> '!' <= c <= '~' && c !in "\"#/<>?@[\\]^`{|}"
  {
  }

  /** The characters of a host name. */
  lemma {:induction false} HostCharacters(c: char)
    ensures IsHostChar(c) <==> 'A' <= c <= 'Z' || 'a' <= c <= 'z' || '0' <= c <= '9' || c in ".-"
  {
  }

  /** The characters of a path: visible ones, but for the marks of query and fragment. */
  lemma {:induction false} UrlCharacters(c: char)
    ensures IsUrlChar(c) <==>
            'A' <= c <= 'Z' || 'a' <= c <= 'z' || '0' <= c <= '9' || c in "!\"$%&'()*+,-./:;<=>@[\\]^_`{|}~"
  {
  }

  const CAPITALS: string := "ABCDEFGHIJKLMNOPQRSTUVWXYZ"
  const LETTERS: string := "abcdefghijklmnopqrstuvwxyz"

  /** Capital letters have their small ones, and nothing else changes. */
  lemma {:induction false} SmallLetters(c: char)
    ensures forall k: nat :: k < 26 && c == CAPITALS[k] ==> LowerCase(c) == LETTERS[k]
    ensures c !in CAPITALS ==> LowerCase(c) == c
  {
  }

  /** Digits of base 16, in either letter case; any other ASCII character is none. */
  lemma {:induction false} HexCharacters(c: char)
    ensures forall k: nat :: k < 16 && (c == "0123456789abcdef"[k] || c == "0123456789ABCDEF"[k]) ==> UnHex(c) == k
    ensures UnHex(c) == -1 <==> c as int < 128 && c !in "0123456789abcdefABCDEF"
  {
  }

  // ---------------------------------------------------------------- pieces of a string

  /** All pieces, one behind the other. */
  function Join(parts: seq<string>): string {
    if parts == [] then "" else Join(parts[..|parts| - 1]) + parts[|parts| - 1]
  }

  lemma {:induction false} JoinSnoc(parts: seq<string>, i: nat)
    requires i < |parts|
    ensures Join(parts[..i + 1]) == Join(parts[..i]) + parts[i]
  {
    assert parts[..i + 1][..i] == parts[..i];
  }

  lemma {:induction false} JoinBound(parts: seq<string>, i: nat)
    requires i <= |parts|
    ensures |Join(parts[..i])| <= |Join(parts)|
    decreases |parts| - i
  {
    if i == |parts| {
      assert parts[..i] == parts;
    } else {
      JoinSnoc(parts, i);
      JoinBound(parts, i + 1);
    }
  }

  lemma {:induction false} JoinOne(s: string)
    ensures Join([s]) == s
  {
    assert [s][..0] == [];
  }

  lemma {:induction false} JoinAppend(a: seq<string>, b: seq<string>)
    ensures Join(a + b) == Join(a) + Join(b)
    decreases |b|
  {
    if b == [] {
      assert a + b == a;
    } else {
      var n := |b| - 1;
      assert (a + b)[..|a| + n] == a + b[..n];
      JoinAppend(a, b[..n]);
    }
  }
}
