/**
 * `EIoBuffer`: position, limit and capacity over a backing array that grows by doubling. The array and its two
 * indices stand for `EIOByteBuffer`, which behaves like a `java.nio` byte buffer.
 */
module IoBuffer {
  import opened Chars

  const INT_MAX: int := 0x7fff_ffff
  const MAX_SIZE: nat := 0x4000_0000

  // ---------------------------------------------------------------- powers of two

  predicate IsPowerOfTwo(n: nat) { n == 1 || (n > 1 && n % 2 == 0 && IsPowerOfTwo(n / 2)) }

  /** `EInteger::highestOneBit` on a value that is not negative: the largest power of two not above it. */
  function HighestOneBit(n: nat): (r: nat)
    ensures n == 0 ==> r == 0
    ensures n > 0 ==> IsPowerOfTwo(r) && r <= n < 2 * r
  {
    if n <= 1 then n else 2 * HighestOneBit(n / 2)
  }

  /** `x << 1` of a 32-bit integer. */
  function ShiftLeft(x: int): int
    requires 0 <= x <= INT_MAX
  {
    if 2 * x > INT_MAX then 2 * x - 0x1_0000_0000 else 2 * x
  }

  function NormalizeCapacity(requested: int): int
    requires requested <= INT_MAX
  {
    if requested < 0 then INT_MAX
    else
      var high := HighestOneBit(requested);
      var n := if high < requested then ShiftLeft(high) else high;
      if n < 0 then INT_MAX else n
  }

  lemma {:induction false} PowersApart(p: nat, q: nat)
    requires IsPowerOfTwo(p) && IsPowerOfTwo(q) && p < q
    ensures 2 * p <= q
  {
    if p > 1 { PowersApart(p / 2, q / 2); }
  }

  lemma {:induction false} BigPower()
    ensures IsPowerOfTwo(MAX_SIZE)
  {
    PowerUp(1, 30);
    assert Doubled(1, 30) == MAX_SIZE by { Doublings(); }
  }

  function Doubled(p: nat, k: nat): nat { if k == 0 then p else 2 * Doubled(p, k - 1) }

  lemma {:induction false} PowerUp(p: nat, k: nat)
    requires IsPowerOfTwo(p)
    ensures IsPowerOfTwo(Doubled(p, k))
  {
    if k > 0 { PowerUp(p, k - 1); }
  }

  lemma {:induction false} Doublings()
    ensures Doubled(1, 30) == MAX_SIZE
  {
    assert Doubled(1, 10) == 1024;
    assert Doubled(1, 20) == 1048576;
  }

  /** `normalizeCapacity` is the least power of two not below the request, for requests up to 2^30. */
  lemma {:induction false} NormalizeLeast(requested: nat, p: nat)
    requires 0 < requested <= MAX_SIZE
    ensures IsPowerOfTwo(NormalizeCapacity(requested)) && requested <= NormalizeCapacity(requested) <= MAX_SIZE
    ensures IsPowerOfTwo(p) && p >= requested ==> NormalizeCapacity(requested) <= p
  {
    var high := HighestOneBit(requested);
    BigPower();
    if high < requested {
      PowersApart(high, MAX_SIZE);
      if IsPowerOfTwo(p) && p >= requested { PowersApart(high, p); }
    }
  }

  // ---------------------------------------------------------------- the buffer

  /** The bytes of `src` are copied into `a` from index `at` on. */
  method CopyIn(a: array<char>, at: nat, src: string)
    requires at + |src| <= a.Length
    modifies a
    ensures a[..at + |src|] == old(a[..at]) + src
  {
    var i := 0;
    while i < |src|
      invariant 0 <= i <= |src| && a[..at + i] == old(a[..at]) + src[..i]
    {
      a[at + i] := src[i];
      assert a[..at + i + 1] == a[..at + i] + [src[i]];
      i := i + 1;
    }
    assert src[..i] == src;
  }

  class EIoBuffer {
    var buf: array<char>
    var pos: nat
    var lim: nat
    var mark: Option<nat>
    var autoExpand: bool
    var recapacityAllowed: bool
    var minimumCapacity: nat
    ghost var initial: nat      // the capacity at first
    ghost var copied: nat       // the bytes copied so far when the capacity changed

    ghost predicate Valid()
      reads this
    {
      pos <= lim <= buf.Length && (mark.Some? ==> mark.value <= pos)
    }

    /** Growing has copied no more than the first and the present capacity together. */
    ghost predicate Amortized()
      reads this
    {
      copied == 0 || (copied <= initial + buf.Length && IsPowerOfTwo(buf.Length))
    }

    /** The bytes between position and limit, those a reader gets. */
    function Remaining(): string
      reads this, buf
      requires Valid()
    {
      buf[pos..lim]
    }

    /** The bytes before the position, those put so far. */
    ghost function Written(): string
      reads this, buf
      requires Valid()
    {
      buf[..pos]
    }

    constructor Allocate(capacity: nat)
      ensures Valid() && Amortized() && fresh(buf) && buf.Length == capacity && pos == 0 && lim == capacity
      ensures mark.None? && !autoExpand && recapacityAllowed && minimumCapacity == capacity && initial == capacity
    {
      buf := new char[capacity](_ => NUL);
      pos, lim, mark, autoExpand, recapacityAllowed, minimumCapacity := 0, capacity, None, false, true, capacity;
      initial, copied := capacity, 0;
    }

    method SetAutoExpand(on: bool)
      requires recapacityAllowed
      modifies this`autoExpand
      ensures autoExpand == on
    {
      autoExpand := on;
    }

    /** A new array of the given size, starting with the first `n` bytes of the old one. */
    method Reallocated(size: nat, n: nat) returns (a: array<char>)
      requires n <= buf.Length && n <= size
      ensures fresh(a) && a.Length == size && a[..n] == buf[..n]
    {
      a := new char[size](_ => NUL);
      var i := 0;
      while i < n
        invariant 0 <= i <= n && a[..i] == buf[..i]
      {
        a[i] := buf[i];
        i := i + 1;
      }
    }

    /** `capacity(newCapacity)`: growing keeps every byte, the position, the limit and the mark. */
    method Capacity(newCapacity: nat)
      requires Valid() && recapacityAllowed
      modifies this`buf, this`copied
      ensures Valid() && (buf == old(buf) || fresh(buf))
      ensures buf.Length == if newCapacity > old(buf.Length) then newCapacity else old(buf.Length)
      ensures buf[..old(buf.Length)] == old(buf[..])
      ensures copied == old(copied) + if newCapacity > old(buf.Length) then old(buf.Length) else 0
    {
      if newCapacity > buf.Length {
        var a := Reallocated(newCapacity, buf.Length);
        copied := copied + buf.Length;
        buf := a;
      }
    }

    /** `expand(pos, expectedRemaining, autoExpand)`: the limit reaches `at + count`, growing if it must. */
    method Expand(at: nat, count: nat, auto: bool)
      requires Valid() && recapacityAllowed && at + count <= MAX_SIZE
      modifies this`buf, this`copied, this`lim
      ensures Valid() && (buf == old(buf) || fresh(buf)) && buf.Length >= old(buf.Length)
      ensures lim == if at + count > old(lim) then at + count else old(lim)
      ensures buf[..old(buf.Length)] == old(buf[..])
      ensures auto && old(Amortized()) ==> Amortized()
    {
      var end := at + count;
      var newCapacity := if auto then NormalizeCapacity(end) else end;
      if end > 0 { NormalizeLeast(end, 1); }
      ghost var length := buf.Length;
      Capacity(newCapacity);
      if auto && newCapacity > length && old(Amortized()) && old(copied) > 0 { PowersApart(length, newCapacity); }
      if end > lim { lim := end; }
    }

    /** `autoExpand(expectedRemaining)`. */
    method AutoExpand(count: nat)
      requires Valid() && pos + count <= MAX_SIZE
      modifies this`buf, this`copied, this`lim
      ensures Valid() && (buf == old(buf) || fresh(buf)) && buf.Length >= old(buf.Length)
      ensures buf[..old(buf.Length)] == old(buf[..])
      ensures autoExpand && recapacityAllowed ==> pos + count <= lim
      ensures !(autoExpand && recapacityAllowed) ==> buf == old(buf) && lim == old(lim)
      ensures old(Amortized()) ==> Amortized()
    {
      if autoExpand && recapacityAllowed { Expand(pos, count, true); }
    }

    /**
     * `put(src, length)`. With auto-expansion it always succeeds, and the bytes put so far are followed by the new
     * ones whatever the buffer had to do to make room; without, it needs room, or the `java.nio` buffer throws.
     */
    method Put(src: string) returns (done: bool)
      requires Valid() && pos + |src| <= MAX_SIZE
      modifies this`buf, this`copied, this`lim, this`pos, buf
      ensures Valid() && (buf == old(buf) || fresh(buf)) && (old(Amortized()) ==> Amortized())
      ensures done <==> (autoExpand && recapacityAllowed) || old(pos + |src| <= lim)
      ensures Written() == if done then old(Written()) + src else old(Written())
      ensures done ==> pos == old(pos) + |src|
    {
      ghost var was := Written();
      AutoExpand(|src|);
      assert buf[..pos] == was by { assert buf[..old(buf.Length)][..pos] == buf[..pos]; }
      if lim - pos < |src| { return false; }
      CopyIn(buf, pos, src);
      pos := pos + |src|;
      return true;
    }

    /** `putString(val)`: the terminating NUL is put too. */
    method PutString(val: string) returns (done: bool)
      requires Valid() && pos + |val| + 1 <= MAX_SIZE
      modifies this`buf, this`copied, this`lim, this`pos, buf
      ensures Valid() && (buf == old(buf) || fresh(buf)) && (old(Amortized()) ==> Amortized())
      ensures done ==> Written() == old(Written()) + val + [NUL]
    {
      assert old(Written()) + (val + [NUL]) == old(Written()) + val + [NUL];
      done := Put(val + [NUL]);
    }

    /** `flip`: what was put is ready to be read from the start. */
    method Flip()
      requires Valid()
      modifies this`pos, this`lim, this`mark
      ensures Valid() && Remaining() == old(Written()) && pos == 0 && lim == old(pos) && mark.None?
    {
      lim, pos, mark := pos, 0, None;
    }

    method Clear()
      requires Valid()
      modifies this`pos, this`lim, this`mark
      ensures Valid() && pos == 0 && lim == buf.Length && mark.None?
    {
      lim, pos, mark := buf.Length, 0, None;
    }

    /** `get()`. */
    method Get() returns (c: Option<char>)
      requires Valid()
      modifies this`pos
      ensures Valid()
      ensures if old(Remaining()) == "" then c.None? && pos == old(pos)
              else c == Some(old(Remaining())[0]) && Remaining() == old(Remaining())[1..]
    {
      if pos == lim { return None; }
      c := Some(buf[pos]);
      pos := pos + 1;
    }

    /**
     * `shrink`: the capacity is halved while half of it is enough for the limit and the minimum, but only once if
     * nothing has to be kept. Position, limit and the bytes up to the limit stay; the mark is lost.
     */
    method Shrink()
      requires Valid() && recapacityAllowed
      modifies this`buf, this`mark
      ensures Valid() && (buf == old(buf) || fresh(buf)) && buf[..lim] == old(buf[..lim])
      ensures var least := if minimumCapacity > lim then minimumCapacity else lim;
              && (old(buf.Length) >= least ==> least <= buf.Length <= old(buf.Length))
              && (old(buf.Length) > lim && 0 < least <= old(buf.Length) ==> buf.Length < 2 * least || buf.Length == least)
              && (old(buf.Length) > lim && least == 0 ==> buf.Length == old(buf.Length) / 2)
      ensures buf != old(buf) ==> mark.None?
    {
      if buf.Length == lim { return; }
      var newCapacity := buf.Length;
      var minCapacity := if minimumCapacity > lim then minimumCapacity else lim;
      while true
        invariant newCapacity <= buf.Length && (buf.Length >= minCapacity ==> newCapacity >= minCapacity)
        invariant minCapacity == 0 ==> newCapacity == buf.Length
        decreases newCapacity
      {
        if newCapacity / 2 < minCapacity { break; }
        newCapacity := newCapacity / 2;
        if minCapacity == 0 { break; }
      }
      if minCapacity > newCapacity { newCapacity := minCapacity; }
      if newCapacity == buf.Length { return; }
      var a := Reallocated(newCapacity, lim);
      buf, mark := a, None;
    }
  }

  /** Any sequence of auto-expanding puts stores exactly the concatenation of the bytes put. */
  method PutAll(b: EIoBuffer, parts: seq<string>)
    requires b.Valid() && b.autoExpand && b.recapacityAllowed && b.Amortized() && b.pos + |Join(parts)| <= MAX_SIZE
    modifies b, b.buf
    ensures b.Valid() && b.Written() == old(b.Written()) + Join(parts) && b.initial == old(b.initial)
    ensures b.copied <= b.initial + b.buf.Length
  {
    var i := 0;
    assert old(b.Written()) + Join(parts[..0]) == old(b.Written());
    while i < |parts|
      invariant 0 <= i <= |parts| && b.Valid() && b.autoExpand && b.recapacityAllowed && b.Amortized()
      invariant b.Written() == old(b.Written()) + Join(parts[..i])
      invariant b.buf == old(b.buf) || fresh(b.buf)
      invariant b.initial == old(b.initial)
    {
      JoinSnoc(parts, i);
      JoinBound(parts, i + 1);
      var done := b.Put(parts[i]);
      i := i + 1;
    }
    assert parts[..i] == parts;
  }
}
