/**
 * `HeaderString`: a byte string with three storage modes - a reference to a string owned elsewhere, 128 bytes
 * inside the object, and memory from the heap. Every operation is proved against a plain string.
 */
module HeaderString {
  import opened Chars
  import opened Lengths

  datatype Mode = Reference | Inline | Dynamic

  const INLINE_SIZE: nat := 128

  class HeaderStr {
    var mode: Mode              // type_
    var ref: string             // buffer_.ref_
    const inlineBuffer: array<char>
    var dynamic: array<char>    // buffer_.dynamic_ of a dynamic string; its length is dynamic_capacity_
    var length: nat             // string_length_

    /** Where the bytes are. */
    function Storage(): array<char>
      reads this
    {
      if mode.Dynamic? then dynamic else inlineBuffer
    }

    /**
     * Owned bytes lie inside their storage with room for a NUL, and memory from the heap is never smaller than
     * 256 bytes.
     */
    ghost predicate Valid()
      reads this, inlineBuffer, dynamic
    {
      && inlineBuffer.Length == INLINE_SIZE && inlineBuffer != dynamic
      && (mode.Reference? ==> length == |ref|)
      && (!mode.Reference? ==> length < Storage().Length)
      && (mode.Inline? ==> inlineBuffer[length] == NUL)
      && (mode.Dynamic? ==> dynamic.Length >= 256)
    }

    /** Whether `c_str` ends where `size` says. */
    predicate Terminated()
      reads this, inlineBuffer, dynamic
      requires Valid()
    {
      mode.Reference? || Storage()[length] == NUL
    }

    /** The string: what `c_str` and `size` show. */
    function View(): string
      reads this, inlineBuffer, dynamic
      requires Valid()
    {
      if mode.Reference? then ref else Storage()[..length]
    }

    constructor ()
      ensures Valid() && Terminated() && View() == "" && mode.Inline? && fresh(inlineBuffer) && fresh(dynamic)
    {
      inlineBuffer := new char[INLINE_SIZE](_ => NUL);
      dynamic := new char[0];
      mode, ref, length := Inline, "", 0;
    }

    constructor FromReference(refValue: string)
      ensures Valid() && Terminated() && View() == refValue && mode.Reference? && fresh(inlineBuffer) && fresh(dynamic)
    {
      inlineBuffer := new char[INLINE_SIZE](_ => NUL);
      dynamic := new char[0];
      mode, ref, length := Reference, refValue, |refValue|;
    }

    /** `memcpy` of `data` to index `at` of the storage, and the terminating NUL. */
    method Store(at: nat, data: string)
      requires inlineBuffer != dynamic && at + |data| < Storage().Length
      modifies this`length, Storage()
      ensures length == at + |data| && Storage()[..length] == old(Storage()[..at]) + data && Storage()[length] == NUL
    {
      var a := Storage();
      var i := 0;
      while i < |data|
        invariant 0 <= i <= |data| && a[..at + i] == old(a[..at]) + data[..i]
        modifies a
      {
        a[at + i] := data[i];
        assert a[..at + i + 1] == a[..at + i] + [data[i]];
        i := i + 1;
      }
      assert data[..i] == data;
      a[at + |data|] := NUL;
      assert a[..at + |data|] == old(a[..at]) + data;
      length := at + |data|;
    }

    /** Heap memory of the given size that starts with the bytes kept so far. */
    method MoveToHeap(capacity: nat, kept: nat)
      requires inlineBuffer != dynamic && kept <= Storage().Length && kept <= capacity
      modifies this`dynamic, this`mode
      ensures mode.Dynamic? && fresh(dynamic) && dynamic.Length == capacity && dynamic != inlineBuffer
      ensures dynamic[..kept] == old(Storage()[..kept])
    {
      var a := new char[capacity](_ => NUL);
      var s := Storage();
      var i := 0;
      while i < kept
        invariant 0 <= i <= kept && a[..i] == s[..i]
        modifies a
      {
        a[i] := s[i];
        i := i + 1;
      }
      dynamic, mode := a, Dynamic;
    }

    /** `append`. On a reference it starts from the empty string. */
    method Append(data: string)
      requires Valid() && length + |data| < 0x8000_0000
      modifies this`mode, this`length, this`dynamic, inlineBuffer, dynamic
      ensures Valid() && Terminated() && !mode.Reference? && (dynamic == old(dynamic) || fresh(dynamic))
      ensures View() == (if old(mode.Reference?) then "" else old(View())) + data
    {
      if mode.Reference? { mode, length := Inline, 0; }
      var n := length;
      ghost var was := Storage()[..n];
      if mode.Inline? {
        if |data| + 1 + n > INLINE_SIZE { MoveToHeap((n + |data|) * 2, n); }
      } else if |data| + 1 + n > dynamic.Length {
        MoveToHeap((n + |data|) * 2, n);
      }
      assert Storage()[..n] == was;
      Store(n, data);
    }

    /** `setCopy`. */
    method SetCopy(data: string)
      requires Valid() && |data| < 0x8000_0000
      modifies this`mode, this`length, this`dynamic, inlineBuffer, dynamic
      ensures Valid() && Terminated() && !mode.Reference? && (dynamic == old(dynamic) || fresh(dynamic)) && View() == data
    {
      if mode.Reference? { mode := Inline; }
      if mode.Inline? {
        if |data| + 1 > INLINE_SIZE { MoveToHeap(|data| * 2, 0); }
      } else if |data| + 1 > dynamic.Length {
        MoveToHeap(|data| * 2, 0);
      }
      Store(0, data);
    }

    /** `setInteger`: `itoa` prints into the storage, whose 32 bytes are always there. */
    method SetInteger(value: nat)
      requires Valid() && value <= ULLONG_MAX
      modifies this`mode, this`length, inlineBuffer, dynamic
      ensures Valid() && Terminated() && !mode.Reference? && View() == Decimal(value)
    {
      hide Decimal;
      if mode.Reference? { mode := Inline; }
      assert Storage().Length >= 32;
      var n, refused := Itoa(Storage(), value);
      length := n;
    }

    method SetReference(refValue: string)
      requires Valid()
      modifies this`mode, this`ref, this`length
      ensures Valid() && Terminated() && mode.Reference? && View() == refValue
    {
      mode, ref, length := Reference, refValue, |refValue|;
    }

    /**
     * `clear`. A reference is not cleared. A string on the heap loses its length but not its first byte, so that
     * `c_str` still shows the old bytes unless there were none.
     */
    method Clear()
      requires Valid()
      modifies this`length, inlineBuffer
      ensures Valid() && View() == if mode.Reference? then old(View()) else ""
      ensures Terminated() <==> !mode.Dynamic? || old(dynamic[0] == NUL)
    {
      if mode.Inline? { inlineBuffer[0] := NUL; }
      if !mode.Reference? { length := 0; }
    }

    /** The move constructor: the string is taken over, and the source is left empty unless it is a reference. */
    constructor MoveFrom(from: HeaderStr)
      requires from.Valid()
      modifies from`mode, from`dynamic, from`length, from.inlineBuffer
      ensures Valid() && View() == old(from.View()) && mode == old(from.mode) && from.Valid() && from.Terminated()
      ensures Terminated() == old(from.Terminated())
      ensures from.View() == if old(from.mode.Reference?) then old(from.View()) else ""
      ensures inlineBuffer != from.inlineBuffer && dynamic != from.dynamic
    {
      var mine := new char[INLINE_SIZE](_ => NUL);
      var none := new char[0];
      inlineBuffer := mine;
      mode, ref, length := from.mode, from.ref, from.length;
      dynamic := if from.mode.Dynamic? then from.dynamic else none;
      new;
      if mode.Dynamic? {
        from.mode := Inline;
        from.dynamic := none;
        from.Store(0, "");
      } else if mode.Inline? {
        Store(0, from.View());
        from.Clear();
      } else {
        from.dynamic := new char[0];
      }
    }
  }
}
