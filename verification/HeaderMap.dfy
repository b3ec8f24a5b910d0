/**
 * The header map: a list of entry objects and an array of fast slots that point into it. Every operation is
 * proved against the list it stands for (module `HeaderList`), with slots, list and lookup table in agreement.
 */
module HeaderMap {
  import opened Chars
  import opened HeaderNames
  import opened LookupTable
  import opened HeaderList

  class HeaderEntry {
    const key: string     // set when the entry is made
    var value: string

    constructor (key: string, value: string)
      ensures this.key == key && this.value == value
    {
      this.key, this.value := key, value;
    }

    /** `HeaderEntryImpl::value`. */
    method SetValue(v: string)
      modifies this`value
      ensures value == v
    {
      value := v;
    }
  }

  /** The key of this entry is in the lookup table. */
  predicate HasSlot(e: HeaderEntry) { SlotOf(e.key).Some? }

  /**
   * Slots and list agree: the list has no entry twice, each slot points to an entry of the list with its
   * canonical key, and an entry whose key is in the table is the one its slot points to.
   */
  ghost predicate Agree(hs: seq<HeaderEntry>, slots: map<Inline, HeaderEntry>) {
    && (forall i, j :: 0 <= i < j < |hs| ==> hs[i] != hs[j])
    && (forall x :: x in slots ==> slots[x] in hs && slots[x].key == KeyOf(x))
    && (forall e :: e in hs && SlotOf(e.key).Some? ==>
          var x := SlotOf(e.key).value;
          e.key == KeyOf(x) && x in slots && slots[x] == e)
  }

  lemma {:induction false} SlotKeys()
    ensures forall x: Inline, y: Inline :: KeyOf(x) == KeyOf(y) ==> x == y
    ensures forall x: Inline :: SlotOf(KeyOf(x)) == Some(x)
  {
    hide KeyOf, SlotOf;
    forall x: Inline, y: Inline | KeyOf(x) == KeyOf(y)
      ensures x == y
    {
      KeyInjective(x, y);
    }
    forall x: Inline
      ensures SlotOf(KeyOf(x)) == Some(x)
    {
      SlotExact(KeyOf(x), x);
    }
  }

  lemma {:induction false} EmptyAgree()
    ensures Agree([], map[])
  {
  }

  lemma {:induction false} SlottedEntry(hs: seq<HeaderEntry>, slots: map<Inline, HeaderEntry>, x: Inline)
    requires Agree(hs, slots) && x in slots
    ensures slots[x] in hs && slots[x].key == KeyOf(x) && SlotOf(KeyOf(x)) == Some(x)
  {
    hide KeyOf, SlotOf;
    SlotKeys();
  }

  lemma {:induction false} ErasedMembers(hs: seq<HeaderEntry>, i: nat)
    requires i < |hs| && forall i, j :: 0 <= i < j < |hs| ==> hs[i] != hs[j]
    ensures var r := hs[..i] + hs[i + 1..];
            && (forall e :: e in r <==> e in hs && e != hs[i])
            && (forall i, j :: 0 <= i < j < |r| ==> r[i] != r[j])
  {
    var r := hs[..i] + hs[i + 1..];
    forall e
      ensures e in r <==> e in hs && e != hs[i]
    {
      if e in hs && e != hs[i] {
        var k :| 0 <= k < |hs| && hs[k] == e;
        assert r[if k < i then k else k - 1] == e;
      }
      if e in r {
        var k :| 0 <= k < |r| && r[k] == e;
        assert hs[if k < i then k else k + 1] == e;
      }
    }
  }

  /** Erasing an entry together with its slot, if it has one, keeps the agreement. */
  lemma {:induction false} ErasedAgree(hs: seq<HeaderEntry>, slots: map<Inline, HeaderEntry>, i: nat)
    requires Agree(hs, slots) && i < |hs|
    ensures var s := SlotOf(hs[i].key);
            Agree(hs[..i] + hs[i + 1..], if s.Some? then slots - {s.value} else slots)
  {
    hide KeyOf, SlotOf;
    SlotKeys();
    ErasedMembers(hs, i);
    var s := SlotOf(hs[i].key);
    forall x | x in slots && (s.None? || x != s.value)
      ensures slots[x] != hs[i]
    {
      assert SlotOf(slots[x].key) == Some(x);
    }
  }

  /** Appending a new entry together with its slot keeps the agreement. */
  lemma {:induction false} AppendedAgree(hs: seq<HeaderEntry>, slots: map<Inline, HeaderEntry>, e: HeaderEntry)
    requires Agree(hs, slots) && e !in hs
    ensures SlotOf(e.key).None? ==> Agree(hs + [e], slots)
    ensures forall x: Inline :: x !in slots && e.key == KeyOf(x) ==> Agree(hs + [e], slots[x := e])
  {
    hide KeyOf, SlotOf;
    SlotKeys();
    assert forall o :: o in hs + [e] <==> o in hs || o == e;
  }

  datatype Lookup = Found(entry: HeaderEntry) | NotFound | NotSupported

  class HeaderMapImpl {
    var headers: seq<HeaderEntry>
    var slots: map<Inline, HeaderEntry>   // a slot that is not in the map is a null pointer

    /** The headers in order. */
    function Pairs(): (l: seq<Header>)
      reads this, headers
      ensures |l| == |headers|
    {
      seq(|headers|, i requires 0 <= i < |headers| reads this, headers => Header(headers[i].key, headers[i].value))
    }

    ghost predicate Valid()
      reads this
    {
      Agree(headers, slots)
    }

    /** What agreement means for the list, and for the slots read through it. */
    lemma {:induction false} ValidMeaning()
      requires Valid()
      ensures ListOk(Pairs())
      ensures forall x :: x in slots <==> HasKey(Pairs(), KeyOf(x))
    {
      hide KeyOf, SlotOf;
      var l := Pairs();
      forall x: Inline
        ensures x in slots <==> HasKey(l, KeyOf(x))
        ensures SlotOf(KeyOf(x)) == Some(x)
      {
        SlotExact(KeyOf(x), x);
        if x in slots {
          var i :| 0 <= i < |headers| && headers[i] == slots[x];
          assert l[i].name == KeyOf(x);
        }
        if HasKey(l, KeyOf(x)) {
          var i :| 0 <= i < |l| && l[i].name == KeyOf(x);
          assert headers[i].key == KeyOf(x);
        }
      }
    }

    constructor ()
      ensures Valid() && Pairs() == [] && slots == map[]
    {
      hide KeyOf, SlotOf, Agree;
      headers, slots := [], map[];
      new;
      EmptyAgree();
    }

    /** Append a new entry at the end of the list. */
    method Emplace(key: string, value: string) returns (e: HeaderEntry)
      modifies this`headers
      ensures fresh(e) && e.key == key && e.value == value && headers == old(headers) + [e] && e !in old(headers)
    {
      e := new HeaderEntry(key, value);
      headers := headers + [e];
    }

    /** `insert##name()`: the entry of a fixed header, made empty if it is not there. */
    method InsertInline(x: Inline) returns (e: HeaderEntry)
      requires Valid()
      modifies this
      ensures Valid() && x in slots && e == slots[x] && e.key == KeyOf(x)
      ensures Pairs() == Added(old(Pairs()), KeyOf(x), "")
      ensures headers == old(headers) || (fresh(e) && headers == old(headers) + [e])
    {
      hide KeyOf, SlotOf, Agree;
      e := MaybeCreateInline(x, "");
    }

    /** `maybeCreateInline`: a fixed header that is present already keeps its value. */
    method MaybeCreateInline(x: Inline, value: string) returns (e: HeaderEntry)
      requires Valid()
      modifies this
      ensures Valid() && x in slots && e == slots[x] && e.key == KeyOf(x)
      ensures Pairs() == Added(old(Pairs()), KeyOf(x), value)
      ensures headers == old(headers) || (fresh(e) && headers == old(headers) + [e])
    {
      hide KeyOf, SlotOf, Agree;
      SlotExact(KeyOf(x), x);
      ValidMeaning();
      if x in slots {
        SlottedEntry(headers, slots, x);
        e := slots[x];
        return;
      }
      e := Emplace(KeyOf(x), value);
      AppendedAgree(old(headers), slots, e);
      slots := slots[x := e];
      assert Pairs() == old(Pairs()) + [Header(KeyOf(x), value)];
    }

    /** `insertByKey`, through which every `add*` goes. */
    method InsertByKey(key: string, value: string)
      requires Valid()
      modifies this
      ensures Valid() && Pairs() == Added(old(Pairs()), key, value)
      ensures forall e :: e in headers ==> e in old(headers) || fresh(e)
    {
      hide KeyOf, SlotOf, Agree;
      var slot := SlotOf(key);
      if slot.Some? {
        SlotKeys();
        var e := MaybeCreateInline(slot.value, value);
      } else {
        var e := Emplace(key, value);
        AppendedAgree(old(headers), slots, e);
        assert Pairs() == old(Pairs()) + [Header(key, value)];
      }
    }

    /** `insert##name().value(v)`: the fixed header gets this value, whether it was there or not. */
    method InsertValue(x: Inline, v: string)
      requires Valid()
      modifies this, headers
      ensures Valid() && Pairs() == Updated(old(Pairs()), KeyOf(x), v)
      ensures fresh(set e | e in headers && e !in old(headers))
    {
      hide KeyOf, SlotOf, Agree, Updated, Get;
      ValidMeaning();
      SlotKeys();
      ghost var l := Pairs();
      if x !in slots { UpdatedNew(l, KeyOf(x), v); }
      var e := InsertInline(x);
      SlottedEntry(headers, slots, x);
      ghost var i: nat :| i < |headers| && headers[i] == e;
      ghost var m := Pairs();
      KeyOnce(i);
      e.SetValue(v);
      assert Pairs() == m[i := Header(KeyOf(x), v)];
      if HasKey(l, KeyOf(x)) {
        UpdatedAt(l, KeyOf(x), v, i);
      } else {
        assert i == |l| by { assert m[|l|].name == KeyOf(x); }
      }
    }

    /** No other entry has the key of a fixed header's entry. */
    lemma {:induction false} KeyOnce(i: nat)
      requires Valid() && i < |headers| && HasSlot(headers[i])
      ensures forall j :: 0 <= j < |headers| && j != i ==> headers[j].key != headers[i].key
    {
      hide KeyOf, SlotOf;
    }

    /** `removeInline`: the slot is cleared and its entry erased from the list. */
    method RemoveInline(x: Inline)
      requires Valid()
      modifies this
      ensures Valid() && x !in slots && Pairs() == Without(old(Pairs()), KeyOf(x))
      ensures forall e :: e in headers ==> e in old(headers)
    {
      hide KeyOf, SlotOf, Agree, Without;
      ValidMeaning();
      SlotKeys();
      ghost var l := Pairs();
      if x !in slots {
        WithoutNone(l, KeyOf(x));
        return;
      }
      SlottedEntry(headers, slots, x);
      var e := slots[x];
      var i := IndexOf(e);
      KeyOnce(i);
      WithoutOne(l, i);
      ErasedAgree(headers, slots, i);
      slots := slots - {x};
      Erase(i);
    }

    /** `headers_.erase`: one entry leaves the list. */
    method Erase(i: nat)
      requires i < |headers|
      modifies this`headers
      ensures headers == old(headers)[..i] + old(headers)[i + 1..]
      ensures Pairs() == old(Pairs())[..i] + old(Pairs())[i + 1..]
    {
      ghost var l := Pairs();
      headers := headers[..i] + headers[i + 1..];
      assert Pairs() == l[..i] + l[i + 1..];
    }

    /** Where an entry of the list stands: what its own iterator `entry_` records. */
    method IndexOf(e: HeaderEntry) returns (i: nat)
      requires e in headers
      ensures i < |headers| && headers[i] == e
    {
      i := 0;
      while headers[i] != e
        invariant i < |headers| && e !in headers[..i]
        decreases |headers| - i
      {
        i := i + 1;
        assert headers[..i] == headers[..i - 1] + [headers[i - 1]];
        assert headers[..|headers|] == headers;
      }
    }

    /** `remove`: every header of this name goes. */
    method Remove(key: string)
      requires Valid()
      modifies this
      ensures Valid() && Pairs() == Without(old(Pairs()), Canonical(key))
      ensures forall e :: e in headers ==> e in old(headers)
    {
      hide KeyOf, SlotOf, Agree;
      var slot := SlotOf(key);
      if slot.Some? {
        RemoveInline(slot.value);
      } else {
        RemoveAll(key);
      }
    }

    /** The erasing loop of `remove`, for a key without a slot. */
    method RemoveAll(key: string)
      requires Valid() && SlotOf(key).None?
      modifies this`headers
      ensures Valid() && Pairs() == Without(old(Pairs()), key)
      ensures forall e :: e in headers ==> e in old(headers)
    {
      hide KeyOf, SlotOf, Agree, Without;
      ghost var l, n := Pairs(), 0;
      WithoutNone([], key);
      assert l[..0] == [] && l[0..] == l;
      var i := 0;
      while i < |headers|
        invariant 0 <= i <= |headers| && n <= |l|
        invariant Pairs() == Without(l[..n], key) + l[n..] && i == |Without(l[..n], key)|
        invariant Valid() && forall e :: e in headers ==> e in old(headers)
        decreases |headers| - i
      {
        EraseStep(l, n, key, Pairs(), i);
        if headers[i].key == key {
          ErasedAgree(headers, slots, i);
          Erase(i);
        } else {
          i := i + 1;
        }
        n := n + 1;
      }
      assert n == |l| && l[..n] == l && l[n..] == [];
    }

    /** `setReference` and `setReferenceKey`. */
    method Set(key: string, value: string)
      requires Valid()
      modifies this
      ensures Valid() && Pairs() == Replaced(old(Pairs()), key, value)
    {
      hide KeyOf, SlotOf, Agree, Canonical, Without;
      Remove(key);
      InsertByKey(key, value);
    }

    /** `get`: the linear search. */
    method Find(key: string) returns (r: Option<HeaderEntry>)
      requires Valid()
      ensures Get(Pairs(), key) == if r.Some? then Some(Header(r.value.key, r.value.value)) else None
      ensures r.Some? ==> r.value in headers && r.value.key == key
    {
      hide KeyOf, SlotOf, Agree;
      ghost var l := Pairs();
      var i := 0;
      while i < |headers|
        invariant 0 <= i <= |headers| && forall j :: 0 <= j < i ==> l[j].name != key
      {
        if headers[i].key == key {
          GetAt(l, key, i);
          return Some(headers[i]);
        }
        i := i + 1;
      }
      return None;
    }

    /**
     * `lookup`: through the table and the slot, without a search. It agrees with the linear search for every
     * key of the table but the alias "host", which finds the authority header the search cannot.
     */
    method LookUp(key: string) returns (r: Lookup)
      requires Valid()
      ensures r.NotSupported? <==> SlotOf(key).None?
      ensures SlotOf(key).Some? && key != HOST_LEGACY ==>
                Get(Pairs(), key) == if r.Found? then Some(Header(r.entry.key, r.entry.value)) else None
      ensures key == HOST_LEGACY ==>
                Get(Pairs(), KeyOf(HOST_SLOT)) == (if r.Found? then Some(Header(r.entry.key, r.entry.value)) else None) &&
                Get(Pairs(), key) == None
      ensures r.Found? ==> r.entry in headers
    {
      hide KeyOf, SlotOf, Agree;
      ValidMeaning();
      SlotKeys();
      SlotExact(HOST_LEGACY, HOST_SLOT);
      HostIsNoKey(HOST_SLOT);
      ghost var l := Pairs();
      var slot := SlotOf(key);
      if slot.None? { return NotSupported; }
      SlotExact(key, slot.value);
      if key == HOST_LEGACY {
        forall i | 0 <= i < |l|
          ensures l[i].name != key
        {
          assert headers[i] in headers;
        }
      }
      if slot.value in slots {
        SlottedEntry(headers, slots, slot.value);
        ghost var i: nat :| i < |headers| && headers[i] == slots[slot.value];
        KeyOnce(i);
        GetAt(l, KeyOf(slot.value), i);
        return Found(slots[slot.value]);
      }
      return NotFound;
    }

    /** The copy constructor: every header added in order, into entries of its own. */
    constructor Copy(rhs: HeaderMapImpl)
      requires rhs.Valid()
      ensures Valid() && Pairs() == rhs.Pairs()
      ensures forall e :: e in headers ==> fresh(e)
    {
      headers, slots := [], map[];
      new;
      hide KeyOf, SlotOf, Agree;
      EmptyAgree();
      rhs.ValidMeaning();
      ghost var l := rhs.Pairs();
      var i := 0;
      while i < |rhs.headers|
        invariant 0 <= i <= |rhs.headers| && Valid() && Pairs() == AddedAll([], l[..i])
        invariant forall e :: e in headers ==> fresh(e)
        invariant rhs.Valid() && rhs.Pairs() == l && rhs.headers == old(rhs.headers)
      {
        assert l[..i + 1][..i] == l[..i];
        InsertByKey(rhs.headers[i].key, rhs.headers[i].value);
        i := i + 1;
      }
      CopyIsEqual(l, |l|);
      assert l[..|l|] == l;
    }
  }
}
