/** The meaning of a header map: a list of headers in which every fixed header occurs at most once. */
module HeaderList {
  import opened Chars
  import opened HeaderNames
  import opened LookupTable

  /** The key under which a header is stored. */
  function Canonical(key: string): string {
    if SlotOf(key).Some? then KeyOf(SlotOf(key).value) else key
  }

  predicate HasKey(l: seq<Header>, key: string) { exists i :: 0 <= i < |l| && l[i].name == key }

  /** Fixed headers are stored under their canonical key, and once. */
  ghost predicate ListOk(l: seq<Header>) {
    && (forall i :: 0 <= i < |l| ==> Canonical(l[i].name) == l[i].name)
    && (forall i, j :: 0 <= i < j < |l| && SlotOf(l[i].name).Some? ==> l[i].name != l[j].name)
  }

  /** Adding a header: a fixed one that is present already keeps its first value. */
  function Added(l: seq<Header>, key: string, value: string): seq<Header> {
    if SlotOf(key).Some? && HasKey(l, Canonical(key)) then l else l + [Header(Canonical(key), value)]
  }

  function AddedAll(l: seq<Header>, hs: seq<Header>): seq<Header> {
    if hs == [] then l else Added(AddedAll(l, hs[..|hs| - 1]), hs[|hs| - 1].name, hs[|hs| - 1].value)
  }

  /** The list without the headers named `key`. */
  function Without(l: seq<Header>, key: string): (r: seq<Header>)
    ensures !HasKey(r, key)
    ensures forall k :: k != key ==> (HasKey(l, k) <==> HasKey(r, k))
  {
    if l == [] then []
    else
      var h := l[|l| - 1];
      var r := Without(l[..|l| - 1], key);
      assert l == l[..|l| - 1] + [h];
      assert forall k :: HasKey(l, k) <==> HasKey(l[..|l| - 1], k) || h.name == k by { HasKeySnoc(l[..|l| - 1], h); }
      assert forall k :: HasKey(r + [h], k) <==> HasKey(r, k) || h.name == k by { HasKeySnoc(r, h); }
      if h.name == key then r else r + [h]
  }

  /** Each header goes or stays by its name alone, and those that stay keep their order. */
  lemma {:induction false} WithoutEach(l: seq<Header>, m: seq<Header>, h: Header, key: string)
    ensures Without(l + m, key) == Without(l, key) + Without(m, key)
    ensures Without([h], key) == if h.name == key then [] else [h]
    decreases |m|
  {
    hide Without;
    WithoutLast([], h, key);
    assert [] + [h] == [h];
    if m == [] {
      NothingWithout(key);
      assert l + m == l && Without(l, key) + [] == Without(l, key);
    } else {
      var n := |m| - 1;
      WithoutEach(l, m[..n], h, key);
      WithoutLast(l + m[..n], m[n], key);
      WithoutLast(m[..n], m[n], key);
      assert l + m == l + m[..n] + [m[n]] && m == m[..n] + [m[n]];
      assert Without(l, key) + (Without(m[..n], key) + [m[n]]) == Without(l, key) + Without(m[..n], key) + [m[n]];
    }
    NothingWithout(key);
  }

  lemma {:induction false} NothingWithout(key: string)
    ensures Without([], key) == []
  {
  }

  lemma {:induction false} WithoutLast(l: seq<Header>, h: Header, key: string)
    ensures Without(l + [h], key) == Without(l, key) + if h.name == key then [] else [h]
  {
    hide HasKey;
    assert (l + [h])[..|l|] == l && Without(l, key) + [] == Without(l, key);
  }

  lemma {:induction false} HasKeySnoc(l: seq<Header>, h: Header)
    ensures forall k :: HasKey(l + [h], k) <==> HasKey(l, k) || h.name == k
  {
    forall k
      ensures HasKey(l + [h], k) <==> HasKey(l, k) || h.name == k
    {
      if HasKey(l, k) {
        var i :| 0 <= i < |l| && l[i].name == k;
        assert (l + [h])[i].name == k;
      }
      assert (l + [h])[|l|] == h;
    }
  }

  /** Setting a header: every earlier one of that name goes. */
  function Replaced(l: seq<Header>, key: string, value: string): seq<Header> {
    Added(Without(l, Canonical(key)), key, value)
  }

  /** The first header with this key, as the linear search finds it. */
  function Get(l: seq<Header>, key: string): (r: Option<Header>)
    ensures r.Some? <==> HasKey(l, key)
    ensures r.Some? ==> r.value in l && r.value.name == key
  {
    if l == [] then None
    else if l[0].name == key then Some(l[0])
    else
      assert HasKey(l, key) <==> HasKey(l[1..], key) by {
        if HasKey(l, key) { var i :| 0 <= i < |l| && l[i].name == key; assert l[1..][i - 1] == l[i]; }
      }
      Get(l[1..], key)
  }

  // ---------------------------------------------------------------- laws

  /** A canonical key is its own canonical key. */
  lemma {:induction false} CanonicalTwice(key: string)
    ensures Canonical(Canonical(key)) == Canonical(key)
    ensures SlotOf(key) == SlotOf(Canonical(key))
  {
    hide SlotOf, KeyOf;
    if SlotOf(key).Some? {
      var x := SlotOf(key).value;
      SlotExact(KeyOf(x), x);
    }
  }

  lemma {:induction false} AddedOk(l: seq<Header>, key: string, value: string)
    requires ListOk(l)
    ensures ListOk(Added(l, key, value))
  {
    hide SlotOf, KeyOf;
    CanonicalTwice(key);
    hide Canonical;
    var r := Added(l, key, value);
    if r != l {
      forall i, j | 0 <= i < j < |r| && SlotOf(r[i].name).Some?
        ensures r[i].name != r[j].name
      {
        if j == |l| { assert HasKey(l, r[i].name); }
      }
    }
  }

  lemma {:induction false} WithoutOk(l: seq<Header>, key: string)
    requires ListOk(l)
    ensures ListOk(Without(l, key))
    decreases |l|
  {
    hide SlotOf, Canonical;
    if l != [] {
      var h := l[|l| - 1];
      WithoutOk(l[..|l| - 1], key);
      var r := Without(l[..|l| - 1], key);
      forall i | 0 <= i < |r| && SlotOf(r[i].name).Some?
        ensures r[i].name != h.name
      {
        assert HasKey(r, r[i].name);
        if r[i].name != key {
          var k :| 0 <= k < |l| - 1 && l[..|l| - 1][k].name == r[i].name;
          assert l[k].name == r[i].name;
        }
      }
    }
  }

  /** A fixed header added twice keeps the first value; another header is kept twice. */
  lemma {:induction false} AddTwice(l: seq<Header>, key: string, v: string, w: string)
    ensures Added(Added(l, key, v), key, w) ==
            if SlotOf(key).Some? then Added(l, key, v) else l + [Header(key, v), Header(key, w)]
  {
    hide SlotOf, KeyOf;
    var r := Added(l, key, v);
    if SlotOf(key).Some? && r != l { assert r[|l|].name == Canonical(key); }
  }

  /** `set*` leaves exactly one header under the key, with the value given, and every other header as it was. */
  lemma {:induction false} SetIsLast(l: seq<Header>, key: string, v: string)
    ensures var r := Replaced(l, key, v);
            && r == Without(l, Canonical(key)) + [Header(Canonical(key), v)]
            && Get(r, Canonical(key)) == Some(Header(Canonical(key), v))
            && (forall k :: k != Canonical(key) ==> Get(r, k) == Get(l, k))
  {
    hide SlotOf, Canonical;
    var c := Canonical(key);
    var w := Without(l, c);
    GetAppended(w, Header(c, v), c);
    forall k | k != c
      ensures Get(Replaced(l, key, v), k) == Get(l, k)
    {
      GetAppended(w, Header(c, v), k);
      GetWithout(l, c, k);
    }
  }

  lemma {:induction false} GetAppended(l: seq<Header>, h: Header, key: string)
    ensures Get(l + [h], key) == if HasKey(l, key) then Get(l, key) else if h.name == key then Some(h) else None
    decreases |l|
  {
    if l != [] {
      assert (l + [h])[1..] == l[1..] + [h];
      GetAppended(l[1..], h, key);
    }
  }

  lemma {:induction false} GetWithout(l: seq<Header>, gone: string, key: string)
    requires key != gone
    ensures Get(Without(l, gone), key) == Get(l, key)
    decreases |l|
  {
    if l != [] {
      var n := |l| - 1;
      GetWithout(l[..n], gone, key);
      assert l == l[..n] + [l[n]];
      GetAppended(l[..n], l[n], key);
      GetAppended(Without(l[..n], gone), l[n], key);
    }
  }

  /** Copying a header map by adding its headers one by one gives the same list. */
  lemma {:induction false} CopyIsEqual(l: seq<Header>, n: nat)
    requires ListOk(l) && n <= |l|
    ensures AddedAll([], l[..n]) == l[..n]
  {
    hide SlotOf, Canonical;
    if n > 0 {
      CopyIsEqual(l, n - 1);
      assert l[..n][..n - 1] == l[..n - 1];
      if SlotOf(l[n - 1].name).Some? {
        var t := l[..n - 1];
        forall i | 0 <= i < |t|
          ensures t[i].name != l[n - 1].name
        {
          assert t[i] == l[i];
        }
      }
    }
  }

  lemma {:induction false} WithoutStep(l: seq<Header>, n: nat, key: string)
    requires n < |l|
    ensures Without(l[..n + 1], key) ==
            if l[n].name == key then Without(l[..n], key) else Without(l[..n], key) + [l[n]]
  {
    assert l[..n + 1][..n] == l[..n];
  }

  /** One turn of the erasing loop: `cur` is what is left of the first `n` headers, then the rest of `l`. */
  lemma {:induction false} EraseStep(l: seq<Header>, n: nat, key: string, cur: seq<Header>, i: nat)
    requires n < |l| && cur == Without(l[..n], key) + l[n..] && i == |Without(l[..n], key)|
    ensures i < |cur| && cur[i] == l[n]
    ensures l[n].name == key ==> i == |Without(l[..n + 1], key)| &&
                                 cur[..i] + cur[i + 1..] == Without(l[..n + 1], key) + l[n + 1..]
    ensures l[n].name != key ==> i + 1 == |Without(l[..n + 1], key)| && cur == Without(l[..n + 1], key) + l[n + 1..]
  {
    hide Without;
    WithoutStep(l, n, key);
    var w, rest := Without(l[..n], key), l[n + 1..];
    assert l[n..] == [l[n]] + rest;
    assert cur == w + ([l[n]] + rest) == w + [l[n]] + rest;
    assert cur[..i] == w && cur[i + 1..] == rest;
  }

  /** The list in which the first header under `key` has value `value`, added at the end if there is none. */
  function Updated(l: seq<Header>, key: string, value: string): (r: seq<Header>)
    ensures Get(r, key) == Some(Header(key, value))
  {
    if l == [] then [Header(key, value)]
    else if l[0].name == key then [Header(key, value)] + l[1..]
    else [l[0]] + Updated(l[1..], key, value)
  }

  /** Removing the only header under a key is removing one element. */
  lemma {:induction false} WithoutOne(l: seq<Header>, i: nat)
    requires i < |l| && forall j :: 0 <= j < |l| && j != i ==> l[j].name != l[i].name
    ensures Without(l, l[i].name) == l[..i] + l[i + 1..]
    decreases |l|
  {
    var n := |l| - 1;
    if i == n {
      WithoutNone(l[..n], l[i].name);
      assert l[..i] + l[i + 1..] == l[..n];
    } else {
      WithoutOne(l[..n], i);
      assert l[..i] + l[i + 1..] == l[..n][..i] + l[..n][i + 1..] + [l[n]];
    }
  }

  lemma {:induction false} WithoutNone(l: seq<Header>, key: string)
    requires !HasKey(l, key)
    ensures Without(l, key) == l
    decreases |l|
  {
    if l != [] {
      var n := |l| - 1;
      assert l == l[..n] + [l[n]];
      HasKeySnoc(l[..n], l[n]);
      WithoutNone(l[..n], key);
    }
  }

  /** Where the updated header is. */
  lemma {:induction false} UpdatedAt(l: seq<Header>, key: string, value: string, i: nat)
    requires i < |l| && l[i].name == key && forall j :: 0 <= j < i ==> l[j].name != key
    ensures Updated(l, key, value) == l[i := Header(key, value)]
    decreases i
  {
    hide Get, HasKey;
    var h := Header(key, value);
    if i == 0 {
      assert l[0 := h] == [h] + l[1..];
    } else {
      var t := l[1..];
      UpdatedAt(t, key, value, i - 1);
      assert Updated(l, key, value) == [l[0]] + t[i - 1 := h];
      assert l[i := h] == [l[0]] + t[i - 1 := h];
    }
  }

  lemma {:induction false} UpdatedNew(l: seq<Header>, key: string, value: string)
    requires !HasKey(l, key)
    ensures Updated(l, key, value) == l + [Header(key, value)]
  {
    if l != [] {
      assert l[0].name != key;
      forall i | 0 <= i < |l| - 1
        ensures l[1..][i].name != key
      {
        assert l[1..][i] == l[i + 1];
      }
      UpdatedNew(l[1..], key, value);
    }
  }

  /** The first header found is at the first index that has the key. */
  lemma {:induction false} GetAt(l: seq<Header>, key: string, i: nat)
    requires i < |l| && l[i].name == key && forall j :: 0 <= j < i ==> l[j].name != key
    ensures Get(l, key) == Some(l[i])
    decreases i
  {
    if i > 0 { GetAt(l[1..], key, i - 1); }
  }

  /** The first header under a key in a list that has it once. */
  lemma {:induction false} GetOnce(l: seq<Header>, i: nat)
    requires ListOk(l) && i < |l| && SlotOf(l[i].name).Some?
    ensures Get(l, l[i].name) == Some(l[i])
  {
    hide SlotOf, Canonical;
    GetAt(l, l[i].name, i);
  }
}
