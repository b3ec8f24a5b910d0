/** The static lookup table of header keys: a trie with one level for each character. */
module LookupTable {
  import opened Chars
  import opened HeaderNames

  datatype Trie = Trie(slot: Option<Inline>, kids: map<char, Trie>)

  const EMPTY := Trie(None, map[])

  /** `StaticLookupTable::add`: missing nodes are made on the way down. */
  function Add(t: Trie, key: string, slot: Inline): Trie
    decreases |key|
  {
    if key == "" then t.(slot := Some(slot))
    else
      var kid := if key[0] in t.kids then t.kids[key[0]] else EMPTY;
      t.(kids := t.kids[key[0] := Add(kid, key[1..], slot)])
  }

  /** `StaticLookupTable::find`. */
  function Find(t: Trie, key: string): Option<Inline>
    decreases |key|
  {
    if key == "" then t.slot
    else if key[0] in t.kids then Find(t.kids[key[0]], key[1..])
    else None
  }

  lemma {:induction false} FindEmpty(key: string)
    ensures Find(EMPTY, key) == None
  {
  }

  /** An added key is found, and no other key is disturbed: not its prefixes, not its extensions. */
  lemma {:induction false} FindAdded(t: Trie, key: string, slot: Inline, other: string)
    ensures Find(Add(t, key, slot), other) == if other == key then Some(slot) else Find(t, other)
    decreases |key|
  {
    if key != "" && other != "" && other[0] == key[0] {
      var kid := if key[0] in t.kids then t.kids[key[0]] else EMPTY;
      FindAdded(kid, key[1..], slot, other[1..]);
      FindEmpty(other[1..]);
      assert key == [key[0]] + key[1..] && other == [other[0]] + other[1..];
    }
  }

  /** The table after the first `n` fixed headers have been added. */
  function FirstKeys(n: nat): Trie
    requires n <= 48
  {
    if n == 0 then EMPTY else Add(FirstKeys(n - 1), KeyOf(n - 1), n - 1)
  }

  /** The table: every fixed header under its key, and the authority header under "host" too. */
  function Table(): Trie { Add(FirstKeys(48), HOST_LEGACY, HOST_SLOT) }

  /** The slot of a key, which is what the insert, remove and lookup operations ask the table for. */
  function SlotOf(key: string): Option<Inline> { Find(Table(), key) }

  lemma {:induction false} FirstKeysFind(n: nat, key: string)
    requires n <= 48
    ensures Find(FirstKeys(n), key).Some? ==>
            Find(FirstKeys(n), key).value < n && KeyOf(Find(FirstKeys(n), key).value) == key
    ensures forall x: Inline :: x < n && KeyOf(x) == key ==> Find(FirstKeys(n), key) == Some(x)
  {
    hide KeyOf;
    if n == 0 {
      FindEmpty(key);
    } else {
      FirstKeysFind(n - 1, key);
      FindAdded(FirstKeys(n - 1), KeyOf(n - 1), n - 1, key);
      forall x: Inline | x < n && KeyOf(x) == key
        ensures Find(FirstKeys(n), key) == Some(x)
      {
        if KeyOf(n - 1) == key { KeyInjective(n - 1, x); }
      }
    }
  }

  /** The table finds exactly the canonical keys, each with its own slot, and "host". */
  lemma {:induction false} SlotExact(key: string, x: Inline)
    ensures SlotOf(key) == Some(x) <==> key == KeyOf(x) || (key == HOST_LEGACY && x == HOST_SLOT)
  {
    hide KeyOf, FirstKeys, Find;
    FirstKeysFind(48, key);
    FindAdded(FirstKeys(48), HOST_LEGACY, HOST_SLOT, key);
    HostIsNoKey(x);
  }
}
