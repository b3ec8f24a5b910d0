/**
 * The filter chain of a session: a doubly linked list between two fixed ends with an index by name, and the
 * builder chains are made from. Both are proved against one sequence of named filters.
 */
module FilterChain {
  import opened Chars

  /** A filter object, told apart by its identity. */
  datatype Filter = Filter(id: nat)

  datatype Named = Named(name: string, filter: Filter)

  // ---------------------------------------------------------------- sequences of named filters

  /** The first place of a filter called `name`. */
  function IndexOf(l: seq<Named>, name: string): (r: Option<nat>)
    ensures r.Some? ==> r.value < |l| && l[r.value].name == name && forall i :: 0 <= i < r.value ==> l[i].name != name
    ensures r.None? ==> forall i :: 0 <= i < |l| ==> l[i].name != name
  {
    if l == [] then None
    else if l[0].name == name then Some(0)
    else var r := IndexOf(l[1..], name); if r.None? then None else Some(r.value + 1)
  }

  predicate Distinct(l: seq<Named>) { forall i, j :: 0 <= i < j < |l| ==> l[i].name != l[j].name }

  function Inserted(l: seq<Named>, i: nat, n: Named): seq<Named>
    requires i <= |l|
  {
    l[..i] + [n] + l[i..]
  }

  function Removed(l: seq<Named>, i: nat): seq<Named>
    requires i < |l|
  {
    l[..i] + l[i + 1..]
  }

  /** Only the place that has the name. */
  lemma {:induction false} PlaceOf(l: seq<Named>, i: nat)
    requires Distinct(l) && i < |l|
    ensures IndexOf(l, l[i].name) == Some(i)
  {
  }

  /** The filters an event reaches: all up to the first that does not pass it on. */
  function Reached(l: seq<Named>, passes: Filter -> bool): seq<Filter> {
    if l == [] then []
    else if passes(l[0].filter) then [l[0].filter] + Reached(l[1..], passes)
    else [l[0].filter]
  }

  /**
   * These are the first filters in their order; each but the last passes the event on, and the last does if it is the
   * end.
   */
  lemma {:induction false} ReachedFirst(l: seq<Named>, passes: Filter -> bool)
    ensures var r := Reached(l, passes);
            && |r| <= |l| && (forall i :: 0 <= i < |r| ==> r[i] == l[i].filter)
            && (forall i :: 0 <= i < |r| - 1 ==> passes(r[i]))
            && (|r| < |l| ==> r != [] && !passes(r[|r| - 1]))
  {
    if l != [] { ReachedFirst(l[1..], passes); }
  }

  // ---------------------------------------------------------------- the linked list

  class Entry {
    const name: string
    const filter: Filter
    var prev: Entry?
    var next: Entry?

    constructor (prev: Entry?, next: Entry?, name: string, filter: Filter)
      ensures this.prev == prev && this.next == next && this.name == name && this.filter == filter
    {
      this.prev, this.next, this.name, this.filter := prev, next, name, filter;
    }
  }

  /** Forward and backward links describe one sequence of entries. */
  ghost predicate Linked(all: seq<Entry>)
    reads all
  {
    && (forall i, j :: 0 <= i < j < |all| ==> all[i] != all[j])
    && (forall i :: 0 <= i < |all| ==> all[i].next == After(all, i))
    && (forall i :: 0 <= i < |all| ==> all[i].prev == Before(all, i))
  }

  function After(all: seq<Entry>, i: nat): Entry? { if i + 1 < |all| then all[i + 1] else null }

  function Before(all: seq<Entry>, i: nat): Entry? { if 0 < i <= |all| then all[i - 1] else null }

  lemma {:induction false} SplicedAt(all: seq<Entry>, k: nat, e: Entry, i: nat)
    requires k <= |all| && i <= |all|
    ensures (all[..k] + [e] + all[k..])[i] == if i < k then all[i] else if i == k then e else all[i - 1]
  {
  }

  /** The neighbours in the longer list. */
  lemma {:induction false} SplicedLinks(all: seq<Entry>, k: nat, e: Entry, i: nat)
    requires 0 < k < |all| && i <= |all|
    ensures var r := all[..k] + [e] + all[k..];
            && After(r, i) == (if i == k - 1 then e else if i == k then all[k] else After(all, if i < k then i else i - 1))
            && Before(r, i) ==
               (if i == k + 1 then e else if i == k then all[k - 1] else Before(all, if i < k then i else i - 1))
  {
  }

  lemma {:induction false} UnlinkedAt(all: seq<Entry>, k: nat, i: nat)
    requires 0 < k < |all| - 1 && i + 1 < |all|
    ensures var r := all[..k] + all[k + 1..]; var j := if i < k then i else i + 1;
            && r[i] == all[j]
            && After(r, i) == (if j == k - 1 then all[k + 1] else After(all, j))
            && Before(r, i) == (if j == k + 1 then all[k - 1] else Before(all, j))
  {
  }

  /** The new entry `e` is linked in before place `k`. */
  method Splice(prevEntry: Entry, e: Entry, ghost all: seq<Entry>, ghost k: nat)
    requires Linked(all) && 0 < k < |all| && prevEntry == all[k - 1] && e !in all
    requires e.prev == prevEntry && e.next == prevEntry.next
    modifies all
    ensures Linked(all[..k] + [e] + all[k..])
  {
    var next := prevEntry.next;
    assert next == all[k];
    next.prev := e;
    prevEntry.next := e;
    forall j | 0 <= j < |all|
      ensures all[j].next == (if j == k - 1 then e else After(all, j))
      ensures all[j].prev == (if j == k then e else Before(all, j))
    {
    }
    ghost var r := all[..k] + [e] + all[k..];
    forall i | 0 <= i < |r|
      ensures r[i].next == After(r, i) && r[i].prev == Before(r, i)
    {
      SplicedAt(all, k, e, i);
      SplicedLinks(all, k, e, i);
    }
    forall i, j | 0 <= i < j < |r|
      ensures r[i] != r[j]
    {
      SplicedAt(all, k, e, i);
      SplicedAt(all, k, e, j);
    }
  }

  lemma {:induction false} Neighbours(all: seq<Entry>, k: nat)
    requires 0 < k < |all| - 1
    ensures After(all, k) == all[k + 1] && Before(all, k) == all[k - 1]
  {
  }

  /** Entry `k` is taken out. */
  method Unlink(entry: Entry, ghost all: seq<Entry>, ghost k: nat)
    requires Linked(all) && 0 < k < |all| - 1 && entry == all[k]
    modifies all
    ensures Linked(all[..k] + all[k + 1..])
  {
    hide After, Before;
    Neighbours(all, k);
    var prevEntry, nextEntry := entry.prev, entry.next;
    prevEntry.next := nextEntry;
    nextEntry.prev := prevEntry;
    forall j | 0 <= j < |all| && j != k
      ensures all[j].next == (if j == k - 1 then all[k + 1] else After(all, j))
      ensures all[j].prev == (if j == k + 1 then all[k - 1] else Before(all, j))
    {
    }
    ghost var r := all[..k] + all[k + 1..];
    forall i | 0 <= i < |r|
      ensures r[i].next == After(r, i) && r[i].prev == Before(r, i)
    {
      UnlinkedAt(all, k, i);
    }
    forall i, j | 0 <= i < j < |r|
      ensures r[i] != r[j]
    {
      UnlinkedAt(all, k, i);
      UnlinkedAt(all, k, j);
    }
  }

  /** The index by name holds the entries of the list, each under its name, and nothing else. */
  ghost predicate Indexed(inner: seq<Entry>, index: map<string, Entry>) {
    && (forall e :: e in inner ==> e.name in index && index[e.name] == e)
    && (forall n :: n in index ==> index[n] in inner && index[n].name == n)
  }

  function NamedOf(e: Entry): Named { Named(e.name, e.filter) }

  /** The named filters of a sequence of entries. */
  function FiltersOf(inner: seq<Entry>): (l: seq<Named>)
    ensures |l| == |inner| && forall i :: 0 <= i < |l| ==> l[i] == NamedOf(inner[i])
  {
    seq(|inner|, i requires 0 <= i < |inner| => NamedOf(inner[i]))
  }

  lemma {:induction false} IndexWith(inner: seq<Entry>, index: map<string, Entry>, at: nat, e: Entry)
    requires Indexed(inner, index) && at <= |inner| && e.name !in index
    ensures Indexed(inner[..at] + [e] + inner[at..], index[e.name := e])
    ensures FiltersOf(inner[..at] + [e] + inner[at..]) == Inserted(FiltersOf(inner), at, NamedOf(e))
  {
    var r := inner[..at] + [e] + inner[at..];
    assert forall x :: x in inner ==> x in r by {
      forall x | x in inner ensures x in r {
        var i :| 0 <= i < |inner| && inner[i] == x;
        assert r[if i < at then i else i + 1] == x;
      }
    }
    assert r[at] == e;
  }

  lemma {:induction false} IndexWithout(inner: seq<Entry>, index: map<string, Entry>, at: nat)
    requires Indexed(inner, index) && at < |inner| && Distinct(FiltersOf(inner))
    ensures Indexed(inner[..at] + inner[at + 1..], index - {inner[at].name})
    ensures FiltersOf(inner[..at] + inner[at + 1..]) == Removed(FiltersOf(inner), at)
  {
    var r := inner[..at] + inner[at + 1..];
    OthersStay(inner, at);
    forall n | n in index && n != inner[at].name
      ensures index[n] in r
    {
      var k :| 0 <= k < |inner| && inner[k] == index[n];
      assert k != at;
      assert r[if k < at then k else k - 1] == inner[k];
    }
  }

  /** What is left after removing place `at` has other names. */
  lemma {:induction false} OthersStay(inner: seq<Entry>, at: nat)
    requires at < |inner| && Distinct(FiltersOf(inner))
    ensures forall e :: e in inner[..at] + inner[at + 1..] ==> e in inner && e.name != inner[at].name
  {
    var l := FiltersOf(inner);
    assert l[at].name == inner[at].name;
    forall e | e in inner[..at]
      ensures e in inner && e.name != inner[at].name
    {
      var i :| 0 <= i < at && inner[i] == e;
      assert l[i].name == e.name;
    }
    forall e | e in inner[at + 1..]
      ensures e in inner && e.name != inner[at].name
    {
      var i :| 0 <= i < |inner| - at - 1 && inner[at + 1..][i] == e;
      assert inner[at + 1 + i] == e && l[at + 1 + i].name == e.name;
    }
  }

  class EIoFilterChain {
    const head: Entry
    const tail: Entry
    var name2entry: map<string, Entry>
    ghost var inner: seq<Entry>     // the entries between head and tail

    ghost function All(): seq<Entry>
      reads this
    {
      [head] + inner + [tail]
    }

    ghost predicate Valid()
      reads this, All()
    {
      Linked(All()) && Indexed(inner, name2entry)
    }

    /** The chain as a sequence. */
    ghost function Filters(): (l: seq<Named>)
      reads this
      ensures |l| == |inner|
    {
      FiltersOf(inner)
    }

    constructor ()
      ensures Valid() && Filters() == [] && fresh(head) && fresh(tail)
    {
      var h := new Entry(null, null, "head", Filter(0));
      var t := new Entry(h, null, "tail", Filter(0));
      h.next := t;
      head, tail, name2entry, inner := h, t, map[], [];
    }

    /** Names in a chain are distinct. */
    lemma {:induction false} NamesDistinct()
      requires Valid()
      ensures Distinct(Filters())
    {
      hide FiltersOf, After, Before;
      forall i, j | 0 <= i < j < |inner|
        ensures Filters()[i].name != Filters()[j].name
      {
        assert All()[i + 1] == inner[i] && All()[j + 1] == inner[j];
        assert Filters()[i] == NamedOf(inner[i]) && Filters()[j] == NamedOf(inner[j]);
      }
    }

    /** `getEntry(name)`: the index finds what a search of the list would. */
    method GetEntry(name: string) returns (e: Entry?)
      requires Valid()
      ensures e == null <==> IndexOf(Filters(), name).None?
      ensures e != null ==> IndexOf(Filters(), name).Some? && e == inner[IndexOf(Filters(), name).value]
    {
      NamesDistinct();
      if name !in name2entry {
        forall i | 0 <= i < |inner|
          ensures Filters()[i].name != name
        {
          assert inner[i] in inner;
        }
        return null;
      }
      e := name2entry[name];
      ghost var i: nat :| i < |inner| && inner[i] == e;
      PlaceOf(Filters(), i);
    }

    /** The walk from the head is at the tail only behind the last entry. */
    lemma {:induction false} EndOnly(at: nat)
      requires Valid() && at <= |inner|
      ensures All()[at + 1] == tail <==> at == |inner|
    {
      assert All()[|inner| + 1] == tail;
    }

    /** `getEntry(filter)`: the walk from the head. */
    method GetEntryOf(filter: Filter) returns (e: Entry?, ghost at: nat)
      requires Valid()
      ensures e == null ==> forall i :: 0 <= i < |inner| ==> inner[i].filter != filter
      ensures e != null ==> at < |inner| && e == inner[at] && e.filter == filter &&
                            forall i :: 0 <= i < at ==> inner[i].filter != filter
    {
      at := 0;
      assert All()[0] == head && All()[|inner| + 1] == tail;
      assert All()[1] == if inner == [] then tail else inner[0];
      var cur := head.next;
      while cur != tail
        invariant at <= |inner| && cur == All()[at + 1]
        invariant forall i :: 0 <= i < at ==> inner[i].filter != filter
        decreases |inner| - at
      {
        if at == |inner| { assert false; }
        assert All()[at + 1] == inner[at] && All()[at + 1].next == All()[at + 2];
        if cur.filter == filter { return cur, at; }
        cur := cur.next;
        at := at + 1;
      }
      EndOnly(at);
      e := null;
    }

    /** `register_`: a new entry behind `prevEntry`, which stands before place `at`. */
    method Register(prevEntry: Entry, name: string, filter: Filter, ghost at: nat)
      requires Valid() && name !in name2entry && at <= |inner| && prevEntry == All()[at]
      modifies this`name2entry, this`inner, All()
      ensures Valid() && Filters() == Inserted(old(Filters()), at, Named(name, filter))
      ensures fresh(set e | e in All() && e !in old(All()))
    {
      hide Linked, Indexed, FiltersOf;
      ghost var all := All();
      NextInOrder(at);
      var e := new Entry(prevEntry, prevEntry.next, name, filter);
      Splice(prevEntry, e, all, at + 1);
      IndexWith(inner, name2entry, at, e);
      name2entry := name2entry[name := e];
      inner := inner[..at] + [e] + inner[at..];
      assert All() == all[..at + 1] + [e] + all[at + 1..];
    }

    lemma {:induction false} NextInOrder(at: nat)
      requires Valid() && at <= |inner|
      ensures All()[at].next == All()[at + 1] && All()[at + 1].prev == All()[at]
    {
    }

    /** `deregister`. */
    method Deregister(entry: Entry, ghost at: nat)
      requires Valid() && at < |inner| && entry == inner[at]
      modifies this`name2entry, this`inner, All()
      ensures Valid() && Filters() == Removed(old(Filters()), at) && All() == old(All())[..at + 1] + old(All())[at + 2..]
    {
      hide Linked, Indexed, FiltersOf;
      ghost var all := All();
      assert all[at + 1] == entry;
      NamesDistinct();
      IndexWithout(inner, name2entry, at);
      Unlink(entry, all, at + 1);
      name2entry := name2entry - {entry.name};
      inner := inner[..at] + inner[at + 1..];
      assert All() == all[..at + 1] + all[at + 2..];
    }

    method AddFirst(name: string, filter: Filter) returns (ok: bool)
      requires Valid()
      modifies this`name2entry, this`inner, All()
      ensures Valid() && fresh(set e | e in All() && e !in old(All()))
      ensures ok == IndexOf(old(Filters()), name).None?
      ensures Filters() == if ok then Inserted(old(Filters()), 0, Named(name, filter)) else old(Filters())
    {
      hide Indexed, FiltersOf, Distinct, After, Before;
      ok := CheckAddable(name);
      if ok { Register(head, name, filter, 0); }
    }

    method AddLast(name: string, filter: Filter) returns (ok: bool)
      requires Valid()
      modifies this`name2entry, this`inner, All()
      ensures Valid() && fresh(set e | e in All() && e !in old(All()))
      ensures ok == IndexOf(old(Filters()), name).None?
      ensures Filters() == if ok then old(Filters()) + [Named(name, filter)] else old(Filters())
    {
      hide Indexed, FiltersOf, Distinct, After, Before;
      ok := CheckAddable(name);
      NextInOrder(|inner|);
      if ok {
        Register(tail.prev, name, filter, |inner|);
        assert Filters() == old(Filters()) + [Named(name, filter)];
      }
    }

    method AddBefore(baseName: string, name: string, filter: Filter) returns (ok: bool)
      requires Valid()
      modifies this`name2entry, this`inner, All()
      ensures Valid() && fresh(set e | e in All() && e !in old(All()))
      ensures var base := IndexOf(old(Filters()), baseName);
              && ok == (base.Some? && IndexOf(old(Filters()), name).None?)
              && Filters() == if ok then Inserted(old(Filters()), base.value, Named(name, filter)) else old(Filters())
    {
      hide Indexed, FiltersOf, Distinct, After, Before;
      var e := GetEntry(baseName);
      if e == null { return false; }
      ok := CheckAddable(name);
      ghost var at := IndexOf(Filters(), baseName).value;
      NextInOrder(at);
      if ok { Register(e.prev, name, filter, at); }
    }

    method AddAfter(baseName: string, name: string, filter: Filter) returns (ok: bool)
      requires Valid()
      modifies this`name2entry, this`inner, All()
      ensures Valid() && fresh(set e | e in All() && e !in old(All()))
      ensures var base := IndexOf(old(Filters()), baseName);
              && ok == (base.Some? && IndexOf(old(Filters()), name).None?)
              && Filters() == if ok then Inserted(old(Filters()), base.value + 1, Named(name, filter)) else old(Filters())
    {
      hide Indexed, FiltersOf, Distinct, After, Before;
      var e := GetEntry(baseName);
      if e == null { return false; }
      ok := CheckAddable(name);
      ghost var at := IndexOf(Filters(), baseName).value;
      assert All()[at + 1] == inner[at];
      if ok { Register(e, name, filter, at + 1); }
    }

    /** `remove(name)`; None stands for the exception. */
    method Remove(name: string) returns (r: Option<Filter>)
      requires Valid()
      modifies this`name2entry, this`inner, All()
      ensures Valid() && forall e :: e in All() ==> e in old(All())
      ensures var at := IndexOf(old(Filters()), name);
              && (at.None? ==> r.None? && Filters() == old(Filters()))
              && (at.Some? ==> r == Some(old(Filters())[at.value].filter) && Filters() == Removed(old(Filters()), at.value))
    {
      var e := GetEntry(name);
      if e == null { return None; }
      Deregister(e, IndexOf(Filters(), name).value);
      return Some(e.filter);
    }

    /** `remove(filter)`: the first entry that holds the filter goes. */
    method RemoveFilter(filter: Filter) returns (ok: bool, ghost at: nat)
      requires Valid()
      modifies this`name2entry, this`inner, All()
      ensures Valid() && forall e :: e in All() ==> e in old(All())
      ensures !ok ==>
                && Filters() == old(Filters())
                && forall i :: 0 <= i < |old(Filters())| ==> old(Filters())[i].filter != filter
      ensures ok ==>
                && at < |old(Filters())| && old(Filters())[at].filter == filter
                && Filters() == Removed(old(Filters()), at)
                && forall i :: 0 <= i < at ==> old(Filters())[i].filter != filter
    {
      var e;
      e, at := GetEntryOf(filter);
      if e == null {
        forall i | 0 <= i < |inner| ensures Filters()[i].filter != filter { assert inner[i].filter != filter; }
        return false, at;
      }
      forall i | 0 <= i < at ensures Filters()[i].filter != filter { assert inner[i].filter != filter; }
      Deregister(e, at);
      ok := true;
    }

    /** `checkAddable`. */
    method CheckAddable(name: string) returns (ok: bool)
      requires Valid()
      ensures ok == (name !in name2entry) == IndexOf(Filters(), name).None?
    {
      ok := name !in name2entry;
      var e := GetEntry(name);
      if !ok {
        var x := name2entry[name];
        ghost var i: nat :| i < |inner| && inner[i] == x;
        assert Filters()[i].name == name;
      }
    }

    /** `fireSessionCreated` and its like: from the head, each filter that passes the event on hands it to the next. */
    method Fire(passes: Filter -> bool) returns (reached: seq<Filter>)
      requires Valid()
      ensures reached == Reached(Filters(), passes)
    {
      assert All()[0] == head && All()[1] == head.next;
      reached := CallNext(head.next, passes, 0);
      assert Filters()[0..] == Filters();
    }

    /** `callNext*` at place `at`: the adapter at the tail ends the walk. */
    method CallNext(entry: Entry, passes: Filter -> bool, ghost at: nat) returns (reached: seq<Filter>)
      requires Valid() && at <= |inner| && entry == All()[at + 1]
      ensures reached == Reached(Filters()[at..], passes)
      decreases |inner| - at
    {
      assert All()[|inner| + 1] == tail;
      if entry == tail {
        EndOnly(at);
        return [];
      }
      assert at < |inner| && entry == inner[at] && entry.next == All()[at + 2];
      reached := [entry.filter];
      if passes(entry.filter) {
        var more := CallNext(entry.next, passes, at + 1);
        reached := reached + more;
      }
    }
  }

  // ---------------------------------------------------------------- the builder

  class EIoFilterChainBuilder {
    var entries: seq<Named>

    ghost predicate Valid()
      reads this
    {
      Distinct(entries)
    }

    constructor ()
      ensures Valid() && entries == []
    {
      entries := [];
    }

    /** `getEntry(name)`: the search through the list. */
    method Find(name: string) returns (at: Option<nat>)
      ensures at == IndexOf(entries, name)
    {
      var i := 0;
      assert entries[0..] == entries;
      while i < |entries|
        invariant 0 <= i <= |entries|
        invariant IndexOf(entries, name) == match IndexOf(entries[i..], name) case None => None case Some(k) => Some(i + k)
      {
        if entries[i].name == name { return Some(i); }
        assert entries[i..][1..] == entries[i + 1..];
        i := i + 1;
      }
      return None;
    }

    /** `register_`: at a place, unless the name is taken. */
    method Register(at: nat, n: Named) returns (ok: bool)
      requires Valid() && at <= |entries|
      modifies this
      ensures Valid() && ok == IndexOf(old(entries), n.name).None?
      ensures entries == if ok then Inserted(old(entries), at, n) else old(entries)
    {
      var taken := Find(n.name);
      if taken.Some? { return false; }
      entries := entries[..at] + [n] + entries[at..];
      ok := true;
    }

    method AddFirst(name: string, filter: Filter) returns (ok: bool)
      requires Valid()
      modifies this
      ensures Valid() && ok == IndexOf(old(entries), name).None?
      ensures entries == if ok then Inserted(old(entries), 0, Named(name, filter)) else old(entries)
    {
      ok := Register(0, Named(name, filter));
    }

    method AddLast(name: string, filter: Filter) returns (ok: bool)
      requires Valid()
      modifies this
      ensures Valid() && ok == IndexOf(old(entries), name).None?
      ensures entries == if ok then old(entries) + [Named(name, filter)] else old(entries)
    {
      ok := Register(|entries|, Named(name, filter));
    }

    /** `addBefore` and `addAfter`, which differ in the index of the list iterator they use. */
    method AddBeside(baseName: string, name: string, filter: Filter, after: bool) returns (ok: bool)
      requires Valid()
      modifies this
      ensures Valid()
      ensures var base := IndexOf(old(entries), baseName);
              && ok == (base.Some? && IndexOf(old(entries), name).None?)
              && entries == if ok then Inserted(old(entries), base.value + (if after then 1 else 0), Named(name, filter))
                            else old(entries)
    {
      var base := Find(baseName);
      if base.None? { return false; }
      ok := Register(base.value + if after then 1 else 0, Named(name, filter));
    }

    method Remove(name: string) returns (r: Option<Filter>)
      requires Valid()
      modifies this
      ensures Valid()
      ensures var at := IndexOf(old(entries), name);
              && (at.None? ==> r.None? && entries == old(entries))
              && (at.Some? ==> r == Some(old(entries)[at.value].filter) && entries == Removed(old(entries), at.value))
    {
      var at := Find(name);
      if at.None? { return None; }
      r := Some(entries[at.value].filter);
      entries := entries[..at.value] + entries[at.value + 1..];
    }

    /** `buildFilterChain` into a fresh chain: no name is refused, and the chain has the builder's exact sequence. */
    method BuildFilterChain(chain: EIoFilterChain) returns (refused: bool)
      requires Valid() && chain.Valid() && chain.Filters() == []
      modifies chain, chain.All()
      ensures chain.Valid() && !refused && chain.Filters() == entries
    {
      hide Distinct, Linked, Indexed, FiltersOf, EIoFilterChain.Valid, EIoFilterChain.Filters, IndexOf;
      refused := false;
      var i := 0;
      while i < |entries|
        invariant 0 <= i <= |entries| && chain.Valid() && !refused && chain.Filters() == entries[..i]
        invariant fresh(set e | e in chain.All() && e !in old(chain.All()))
      {
        NewName(entries, i);
        var ok := chain.AddLast(entries[i].name, entries[i].filter);
        refused := refused || !ok;
        assert entries[..i + 1] == entries[..i] + [entries[i]];
        i := i + 1;
      }
      assert entries[..i] == entries;
    }
  }

  lemma {:induction false} NewName(l: seq<Named>, i: nat)
    requires Distinct(l) && i < |l|
    ensures IndexOf(l[..i], l[i].name).None?
  {
  }
}
