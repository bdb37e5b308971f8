/** The iterator of dict.c, whose user may delete the entry it just returned. */
module DictIteration {
  import opened Bytes
  import opened DictTable
  import opened Dict

  class DictIterator {
    const ht: Dict
    var index: int
    var entry: Entry?
    var nextEntry: Entry?
    /** What follows the returned entry in its chain. */
    ghost var rest: seq<Entry>

    /** dictGetIterator. */
    constructor (ht: Dict)
      requires ht.Valid()
      ensures this.ht == ht && Valid() && Ahead() == ht.entries
    {
      this.ht := ht;
      index, entry, nextEntry, rest := -1, null, null, [];
    }

    ghost predicate Valid()
      reads this, ht`size, ht`chains
    {
      && -1 <= index && |ht.chains| == ht.size && nextEntry == At(rest, 0)
      && (entry == null ==> rest == [])
      && (entry != null ==> 0 <= index < ht.size && Suffix(rest, ht.chains[index]))
    }

    /** The entries not visited yet. */
    ghost function Ahead(): set<Entry>
      reads this, ht`size, ht`entries
    {
      Left(ht, rest, index)
    }

    lemma RestChain(r: seq<Entry>)
      requires ht.Valid() && 0 <= index < ht.size == |ht.chains| && Suffix(r, ht.chains[index]) && r != []
      ensures Distinct(r) && forall e <- r :: Slot(ht.hash, e.key, ht.size) == index
      ensures r[0].next == At(r[1..], 0) && Suffix(r[1..], ht.chains[index])
    {
      var c := ht.chains[index];
      ht.ChainAt(index);
      var d := |c| - |r|;
      assert forall x :: 0 <= x < |r| ==> r[x] == c[d + x];
      assert c[d].next == At(c, d + 1);
    }

    /** The chain of the next slot, if there is one. */
    method NextSlot() returns (more: bool)
      requires Valid() && ht.Valid() && entry == null
      modifies this
      ensures index == old(index) + 1 && (more <==> index < ht.size) && nextEntry == null
      ensures !more ==> Valid() && old(Left(ht, rest, index)) == {}
      ensures more ==>
                && entry == At(rest, 0) && Suffix(rest, ht.chains[index])
                && Left(ht, rest, index) == old(Left(ht, rest, index))
    {
      hide Dict.Valid, Slot, Suffix, Left;
      index := index + 1;
      more := index < ht.size;
      if more {
        NewChain(ht, index);
        entry := ht.table[index];
        rest := ht.chains[index];
      } else {
        NothingLeft(ht, index - 1);
      }
    }

    /** The entry is returned; what follows it is kept. */
    method Take()
      requires ht.Valid() && entry != null && entry == At(rest, 0)
      requires 0 <= index < ht.size == |ht.chains| && Suffix(rest, ht.chains[index])
      modifies this
      ensures Valid() && index == old(index) && entry == old(entry)
      ensures entry in old(Left(ht, rest, index)) && Left(ht, rest, index) == old(Left(ht, rest, index)) - {entry}
    {
      hide Dict.Valid, Slot, Suffix, Left, Distinct;
      RestChain(rest);
      LeftTake(ht, rest, index);
      nextEntry := entry.next;
      rest := rest[1..];
    }

    /** dictNext: an entry not visited yet, or null if there is none. */
    method Next() returns (e: Entry?)
      requires Valid() && ht.Valid()
      modifies this
      ensures Valid() && (e == null ==> old(Ahead()) == {})
      ensures e != null ==> e in old(Ahead()) && Ahead() == old(Ahead()) - {e} && e == entry
    {
      hide Dict.Valid, Slot, Suffix, Left;
      while true
        invariant Valid() && Left(ht, rest, index) == old(Ahead())
        decreases ht.size - index, entry != null
      {
        if entry == null {
          var more := NextSlot();
          if !more {
            return null;
          }
        } else {
          entry := nextEntry;
        }
        if entry != null {
          Take();
          return entry;
        }
      }
    }
  }

  /** The entries in rest, and those in slots beyond i. */
  ghost function Left(ht: Dict, rest: seq<Entry>, i: int): set<Entry>
    reads ht`size, ht`entries
  {
    LeftOf(ht.hash, ht.size, ht.entries, rest, i)
  }

  ghost function LeftOf(hash: Hash, size: nat, entries: set<Entry>, rest: seq<Entry>, i: int): set<Entry> {
    SetOf(rest) + set e | e in entries && size > 0 && Slot(hash, e.key, size) > i
  }

  lemma LeftKept(hash: Hash, size: nat, entries: set<Entry>, rest: seq<Entry>, i: int, e: Entry)
    requires e !in LeftOf(hash, size, entries, rest, i)
    ensures e !in rest && LeftOf(hash, size, entries - {e}, rest, i) == LeftOf(hash, size, entries, rest, i)
  {
  }

  lemma NothingLeft(ht: Dict, i: int)
    requires ht.Valid() && i + 1 >= ht.size
    ensures Left(ht, [], i) == {}
  {
  }

  /** A slot whose chain begins. */
  lemma NewChain(ht: Dict, i: int)
    requires ht.Valid() && 0 <= i < ht.size
    ensures |ht.chains| == ht.size == ht.table.Length
    ensures ht.table[i] == At(ht.chains[i], 0) && Suffix(ht.chains[i], ht.chains[i])
    ensures Left(ht, [], i - 1) == Left(ht, ht.chains[i], i)
  {
    ht.ChainAt(i);
    assert forall e <- ht.entries :: Slot(ht.hash, e.key, ht.size) == i ==> e in ht.chains[i];
  }

  lemma LeftTake(ht: Dict, rest: seq<Entry>, i: int)
    requires rest != [] && Distinct(rest) && ht.size > 0
    requires forall e <- rest :: Slot(ht.hash, e.key, ht.size) == i
    ensures rest[0] in Left(ht, rest, i) && Left(ht, rest[1..], i) == Left(ht, rest, i) - {rest[0]}
  {
  }

  ghost predicate Suffix(r: seq<Entry>, c: seq<Entry>) {
    |r| <= |c| && c[|c| - |r|..] == r
  }

  /** Taking out an entry that is not in the suffix. */
  lemma SuffixKept(r: seq<Entry>, c: seq<Entry>, j: nat)
    requires Suffix(r, c) && j < |c| && c[j] !in r
    ensures Suffix(r, c[..j] + c[j + 1..])
  {
    var d := |c| - |r|;
    assert forall x :: d <= x < |c| ==> c[x] == r[x - d];
    assert (c[..j] + c[j + 1..])[d - 1..] == c[d..];
  }

  /** The iterator goes on after the entry it returned is deleted. */
  method DeleteReturned(iter: DictIterator) returns (ok: bool)
    requires iter.Valid() && iter.ht.Valid() && iter.entry != null
    requires iter.entry in iter.ht.entries && iter.entry !in iter.Ahead()
    modifies iter.ht, iter.ht.table, iter.ht.entries`next
    ensures iter.Valid() && iter.ht.Valid() && iter.Ahead() == old(iter.Ahead())
    ensures iter.ht.Model() == old(iter.ht.Model()) - {iter.entry.key}
    ensures iter.ht.table == old(iter.ht.table)
    ensures ok && iter.ht.entries == old(iter.ht.entries) - {iter.entry}
  {
    hide Dict.Valid, LeftOf, Suffix, Dict.Model;
    var ht, e := iter.ht, iter.entry;
    Entered(ht, e);
    LeftKept(ht.hash, ht.size, ht.entries, iter.rest, iter.index, e);
    ghost var h, j;
    ghost var c := ht.chains[iter.index];
    ok, h, j := ht.Delete(e.key);
    if h == iter.index {
      SuffixKept(iter.rest, c, j);
    }
  }

  lemma Entered(ht: Dict, e: Entry)
    requires ht.Valid() && e in ht.entries
    ensures e.key in ht.index && ht.index[e.key] == e
  {
  }

  /** The keys of some entries that are to be deleted. */
  ghost function Gone(visited: seq<Entry>, doomed: set<bytes>): set<bytes> {
    set e | e in visited && e.key in doomed :: e.key
  }

  ghost function Kept(was: set<Entry>, visited: seq<Entry>, doomed: set<bytes>): set<Entry> {
    set e | e in was && (e in visited ==> e.key !in doomed)
  }

  lemma GoneMore(was: set<Entry>, visited: seq<Entry>, e: Entry, doomed: set<bytes>)
    requires e in was && e !in visited
    ensures e in Kept(was, visited, doomed) && Kept(was, visited, doomed) <= was
    ensures Gone(visited + [e], doomed) == Gone(visited, doomed) + (if e.key in doomed then {e.key} else {})
    ensures Kept(was, visited + [e], doomed) == Kept(was, visited, doomed) - (if e.key in doomed then {e} else {})
  {
  }

  lemma NoneGone(was: set<Entry>, doomed: set<bytes>, m: map<bytes, Pointer>)
    ensures Kept(was, [], doomed) == was && m - Gone([], doomed) == m
  {
  }

  lemma AllGone(m: map<bytes, Pointer>, index: map<bytes, Entry>, visited: seq<Entry>, doomed: set<bytes>)
    requires m.Keys == index.Keys && forall k <- index :: index[k] in visited && index[k].key == k
    ensures m - Gone(visited, doomed) == m - doomed
  {
    forall k | k in m && k in doomed ensures k in Gone(visited, doomed) {
      assert index[k] in visited && index[k].key == k;
    }
  }

  lemma IndexCovers(ht: Dict)
    requires ht.Valid()
    ensures ht.Model().Keys == ht.index.Keys
    ensures forall k <- ht.index :: ht.index[k] in ht.entries && ht.index[k].key == k
  {
  }

  lemma DistinctNone()
    ensures Distinct([]) && SetOf([]) == {}
  {
  }

  lemma DistinctMore(c: seq<Entry>, e: Entry)
    requires Distinct(c) && e !in c
    ensures Distinct(c + [e]) && SetOf(c + [e]) == SetOf(c) + {e}
  {
  }

  lemma TwoLess(m: map<bytes, Pointer>, a: set<bytes>, b: set<bytes>)
    ensures m - a - b == m - (a + b)
  {
  }

  /** The entries in visited were returned, and of those the doomed deleted. */
  ghost predicate Visiting(iter: DictIterator, was: set<Entry>, visited: seq<Entry>, doomed: set<bytes>,
                           model: map<bytes, Pointer>)
    reads iter, iter.ht, iter.ht.table, iter.ht.entries`next, iter.ht.index.Values`val
  {
    && iter.Valid() && iter.ht.Valid()
    && Distinct(visited) && SetOf(visited) !! iter.Ahead() && SetOf(visited) + iter.Ahead() == was
    && iter.ht.entries == Kept(was, visited, doomed) && iter.ht.Model() == model - Gone(visited, doomed)
  }

  /** The next entry, deleted if it is doomed. */
  method VisitNext(iter: DictIterator, ghost was: set<Entry>, ghost visited: seq<Entry>, doomed: set<bytes>,
                   ghost model: map<bytes, Pointer>)
    returns (e: Entry?)
    requires Visiting(iter, was, visited, doomed, model)
    modifies iter, iter.ht, iter.ht.table, iter.ht.entries`next
    ensures iter.ht.table == old(iter.ht.table)
    ensures if e == null then old(iter.Ahead()) == {} && iter.ht.Model() == old(iter.ht.Model()) && iter.ht.Valid()
            else e in was && iter.Ahead() < old(iter.Ahead()) && Visiting(iter, was, visited + [e], doomed, model)
    ensures iter.ht.entries <= old(iter.ht.entries)
  {
    hide Dict.Valid, Dict.Model, DictIterator.Valid, DictIterator.Ahead, Kept, Gone, Distinct;
    e := iter.Next();
    if e != null {
      GoneMore(was, visited, e, doomed);
      if e.key in doomed {
        var ok := DeleteReturned(iter);
        TwoLess(model, Gone(visited, doomed), {e.key});
      }
      DistinctMore(visited, e);
    }
  }

  /** A whole iteration that deletes some entries as they come visits every entry once. */
  method VisitAll(ht: Dict, doomed: set<bytes>) returns (ghost visited: seq<Entry>)
    requires ht.Valid()
    modifies ht, ht.table, ht.entries`next
    ensures Distinct(visited) && SetOf(visited) == old(ht.entries)
    ensures ht.Valid() && ht.Model() == old(ht.Model()) - doomed
  {
    hide Dict.Valid, Dict.Model, DictIterator.Valid, DictIterator.Ahead, Kept, Gone, Distinct;
    visited := [];
    ghost var was, model, index := ht.entries, ht.Model(), ht.index;
    IndexCovers(ht);
    var iter := new DictIterator(ht);
    NoneGone(was, doomed, model);
    DistinctNone();
    while true
      invariant iter.ht == ht && fresh(iter) && ht.table == old(ht.table) && ht.entries <= was
      invariant Visiting(iter, was, visited, doomed, model)
      decreases iter.Ahead()
    {
      var e := VisitNext(iter, was, visited, doomed, model);
      if e == null {
        break;
      }
      visited := visited + [e];
    }
    AllGone(model, index, visited, doomed);
  }
}
