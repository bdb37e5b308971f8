/** dict.c: a hash table with chains that doubles when it is full. */
module Dict {
  import opened Bytes
  import opened DictTable

  const INITIAL_SIZE: nat := 4
  const LONG_MAX: nat := 0x7FFF_FFFF_FFFF_FFFF

  /** The sizes a table can have, below LONG_MAX. */
  predicate SizeOk(size: nat) {
    size == 0 || (size >= INITIAL_SIZE && PowerOfTwo(size))
  }

  /** _dictNextPower. */
  method NextPower(size: nat) returns (n: nat)
    ensures size >= LONG_MAX ==> n == LONG_MAX
    ensures size < LONG_MAX ==> n >= size && n >= INITIAL_SIZE && PowerOfTwo(n) && (n > INITIAL_SIZE ==> n / 2 < size)
  {
    if size >= LONG_MAX {
      return LONG_MAX;
    }
    n := INITIAL_SIZE;
    while n < size
      invariant n >= INITIAL_SIZE && PowerOfTwo(n) && (n > INITIAL_SIZE ==> n / 2 < size)
      decreases size - n
    {
      n := n * 2;
    }
  }

  class Dict {
    const hash: Hash
    var table: array<Entry?>
    var size: nat
    var used: nat
    ghost var chains: seq<seq<Entry>>
    ghost var entries: set<Entry>
    /** The entry of each key. */
    ghost var index: map<bytes, Entry>

    /** dictCreate. */
    constructor (hash: Hash)
      ensures Valid() && index == map[] && this.hash == hash && fresh(table)
    {
      this.hash := hash;
      table, size, used := new Entry?[0], 0, 0;
      chains, entries, index := [], {}, map[];
    }

    ghost predicate Indexed()
      reads `entries, `index
    {
      && (forall e <- entries :: e.key in index && index[e.key] == e)
      && (forall k <- index :: index[k] in entries && index[k].key == k)
    }

    ghost predicate Valid()
      reads this, table, entries`next
    {
      && table.Length == size && SizeOk(size) && used == |entries| <= size
      && TableOk(hash, table[..], chains, entries) && Indexed()
    }

    /** The finite map the table stands for. */
    ghost function Model(): map<bytes, Pointer>
      reads `index, index.Values`val
    {
      map k | k in index :: index[k].val
    }

    lemma ChainAt(i: nat)
      requires Valid() && i < size
      ensures |chains| == size && SlotOk(hash, size, i, table[i], chains[i], entries)
      ensures table[i] == At(chains[i], 0) && LinkedFrom(chains[i], 0)
    {
    }

    /** What does not change while entries move to another table. */
    ghost predicate Chains()
      reads `size, `table, `chains, `entries, table
    {
      && |chains| == size == table.Length
      && (forall i :: 0 <= i < size ==> table[i] == At(chains[i], 0) && Distinct(chains[i]))
      && (forall i :: 0 <= i < size ==> forall e <- chains[i] :: e in entries && Slot(hash, e.key, size) == i)
      && (forall e <- entries :: size > 0 && e in chains[Slot(hash, e.key, size)])
    }

    /** The entries of the slots before i are those in moved; left is the number of the others. */
    ghost predicate Moved(i: nat, moved: set<Entry>, left: int)
      reads `size, `entries
    {
      && moved <= entries && left == |entries - moved|
      && forall e <- entries :: size > 0 && (e in moved <==> Slot(hash, e.key, size) < i)
    }

    /** From slot i on, the chains are as they were. */
    ghost predicate LinkedChains(i: nat)
      requires |chains| == size
      reads `size, `chains
      reads (set k, e | 0 <= k < |chains| && e in chains[k] :: e)`next
    {
      forall k :: i <= k < size ==> LinkedFrom(chains[k], 0)
    }

    lemma ChainShape(i: nat)
      requires Chains() && i < size
      ensures |chains| == size == table.Length && table[i] == At(chains[i], 0) && Distinct(chains[i])
      ensures forall e <- chains[i] :: e in entries && Slot(hash, e.key, size) == i
    {
    }

    lemma Apart(i: nat, k: nat)
      requires Chains() && i < size && k < size && i != k
      ensures forall e <- chains[k] :: e !in SetOf(chains[i])
    {
      ChainShape(i);
      ChainShape(k);
    }

    lemma ChainUnmoved(i: nat, moved: set<Entry>, left: nat)
      requires Chains() && Moved(i, moved, left) && i < size
      ensures SetOf(chains[i]) <= entries - moved
      ensures forall e <- entries :: e in SetOf(chains[i]) <==> Slot(hash, e.key, size) == i
    {
      ChainShape(i);
    }

    lemma MovedMore(i: nat, moved: set<Entry>, left: nat)
      requires Chains() && Moved(i, moved, left) && i < size
      ensures SetOf(chains[i]) <= entries && forall e <- chains[i] :: e !in moved
      ensures |chains[i]| <= left && Moved(i + 1, moved + SetOf(chains[i]), left - |chains[i]|)
    {
      ChainUnmoved(i, moved, left);
      ChainShape(i);
      DistinctCount(chains[i]);
      hide Chains, Slot, Distinct;
      Fewer(entries, moved, SetOf(chains[i]));
    }

    static lemma Fewer(all: set<Entry>, some: set<Entry>, more: set<Entry>)
      requires more <= all - some
      ensures |all - (some + more)| == |all - some| - |more|
    {
      assert all - (some + more) == (all - some) - more;
    }

    lemma AllMoved(i: nat, moved: set<Entry>, left: nat)
      requires Moved(i, moved, left) && (i == size || left == 0)
      ensures moved == entries && left == 0
    {
      if i == size {
        assert moved == entries;
      } else {
        assert entries - moved == {};
      }
    }

    /** One slot of the old table. */
    method MoveSlot(i: nat, n: array<Entry?>, ghost c: seq<seq<Entry>>, ghost moved: set<Entry>)
      returns (ghost r: seq<seq<Entry>>)
      requires Chains() && i < size == |chains| && Moved(i, moved, used) && LinkedChains(i)
      requires n.Length > 0 && n != table && TableOk(hash, n[..], c, moved)
      modifies n, SetOf(chains[i])`next, `used
      ensures LinkedChains(i + 1) && Moved(i + 1, moved + SetOf(chains[i]), used)
      ensures TableOk(hash, n[..], r, moved + SetOf(chains[i]))
    {
      hide Chains, Slot, TableOk, Moved, Distinct, LinkedFrom;
      ChainShape(i);
      MovedMore(i, moved, used);
      var count;
      r, count := MoveChain(hash, table[i], chains[i], n, c, moved);
      forall k | i + 1 <= k < size ensures LinkedFrom(chains[k], 0) {
        Apart(i, k);
        assert old(LinkedFrom(chains[k], 0));
      }
      used := used - count;
    }

    /** Moving everything to a new table; the old one is used up. */
    method Rehash(n: array<Entry?>) returns (ghost r: seq<seq<Entry>>)
      requires Chains() && used == |entries| && |chains| == size && LinkedChains(0)
      requires n.Length > 0 && n != table && forall i :: 0 <= i < n.Length ==> n[i] == null
      modifies n, entries`next, `used
      ensures TableOk(hash, n[..], r, entries) && used == 0
    {
      hide Chains, Slot, TableOk, Moved, LinkedChains;
      r := NoChains(n.Length);
      ghost var moved: set<Entry> := {};
      EmptyTable(hash, n[..], r);
      NoneMoved();
      var i := 0;
      while i < size && used > 0
        invariant 0 <= i <= size && Moved(i, moved, used) && LinkedChains(i)
        invariant TableOk(hash, n[..], r, moved)
      {
        ChainShape(i);
        MovedMore(i, moved, used);
        r := MoveSlot(i, n, r, moved);
        moved := moved + SetOf(chains[i]);
        i := i + 1;
      }
      AllMoved(i, moved, used);
    }

    lemma NoneMoved()
      requires Chains()
      ensures Moved(0, {}, |entries|)
    {
      assert entries - {} == entries;
    }

    lemma ChainsHold()
      requires Valid()
      ensures Chains() && LinkedChains(0)
    {
      forall i | 0 <= i < size
        ensures table[i] == At(chains[i], 0) && Distinct(chains[i]) && LinkedFrom(chains[i], 0)
        ensures forall e <- chains[i] :: e in entries && Slot(hash, e.key, size) == i
      {
        assert SlotOk(hash, size, i, table[i], chains[i], entries);
      }
    }

    /** dictExpand: the same entries in a larger table. */
    method Expand(newSize: nat) returns (ok: bool)
      requires Valid() && newSize < LONG_MAX
      modifies this, entries`next
      ensures Valid() && index == old(index) && entries == old(entries) && Model() == old(Model()) && used == old(used)
      ensures ok <==> used <= newSize
      ensures if ok then size >= newSize && fresh(table) else size == old(size) && table == old(table)
    {
      hide TableOk, Indexed, Chains, LinkedChains, Slot, Model, PowerOfTwo;
      var realSize := NextPower(newSize);
      if used > newSize {
        return false;
      }
      var n := new Entry?[realSize](_ => null);
      var count := used;
      ChainsHold();
      ghost var c := Rehash(n);
      table, size, used, chains := n, realSize, count, c;
      ok := true;
    }

    /** _dictExpandIfNeeded. */
    method ExpandIfNeeded() returns (ok: bool)
      requires Valid() && (used < size || size < LONG_MAX / 2)
      modifies this, entries`next
      ensures Valid() && index == old(index) && entries == old(entries) && Model() == old(Model())
      ensures ok && used == old(used) < size && (fresh(table) || (table == old(table) && size == old(size)))
    {
      hide TableOk, Indexed, Model, PowerOfTwo;
      if size == 0 {
        ok := Expand(INITIAL_SIZE);
      } else if used == size {
        ok := Expand(size * 2);
      } else {
        ok := true;
      }
    }

    /** Where key is in its chain. */
    lemma Found(key: bytes, h: nat, j: nat)
      requires Valid() && size > 0 && h == Slot(hash, key, size) && j <= |chains[h]|
      requires forall x :: 0 <= x < j ==> chains[h][x].key != key
      requires j < |chains[h]| ==> chains[h][j].key == key
      ensures key in index <==> j < |chains[h]|
      ensures key in index ==> index[key] == chains[h][j]
    {
      ChainAt(h);
      if key in index {
        assert index[key] in chains[h];
      }
    }

    /** dictFind. */
    method Find(key: bytes) returns (e: Entry?)
      requires Valid()
      ensures if key in index then e == index[key] else e == null
    {
      hide TableOk, Indexed, Slot;
      if size == 0 {
        NoEntries();
        return null;
      }
      var h := Slot(hash, key, size);
      ChainAt(h);
      var prev;
      ghost var j;
      prev, e, j := Search(table[h], chains[h], key);
      Found(key, h, j);
    }

    /** _dictKeyIndex: the slot for a new key, or -1 if the key is there. */
    method KeyIndex(key: bytes) returns (h: int)
      requires Valid() && (used < size || size < LONG_MAX / 2)
      modifies this, entries`next
      ensures Valid() && index == old(index) && entries == old(entries) && Model() == old(Model())
      ensures used < size && (fresh(table) || table == old(table))
      ensures if key in index then h == -1 else h == Slot(hash, key, size)
    {
      hide TableOk, Indexed, Slot, Model, SlotOk;
      var ok := ExpandIfNeeded();
      if !ok {
        return -1;
      }
      h := Slot(hash, key, size);
      ChainAt(h);
      var prev, e;
      ghost var j;
      prev, e, j := Search(table[h], chains[h], key);
      Found(key, h, j);
      if e != null {
        h := -1;
      }
    }

    /** dictAdd: it fails only on a key that is there. */
    method Add(key: bytes, val: Pointer) returns (ok: bool)
      requires Valid() && (used < size || size < LONG_MAX / 2)
      modifies this, table, entries`next
      ensures Valid() && (ok <==> key !in old(index))
      ensures Model() == if ok then old(Model())[key := val] else old(Model())
      ensures fresh(entries - old(entries)) && (fresh(table) || table == old(table))
      ensures !ok ==> index == old(index) && entries == old(entries)
    {
      hide TableOk, Indexed, Slot, Model, SlotOk;
      var h := KeyIndex(key);
      if h == -1 {
        return false;
      }
      var e := new Entry(key, val, null);
      ChainAt(h);
      LinkFirst(hash, table, chains, entries, h, e);
      Enter(e, chains[h := [e] + chains[h]]);
      ok := true;
    }

    /** A linked entry counts. */
    method Enter(ghost e: Entry, ghost c: seq<seq<Entry>>)
      requires table.Length == size && SizeOk(size) && used == |entries| < size && Indexed()
      requires TableOk(hash, table[..], c, entries + {e}) && e !in entries && e.key !in index
      modifies `chains, `entries, `index, `used
      ensures Valid() && entries == old(entries) + {e} && index == old(index)[e.key := e]
      ensures Model() == old(Model())[e.key := e.val]
    {
      hide TableOk;
      chains, entries, index := c, entries + {e}, index[e.key := e];
      used := used + 1;
    }

    /** An entry taken out does not count any more. */
    method Leave(ghost e: Entry, ghost c: seq<seq<Entry>>)
      requires table.Length == size && SizeOk(size) && used == |entries| <= size && Indexed()
      requires TableOk(hash, table[..], c, entries - {e}) && e in entries
      modifies `chains, `entries, `index, `used
      ensures Valid() && entries == old(entries) - {e} && index == old(index) - {e.key} && chains == c
      ensures Model() == old(Model()) - {e.key}
    {
      hide TableOk;
      chains, entries, index := c, entries - {e}, index - {e.key};
      used := used - 1;
    }


    lemma Member(key: bytes)
      requires Valid() && key in index
      ensures index[key] in entries
    {
    }

    method SetVal(key: bytes, e: Entry, val: Pointer)
      requires Valid() && key in index && e == index[key]
      modifies e`val
      ensures Valid() && Model() == old(Model())[key := val]
    {
      hide TableOk;
      IndexInjective();
      e.val := val;
    }

    /** dictReplace: whether the key is new. */
    method Replace(key: bytes, val: Pointer) returns (added: bool)
      requires Valid() && (used < size || size < LONG_MAX / 2)
      modifies this, table, entries
      ensures Valid() && (added <==> key !in old(index)) && Model() == old(Model())[key := val]
    {
      hide Valid, Model;
      added := Add(key, val);
      if !added {
        var e := Find(key);
        Member(key);
        SetVal(key, e, val);
      }
    }

    /** dictDelete; the entry was at position j of the chain of slot h. */
    method Delete(key: bytes) returns (ok: bool, ghost h: nat, ghost j: nat)
      requires Valid()
      modifies this, table, entries`next
      ensures Valid() && (ok <==> key in old(index))
      ensures Model() == old(Model()) - {key} && index == old(index) - {key}
      ensures size == old(size) && table == old(table)
      ensures if ok then
                && h < |old(chains)| && j < |old(chains)[h]| && old(chains)[h][j] == old(index[key])
                && entries == old(entries) - {old(index[key])}
                && chains == old(chains)[h := old(chains)[h][..j] + old(chains)[h][j + 1..]]
              else chains == old(chains) && entries == old(entries)
    {
      hide TableOk, Indexed, Slot, SlotOk;
      if size == 0 {
        ChainsHold();
        NoEntries();
        return false, 0, 0;
      }
      var slot := Slot(hash, key, size);
      h := slot;
      ChainAt(h);
      var prev, e;
      prev, e, j := Search(table[slot], chains[h], key);
      Found(key, h, j);
      if e == null {
        return false, h, j;
      }
      Unlink(hash, table, chains, entries, slot, prev, e, j);
      Leave(e, chains[h := chains[h][..j] + chains[h][j + 1..]]);
      ok := true;
    }

    lemma NoEntries()
      requires Valid() && size == 0
      ensures index == map[] && Model() == map[]
    {
      assert entries == {};
    }

    lemma IndexInjective()
      requires Valid()
      ensures forall k, l | k in index && l in index && k != l :: index[k] != index[l]
    {
    }

    /** used is the number of keys. */
    lemma UsedCounts()
      requires Valid()
      ensures used == |Model()|
    {
      assert Model().Keys == index.Keys;
      KeysCount(entries, index);
    }

    static lemma {:induction false} KeysCount(all: set<Entry>, index: map<bytes, Entry>)
      requires forall e <- all :: e.key in index && index[e.key] == e
      requires forall k <- index :: index[k] in all && index[k].key == k
      ensures |all| == |index|
      decreases |all|
    {
      if all == {} {
        assert index == map[];
      } else {
        var e :| e in all;
        KeysCount(all - {e}, index - {e.key});
        assert (index - {e.key}).Keys == index.Keys - {e.key};
      }
    }
  }

  ghost function NoChains(n: nat): (r: seq<seq<Entry>>)
    ensures |r| == n && forall i :: 0 <= i < n ==> r[i] == []
  {
    if n == 0 then [] else NoChains(n - 1) + [[]]
  }

  lemma EmptyTable(hash: Hash, table: seq<Entry?>, chains: seq<seq<Entry>>)
    requires |chains| == |table| && forall i :: 0 <= i < |table| ==> table[i] == null && chains[i] == []
    ensures TableOk(hash, table, chains, {})
  {
  }
}
