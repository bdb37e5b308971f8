/** Chained hash tables: chains of entries in an array of slots. */
module DictTable {
  import opened Bytes

  /** A pointer the table stores without looking at it. */
  type Pointer = int

  class Entry {
    const key: bytes
    var val: Pointer
    var next: Entry?

    constructor (key: bytes, val: Pointer, next: Entry?)
      ensures this.key == key && this.val == val && this.next == next
    {
      this.key, this.val, this.next := key, val, next;
    }
  }

  type Hash = bytes -> nat

  /** x & y. */
  function And(x: nat, y: nat): (r: nat)
    ensures r <= y
  {
    if y == 0 then 0 else And(x / 2, y / 2) * 2 + (if x % 2 == 1 && y % 2 == 1 then 1 else 0)
  }

  predicate PowerOfTwo(n: nat) {
    n == 1 || (n > 1 && n % 2 == 0 && PowerOfTwo(n / 2))
  }

  /** Masking with a power of two less one is the remainder. */
  lemma {:induction false} MaskIsModulo(x: nat, size: nat)
    requires PowerOfTwo(size)
    ensures And(x, size - 1) == x % size
    decreases size
  {
    if size == 1 {
      assert x % 1 == 0;
    } else {
      var half := size / 2;
      MaskIsModulo(x / 2, half);
      assert (size - 1) / 2 == half - 1 && (size - 1) % 2 == 1;
      Halved(x, half);
    }
  }

  lemma Halved(x: nat, half: nat)
    requires half > 0
    ensures x % (2 * half) == (x / 2 % half) * 2 + x % 2
  {
    var q, r := x / 2 / half, x / 2 % half;
    assert x / 2 == half * q + r;
    assert x == 2 * half * q + (2 * r + x % 2);
    Remainder(x, 2 * half, q, 2 * r + x % 2);
  }

  lemma Remainder(x: nat, d: nat, q: nat, r: nat)
    requires r < d && x == d * q + r
    ensures x % d == r
  {
    var p := x / d - q;
    assert d * (x / d) + x % d == x;
    assert d * p == r - x % d;
  }

  /** The slot of a key in a table of some size. */
  function Slot(hash: Hash, key: bytes, size: nat): (h: nat)
    requires size > 0
    ensures h < size
  {
    And(hash(key), size - 1)
  }

  /** What follows position j of a chain. */
  function At(c: seq<Entry>, j: nat): Entry? {
    if j < |c| then c[j] else null
  }

  /** From position j on, each entry of c points to the one after it. */
  ghost predicate LinkedFrom(c: seq<Entry>, j: nat)
    reads (set e | e in c)`next
  {
    forall x :: j <= x < |c| ==> c[x].next == At(c, x + 1)
  }

  ghost predicate Distinct(c: seq<Entry>) {
    forall x, y :: 0 <= x < y < |c| ==> c[x] != c[y]
  }

  /** Each slot of the table begins the chain of those of the entries that belong to it. */
  ghost predicate TableOk(hash: Hash, table: seq<Entry?>, chains: seq<seq<Entry>>, entries: set<Entry>)
    reads entries`next
  {
    && |chains| == |table|
    && (forall i :: 0 <= i < |table| ==> SlotOk(hash, |table|, i, table[i], chains[i], entries))
    && (entries != {} ==> |table| > 0)
    && (forall e <- entries :: |table| > 0 ==> e in chains[Slot(hash, e.key, |table|)])
  }

  ghost predicate SlotOk(hash: Hash, size: nat, i: nat, head: Entry?, chain: seq<Entry>, entries: set<Entry>)
    requires i < size
    reads entries`next
  {
    && head == At(chain, 0) && Distinct(chain)
    && (forall e <- chain :: e in entries && Slot(hash, e.key, size) == i)
    && LinkedFrom(chain, 0)
  }

  /** One more entry, in front of the chain of its slot. */
  method LinkFirst(hash: Hash, table: array<Entry?>, ghost chains: seq<seq<Entry>>, ghost entries: set<Entry>,
                   h: nat, e: Entry)
    requires TableOk(hash, table[..], chains, entries) && e !in entries
    requires table.Length > 0 && h == Slot(hash, e.key, table.Length)
    modifies table, e`next
    ensures TableOk(hash, table[..], chains[h := [e] + chains[h]], entries + {e})
  {
    e.next := table[h];
    table[h] := e;
    LinkedFirst(hash, table.Length, h, e, chains[h], entries);
    assert table[..] == old(table[..])[h := e];
    forall i | 0 <= i < table.Length && i != h
      ensures SlotOk(hash, table.Length, i, table[i], chains[i], entries + {e})
    {
      assert old(SlotOk(hash, table.Length, i, table[i], chains[i], entries));
    }
  }

  lemma LinkedFirst(hash: Hash, size: nat, h: nat, e: Entry, chain: seq<Entry>, entries: set<Entry>)
    requires h < size && h == Slot(hash, e.key, size) && e !in entries
    requires SlotOk(hash, size, h, e.next, chain, entries)
    ensures SlotOk(hash, size, h, e, [e] + chain, entries + {e})
  {
  }

  /** The loop over a chain in dictFind, _dictKeyIndex and dictDelete; j is where it stops. */
  method Search(head: Entry?, ghost chain: seq<Entry>, key: bytes) returns (prev: Entry?, e: Entry?, ghost j: nat)
    requires head == At(chain, 0) && LinkedFrom(chain, 0)
    ensures j <= |chain| && e == At(chain, j) && prev == (if j == 0 then null else chain[j - 1])
    ensures (forall x :: 0 <= x < j ==> chain[x].key != key) && (e != null ==> e.key == key)
  {
    prev, e, j := null, head, 0;
    while e != null
      invariant j <= |chain| && e == At(chain, j) && prev == (if j == 0 then null else chain[j - 1])
      invariant forall x :: 0 <= x < j ==> chain[x].key != key
      decreases |chain| - j
    {
      if e.key == key {
        return;
      }
      prev := e;
      e := e.next;
      j := j + 1;
    }
  }

  /** Entry e, at position j of its chain and behind prev, is taken out. */
  method Unlink(hash: Hash, table: array<Entry?>, ghost chains: seq<seq<Entry>>, ghost entries: set<Entry>,
                h: nat, prev: Entry?, e: Entry, ghost j: nat)
    requires TableOk(hash, table[..], chains, entries) && h < table.Length
    requires j < |chains[h]| && e == chains[h][j] && prev == (if j == 0 then null else chains[h][j - 1])
    modifies table, entries`next
    ensures TableOk(hash, table[..], chains[h := chains[h][..j] + chains[h][j + 1..]], entries - {e})
    ensures e.next == old(e.next)
  {
    hide Slot, Distinct;
    ghost var chain := chains[h];
    assert SlotOk(hash, table.Length, h, table[h], chain, entries);
    if prev != null {
      Lone(chain, j - 1);
      prev.next := e.next;
    } else {
      table[h] := e.next;
    }
    Unlinked(hash, table.Length, h, table[h], chain, entries, j);
    assert table[..] == old(table[..])[h := table[h]];
    forall i | 0 <= i < table.Length && i != h
      ensures SlotOk(hash, table.Length, i, table[i], chains[i], entries - {e})
    {
      assert old(SlotOk(hash, table.Length, i, table[i], chains[i], entries));
    }
    forall x | x in entries - {e}
      ensures x in chains[h := chain[..j] + chain[j + 1..]][Slot(hash, x.key, table.Length)]
    {
      assert x in chains[Slot(hash, x.key, table.Length)];
    }
  }

  lemma Unlinked(hash: Hash, size: nat, h: nat, head: Entry?, chain: seq<Entry>, entries: set<Entry>, j: nat)
    requires h < size && j < |chain| && Distinct(chain)
    requires forall e <- chain :: e in entries && Slot(hash, e.key, size) == h
    requires forall x :: 0 <= x < |chain| && x + 1 != j ==> chain[x].next == At(chain, x + 1)
    requires j > 0 ==> chain[j - 1].next == At(chain, j + 1)
    requires head == if j == 0 then At(chain, 1) else chain[0]
    ensures SlotOk(hash, size, h, head, chain[..j] + chain[j + 1..], entries - {chain[j]})
  {
    var r := chain[..j] + chain[j + 1..];
    TakenOut(chain, j);
    hide Slot, Distinct;
    forall x | 0 <= x < |r| ensures r[x].next == At(r, x + 1) {
    }
  }

  lemma Lone(c: seq<Entry>, j: nat)
    requires j < |c| && Distinct(c)
    ensures forall x :: 0 <= x < |c| && x != j ==> c[x] != c[j]
  {
  }

  lemma TakenOut(c: seq<Entry>, j: nat)
    requires j < |c| && Distinct(c)
    ensures Distinct(c[..j] + c[j + 1..])
    ensures forall e <- c[..j] + c[j + 1..] :: e in c && e != c[j]
  {
  }

  ghost function SetOf(c: seq<Entry>): set<Entry> {
    set e | e in c
  }

  lemma {:induction false} DistinctCount(c: seq<Entry>)
    requires Distinct(c)
    ensures |SetOf(c)| == |c|
    decreases |c|
  {
    if c != [] {
      var n := |c| - 1;
      DistinctCount(c[..n]);
      assert SetOf(c) == SetOf(c[..n]) + {c[n]} && c[n] !in c[..n];
    }
  }

  lemma TableShape(hash: Hash, table: seq<Entry?>, chains: seq<seq<Entry>>, entries: set<Entry>)
    requires TableOk(hash, table, chains, entries)
    ensures |chains| == |table|
  {
  }

  /** A chain of one table goes into another, as dictExpand moves it. */
  method MoveChain(hash: Hash, head: Entry?, ghost chain: seq<Entry>, table: array<Entry?>,
                   ghost chains: seq<seq<Entry>>, ghost entries: set<Entry>)
    returns (ghost r: seq<seq<Entry>>, moved: nat)
    requires head == At(chain, 0) && Distinct(chain) && LinkedFrom(chain, 0)
    requires (forall e <- chain :: e !in entries) && table.Length > 0 && TableOk(hash, table[..], chains, entries)
    modifies table, SetOf(chain)`next
    ensures TableOk(hash, table[..], r, entries + SetOf(chain)) && moved == |chain|
  {
    hide TableOk, Slot, Distinct;
    var he := head;
    moved, r := 0, chains;
    assert entries + SetOf(chain[..0]) == entries;
    while he != null
      invariant moved <= |chain| && he == At(chain, moved) && LinkedFrom(chain, moved)
      invariant TableOk(hash, table[..], r, entries + SetOf(chain[..moved]))
      decreases |chain| - moved
    {
      var nextHe := he.next;
      var h := Slot(hash, he.key, table.Length);
      Lone(chain, moved);
      assert he !in chain[..moved];
      TableShape(hash, table[..], r, entries + SetOf(chain[..moved]));
      LinkFirst(hash, table, r, entries + SetOf(chain[..moved]), h, he);
      r := r[h := [he] + r[h]];
      assert entries + SetOf(chain[..moved + 1]) == entries + SetOf(chain[..moved]) + {he};
      he, moved := nextHe, moved + 1;
    }
    assert chain[..moved] == chain;
  }
}
