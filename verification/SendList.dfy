/** The singly linked send list of TCPSocket.h and the loops of sendInWorker over it. */
module SendList {
  import opened Bytes
  import opened SocketModel

  /** One buffer to send; data is what lies between ptr and ptr + len. */
  class SendContext {
    var data: bytes
    var next: SendContext?

    constructor (data: bytes)
      ensures this.data == data && next == null
    {
      this.data := data;
      next := null;
    }
  }

  class LinkList {
    var head: SendContext?
    var tail: SendContext?
    ghost var spine: seq<SendContext>
    ghost var contents: seq<Chunk>

    ghost predicate Valid()
      reads this, spine
    {
      && |contents| == |spine|
      && (forall i :: 0 <= i < |spine| ==> spine[i].data == contents[i])
      && (forall i, j :: 0 <= i < j < |spine| ==> spine[i] != spine[j])
      && (if spine == [] then head == null && tail == null
          else head == spine[0] && tail == spine[|spine| - 1])
      && (forall i :: 0 <= i < |spine| - 1 ==> spine[i].next == spine[i + 1])
      && (spine != [] ==> spine[|spine| - 1].next == null)
    }

    /** The two lists share no context. */
    ghost predicate Apart(other: LinkList)
      reads this, other
    {
      forall i, j :: 0 <= i < |spine| && 0 <= j < |other.spine| ==> spine[i] != other.spine[j]
    }

    constructor ()
      ensures Valid() && spine == [] && contents == []
    {
      head, tail := null, null;
      spine, contents := [], [];
    }

    predicate Empty()
      reads this
    {
      head == null
    }

    method PushBack(s: SendContext)
      requires Valid() && s !in spine && s.next == null && |s.data| > 0
      modifies this, spine
      ensures Valid() && spine == old(spine) + [s]
      ensures contents == old(contents) + [old(s.data)]
    {
      if head == null {
        head := s;
        tail := s;
      } else {
        tail.next := s;
        tail := s;
      }
      spine, contents := spine + [s], contents + [s.data];
    }

    method PopFront()
      requires Valid()
      modifies this
      ensures Valid()
      ensures old(spine) == [] ==> spine == []
      ensures old(spine) != [] ==> spine == old(spine)[1..] && contents == old(contents)[1..]
    {
      if head != null {
        var s := head;
        head := s.next;
        if head == null {
          tail := null;
        }
        spine, contents := spine[1..], contents[1..];
      }
    }

    /** Walks the list to release every context. */
    method Clear()
      requires Valid()
      modifies this
      ensures Valid() && spine == [] && contents == []
    {
      if head != null {
        var cur := head;
        ghost var i := 0;
        while cur != null
          invariant 0 <= i <= |spine|
          invariant cur == if i < |spine| then spine[i] else null
          decreases |spine| - i
        {
          cur := cur.next;
          i := i + 1;
        }
        head, tail := null, null;
        spine, contents := [], [];
      }
    }

    /** Moves the contexts of other in front of this list. */
    method AddFront(other: LinkList)
      requires other != this && Valid() && other.Valid() && Apart(other)
      modifies this, other, other.spine
      ensures Valid() && other.Valid()
      ensures spine == old(other.spine) + old(spine) && other.spine == []
      ensures contents == old(other.contents) + old(contents) && other.contents == []
    {
      if !other.Empty() {
        ghost var joint := other.spine + spine;
        assert forall i, j :: 0 <= i < j < |joint| ==> joint[i] != joint[j];
        hide Apart;
        if head == null {
          head := other.head;
          tail := other.tail;
        } else {
          other.tail.next := head;
          head := other.head;
        }
        spine, contents := joint, other.contents + contents;
        other.head, other.tail := null, null;
        other.spine, other.contents := [], [];
      }
    }

    /** Fills the vector for writev; all says that no context was left out. */
    method FillIovec() returns (vec: seq<bytes>, totalBytes: nat, all: bool)
      requires Valid()
      ensures vec == Iovec(contents)
      ensures totalBytes == |Flat(Iovec(contents))|
      ensures all <==> |contents| <= MAX_IOVEC
    {
      vec, totalBytes := [], 0;
      var cur, c := head, 0;
      while cur != null && c < MAX_IOVEC
        invariant 0 <= c <= |spine| && c <= MAX_IOVEC
        invariant cur == if c < |spine| then spine[c] else null
        invariant vec == contents[..c]
        invariant totalBytes == |Flat(contents[..c])|
        decreases |spine| - c
      {
        assert contents[..c + 1] == contents[..c] + [contents[c]];
        FlatConcat(contents[..c], [contents[c]]);
        vec := vec + [cur.data];
        totalBytes := totalBytes + |cur.data|;
        cur, c := cur.next, c + 1;
      }
      all := cur == null;
      assert contents[..|spine|] == contents;
    }

    /** After a partial write of n bytes: drops the contexts sent whole and advances into the next one. */
    method DropSent(n: nat)
      requires Valid() && n < |Flat(contents)|
      modifies this, spine
      ensures Valid() && contents == Advance(old(contents), n)
      ensures |spine| <= |old(spine)| && spine == old(spine)[|old(spine)| - |spine|..]
    {
      var nn := n;
      while true
        invariant Valid() && 0 <= nn < |Flat(contents)|
        invariant |spine| <= |old(spine)| && spine == old(spine)[|old(spine)| - |spine|..]
        invariant Advance(old(contents), n) == Advance(contents, nn)
        decreases |spine|
      {
        var front := head;
        assert contents[0] == front.data;
        if nn >= |front.data| {
          nn := nn - |front.data|;
          PopFront();
        } else {
          assert front == spine[0] && front in old(spine);
          Shorten(nn);
          break;
        }
      }
    }

    method Shorten(nn: nat)
      requires Valid() && head != null && nn < |head.data|
      modifies this, head
      ensures Valid() && spine == old(spine)
      ensures contents == [old(contents)[0][nn..]] + old(contents)[1..]
    {
      head.data := head.data[nn..];
      contents := [head.data] + contents[1..];
    }
  }
}
