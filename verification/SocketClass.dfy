/** The TCPSocket object: its critical sections over the two linked send lists refine the protocol's functions. */
module SocketClass {
  import opened Bytes
  import opened SocketModel
  import opened SendList

  /** A list whose objects did not change is as it was. */
  twostate lemma Untouched(list: LinkList)
    requires old(list.Valid())
    requires unchanged(list) && forall i :: 0 <= i < |list.spine| ==> unchanged(list.spine[i])
    ensures list.Valid()
  {
  }

  method PushBeside(list: LinkList, ghost other: LinkList, data: bytes)
    requires list != other && list.Valid() && other.Valid() && list.Apart(other) && |data| > 0
    modifies list, list.spine
    ensures list.Valid() && other.Valid() && list.Apart(other) && other.Apart(list)
    ensures list.contents == old(list.contents) + [data]
  {
    var s := new SendContext(data);
    list.PushBack(s);
    Untouched(other);
  }

  method DropBeside(list: LinkList, ghost other: LinkList, n: nat)
    requires list != other && list.Valid() && other.Valid() && list.Apart(other)
    requires n < |Flat(list.contents)|
    modifies list, list.spine
    ensures list.Valid() && other.Valid() && list.Apart(other) && other.Apart(list)
    ensures list.contents == Advance(old(list.contents), n)
    ensures |list.spine| <= |old(list.spine)|
    ensures list.spine == old(list.spine)[|old(list.spine)| - |list.spine|..]
    ensures other.spine == old(other.spine)
  {
    list.DropSent(n);
    Untouched(other);
  }

  class TCPSocket {
    var r: Ready
    var closed: bool
    var closedOnFlush: bool
    var isShutdown: bool
    var doing: bool
    var recvList: seq<nat>
    var slistIdx: bool
    var bytes4Send: nat
    var cfg: Config
    const list0: LinkList
    const list1: LinkList

    constructor (highWaterSize: nat)
      ensures Valid() && fresh(list0) && fresh(list1)
      ensures View() == Sock(Ready(false, 0, false, 0, false), false, false, false, false, [], ([], []), false, 0,
                             Config(false, false, false, false, highWaterSize))
    {
      r := Ready(false, 0, false, 0, false);
      closed, closedOnFlush, isShutdown, doing := false, false, false, false;
      recvList, slistIdx, bytes4Send := [], false, 0;
      cfg := Config(false, false, false, false, highWaterSize);
      list0 := new LinkList();
      list1 := new LinkList();
    }

    ghost predicate Valid()
      reads list0, list1, list0.spine, list1.spine
    {
      list0 != list1 && list0.Valid() && list1.Valid() && list0.Apart(list1)
    }

    ghost function View(): Sock
      reads this, list0, list1
    {
      Sock(r, closed, closedOnFlush, isShutdown, doing, recvList, (list0.contents, list1.contents), slistIdx,
           bytes4Send, cfg)
    }

    predicate HighWater()
      reads this
    {
      cfg.highWaterSize > 0 && bytes4Send > cfg.highWaterSize
    }

    /** Whether the list that ptrSendlist designates is empty. */
    predicate QueueEmpty()
      reads this, list0, list1
    {
      if slistIdx then list1.Empty() else list0.Empty()
    }

    lemma QueueSeen()
      requires Valid()
      ensures QueueEmpty() <==> View().Queue() == []
    {
    }

    predicate CanRead()
      reads this
    {
      (r.readable && recvList != []) || r.socketError
    }

    predicate CanWrite()
      reads this, list0, list1
    {
      !isShutdown && !closed && !r.socketError && ((r.writeable && !QueueEmpty()) || HighWater())
    }

    /** The right to run Do goes to the first caller that finds work. */
    method Claim(work: bool) returns (post: bool)
      modifies this`doing
      ensures View() == old(View()).(doing := old(doing) || work) && post == (work && !old(doing))
    {
      post := false;
      if !doing && work {
        doing := true;
        post := true;
      }
    }

    method Push(data: bytes)
      requires Valid() && |data| > 0
      modifies list0, list1, list0.spine, list1.spine
      ensures Valid()
      ensures View() == old(View()).WithLists(old(View()).Queue() + [data], old(View()).Other())
    {
      if slistIdx {
        PushBeside(list1, list0, data);
      } else {
        PushBeside(list0, list1, data);
      }
    }

    /** The local list goes back in front of what was queued meanwhile. */
    method SpliceBack()
      requires Valid()
      modifies list0, list1, list0.spine, list1.spine
      ensures Valid()
      ensures View() == old(View()).WithLists(old(View()).Other() + old(View()).Queue(), [])
    {
      if slistIdx {
        assert list1.Apart(list0);
        list1.AddFront(list0);
      } else {
        list0.AddFront(list1);
      }
    }

    /** After a partial write of n bytes: the rest of the local list goes back in front. */
    method DropAndSplice(n: nat)
      requires Valid() && n < |Flat(View().Other())|
      modifies list0, list1, list0.spine, list1.spine
      ensures Valid()
      ensures View() == old(View()).WithLists(Advance(old(View()).Other(), n) + old(View()).Queue(), [])
    {
      if slistIdx {
        DropBeside(list0, list1, n);
        assert forall c :: c in list0.spine ==> c in old(list0.spine);
        list1.AddFront(list0);
      } else {
        DropBeside(list1, list0, n);
        assert forall c :: c in list1.spine ==> c in old(list1.spine);
        list0.AddFront(list1);
      }
    }

    method Enqueue_(data: bytes, closeOnFlush: bool)
      requires Valid() && |data| > 0
      modifies this`closedOnFlush, this`bytes4Send, list0, list1, list0.spine, list1.spine
      ensures Valid()
      ensures View() == Enqueue(old(View()), data, closeOnFlush)
    {
      hide LinkList.Valid, LinkList.Apart;
      closedOnFlush := closeOnFlush;
      Push(data);
      bytes4Send := bytes4Send + |data|;
    }

    /** _send: the caller posts a task when told so. */
    method Send_(data: bytes, closeOnFlush: bool) returns (post: bool)
      requires Valid() && |data| > 0
      modifies this, list0, list1, list0.spine, list1.spine
      ensures Valid()
      ensures (View(), post) == LockedSend(old(View()), data, closeOnFlush)
    {
      if closed || isShutdown || closedOnFlush {
        assert Refuses(View());
        post := false;
      } else {
        assert !Refuses(View());
        hide Enqueue;
        Enqueue_(data, closeOnFlush);
        assert (r.writeable || HighWater()) == (View().r.writeable || View().HighWater());
        post := Claim(r.writeable || HighWater());
      }
    }

    method Recv_(buf: nat) returns (post: bool)
      modifies this
      ensures (View(), post) == LockedRecv(old(View()), buf)
    {
      if closed || !cfg.recvCb {
        return false;
      }
      recvList := recvList + [buf];
      post := Claim(r.readable);
    }

    /** The locked part of OnActive. */
    method OnActive_(ev: Event) returns (post: bool)
      requires Valid()
      modifies this
      ensures (View(), post) == LockedActive(old(View()), ev)
    {
      if ev.read {
        r := r.(readableVer := r.readableVer + 1, readable := true);
      }
      if ev.write {
        r := r.(writeableVer := r.writeableVer + 1, writeable := true);
      }
      if ev.error {
        r := r.(socketError := true);
      }
      post := Claim(CanRead() || CanWrite());
    }

    method Close_() returns (post: bool)
      modifies this
      ensures (View(), post) == LockedClose(old(View()))
    {
      if closed {
        return false;
      }
      closed := true;
      post := cfg.closeCb && !doing;
    }

    /**
     * The first critical section of sendInWorker, in round i: detached says that the
     * list of Other is now this worker's to write, while others queue on the empty
     * one that had its place.
     */
    method SendBegin(ghost i: nat) returns (detached: bool, choked: bool, ver: nat)
      requires Valid()
      modifies this`slistIdx
      ensures (View(), if detached then Some(Sending(i, ver)) else if choked then Some(Choked(i)) else None) ==
              LockedBegin(old(View()), i)
      ensures detached ==> View().Other() == old(View()).Queue() && View().Queue() == old(View()).Other()
      ensures detached ==> !closed && !isShutdown && !r.socketError && (r.writeable || !HighWater())
    {
      detached, choked, ver := false, false, r.writeableVer;
      if !CanWrite() {
        return;
      }
      if !r.writeable && HighWater() {
        choked := true;
      } else {
        detached := true;
        slistIdx := !slistIdx;
      }
    }

    /** The last critical section of sendInWorker after n bytes were written; all says that the list was cleared. */
    method SentSome(ghost i: nat, ghost ver: nat, n: nat, all: bool) returns (flush: bool, closeOnFlush: bool)
      requires Valid()
      requires n <= bytes4Send && (all || n < |Flat(View().Other())|)
      modifies this, list0, list1, list0.spine, list1.spine
      ensures Valid()
      ensures (View(), if flush then Some(Flushing(i, closeOnFlush)) else None) ==
              LockedSent(old(View()), i, ver, Wrote(n, all))
    {
      hide LinkList.Valid, LinkList.Apart;
      closeOnFlush := closedOnFlush;
      if !all {
        DropAndSplice(n);
      }
      bytes4Send := bytes4Send - n;
      QueueSeen();
      flush := QueueEmpty() && cfg.flushCb;
    }

    /** The same after EAGAIN, for a list detached at version ver. */
    method SentNothing(ghost i: nat, ver: nat) returns (enableWrite: bool)
      requires Valid()
      modifies this, list0, list1, list0.spine, list1.spine
      ensures Valid()
      ensures (View(), if enableWrite then Some(Enabling(i)) else None) ==
              LockedSent(old(View()), i, ver, WriteAgain)
    {
      hide LinkList.Valid, LinkList.Apart;
      SpliceBack();
      enableWrite := r.writeableVer == ver;
      if enableWrite {
        r := r.(writeable := false);
      }
    }

    /** The same after any other error; the detached list is not put back. */
    method SendFailed_(ghost i: nat, ghost ver: nat) returns (failed: bool, callback: bool)
      modifies this
      ensures (View(), if failed then Some(SendFailed(i, callback)) else None) ==
              LockedSent(old(View()), i, ver, WriteFailed)
    {
      failed, callback := !closed, cfg.errorCb;
      if !closed {
        r := r.(socketError := true);
      }
    }
  }
}
