/** The resumable reply reader of hiredis: a cursor, a nine-slot task stack and reply objects filled in place. */
module RespReader {
  import opened Bytes
  import opened RespGrammar

  /** A reply object; children are handles into the reader's store, absent until created. */
  datatype Cell =
    | StringCell(kind: Kind, str: bytes)
    | IntegerCell(integer: int)
    | NilCell
    | ArrayCell(elements: int, element: seq<Option<nat>>)

  /** A slot of the task stack; kind is None while the type byte is unread. */
  datatype Task = Task(kind: Option<Kind>, elements: int, idx: int, obj: nat, parent: Option<nat>)

  /** Object h of the store is a finished reply object with value r, made of finished objects only. */
  ghost predicate Denotes(store: seq<Cell>, finished: set<nat>, h: nat, r: Reply)
    decreases r
  {
    && h in finished && h < |store|
    && match r
       case ErrorReply(s) => store[h] == StringCell(ErrorKind, s)
       case StatusReply(s) => store[h] == StringCell(StatusKind, s)
       case StringReply(s) => store[h] == StringCell(StringKind, s)
       case IntegerReply(v) => store[h] == IntegerCell(v)
       case NilReply => store[h] == NilCell
       case ArrayReply(n, rs) =>
         && store[h].ArrayCell? && store[h].elements == n
         && |store[h].element| == |rs|
         && forall i :: 0 <= i < |rs| ==>
              store[h].element[i].Some? && Denotes(store, finished, store[h].element[i].value, rs[i])
  }

  /** Finished objects keep their value while unfinished ones change. */
  ghost predicate Keeps(store: seq<Cell>, finished: set<nat>, store': seq<Cell>, finished': set<nat>) {
    && finished <= finished'
    && |store| <= |store'|
    && forall h: nat :: h in finished && h < |store| ==> store'[h] == store[h]
  }

  lemma {:induction false} DenotesKept(store: seq<Cell>, finished: set<nat>, store': seq<Cell>, finished': set<nat>,
                                       h: nat, r: Reply)
    requires Denotes(store, finished, h, r)
    requires Keeps(store, finished, store', finished')
    ensures Denotes(store', finished', h, r)
    decreases r
  {
    if r.ArrayReply? {
      forall i | 0 <= i < |r.element|
        ensures Denotes(store', finished', store'[h].element[i].value, r.element[i])
      {
        DenotesKept(store, finished, store', finished', store[h].element[i].value, r.element[i]);
      }
    }
  }

  /** A handle denotes at most one reply. */
  lemma {:induction false} DenotesUnique(store: seq<Cell>, finished: set<nat>, h: nat, r: Reply, r': Reply)
    requires Denotes(store, finished, h, r) && Denotes(store, finished, h, r')
    ensures r == r'
    decreases r
  {
    if r.ArrayReply? {
      forall i | 0 <= i < |r.element|
        ensures r.element[i] == r'.element[i]
      {
        DenotesUnique(store, finished, store[h].element[i].value, r.element[i], r'.element[i]);
      }
    }
  }

  /** Two suspended parses that agree on every continuation of their input. */
  ghost predicate Agree(f: seq<Frame>, k: Option<Kind>, s: bytes, f': seq<Frame>, k': Option<Kind>, s': bytes) {
    forall e: bytes :: Resume(f, k, s + e) == Resume(f', k', s' + e)
  }

  /** The suspended parse produces r from s and leaves rest, whatever follows. */
  ghost predicate Yields(f: seq<Frame>, k: Option<Kind>, s: bytes, r: Reply, rest: bytes) {
    forall e: bytes :: Resume(f, k, s + e) == Done(r, rest + e)
  }

  ghost predicate Faults(f: seq<Frame>, k: Option<Kind>, s: bytes, fault: Fault) {
    forall e: bytes :: Resume(f, k, s + e) == Fail(fault)
  }

  /** Completing r inside frames f comes to the same as completing r' inside f'. */
  ghost predicate SameUnwind(f: seq<Frame>, r: Reply, f': seq<Frame>, r': Reply) {
    forall rest :: Unwind(f, Done(r, rest)) == Unwind(f', Done(r', rest))
  }

  /** Completing r inside frames f comes to the same as awaiting the next item inside f'. */
  ghost predicate AwaitsIn(f: seq<Frame>, r: Reply, f': seq<Frame>) {
    forall rest :: Unwind(f, Done(r, rest)) == Resume(f', None, rest)
  }

  /** The frames after element r of the innermost array, which goes on. */
  ghost function Extended(f: seq<Frame>, r: Reply): seq<Frame>
    requires f != []
  {
    var top := f[|f| - 1];
    f[..|f| - 1] + [top.(acc := top.acc + [r])]
  }

  lemma ElementDone(f: seq<Frame>, r: Reply)
    requires f != []
    ensures var d := |f| - 1;
            if |f[d].acc| + 1 >= f[d].count
            then SameUnwind(f, r, f[..d], ArrayReply(f[d].count, f[d].acc + [r]))
            else AwaitsIn(f, r, Extended(f, r))
  {
    forall rest {
      UnwindNext(f, r, rest);
    }
  }

  lemma UnwindSelf(f: seq<Frame>, r: Reply)
    ensures SameUnwind(f, r, f, r)
  {
  }

  /** What completing r inside frames f has come to, taken one array further. */
  lemma UnwindStep(f: seq<Frame>, r: Reply, g: seq<Frame>, v: Reply)
    requires g != [] && SameUnwind(f, r, g, v)
    ensures var d := |g| - 1;
            if |g[d].acc| + 1 >= g[d].count
            then SameUnwind(f, r, g[..d], ArrayReply(g[d].count, g[d].acc + [v]))
            else AwaitsIn(f, r, Extended(g, v))
  {
    hide Unwind, Resume, Extended;
    ElementDone(g, v);
  }

  /** A typed item with value r ends in s, leaving rest, whatever follows. */
  ghost predicate TypedDone(k: Kind, d: nat, s: bytes, r: Reply, rest: bytes) {
    forall e: bytes :: ParseTyped(k, s + e, d) == Done(r, rest + e)
  }

  /** A line found in s is the line found when more bytes follow. */
  lemma LineKept(s: bytes, e: bytes)
    requires LineLength(s) >= 0
    ensures var n := LineLength(s);
            && LineLength(s + e) == n
            && (s + e)[..n] == s[..n]
            && (s + e)[n + 2..] == s[n + 2..] + e
  {
    LineLengthStable(s, e);
  }

  lemma LineDone(k: Kind, d: nat, s: bytes)
    requires LineLength(s) >= 0
    requires k in {ErrorKind, StatusKind, IntegerKind}
    ensures var n := LineLength(s);
            TypedDone(k, d, s,
                      match k
                      case ErrorKind => ErrorReply(s[..n])
                      case StatusKind => StatusReply(s[..n])
                      case _ => IntegerReply(Number(s[..n])),
                      s[n + 2..])
  {
    forall e: bytes
      ensures LineLength(s + e) == LineLength(s)
      ensures (s + e)[..LineLength(s)] == s[..LineLength(s)]
      ensures (s + e)[LineLength(s) + 2..] == s[LineLength(s) + 2..] + e
    {
      LineKept(s, e);
    }
  }

  lemma NilBulkDone(d: nat, s: bytes, n: nat)
    requires n == LineLength(s) && Number(s[..n]) < 0
    ensures TypedDone(StringKind, d, s, NilReply, s[n + 2..])
  {
    forall e: bytes
      ensures ParseTyped(StringKind, s + e, d) == Done(NilReply, s[n + 2..] + e)
    {
      LineKept(s, e);
    }
  }

  lemma BulkDoneWith(d: nat, s: bytes, n: nat, len: nat, e: bytes)
    requires n == LineLength(s) && Number(s[..n]) == len && len + 2 <= |s[n + 2..]|
    ensures var t := s[n + 2..];
            ParseTyped(StringKind, s + e, d) == Done(StringReply(t[..len]), t[len + 2..] + e)
  {
    var t := s[n + 2..];
    LineKept(s, e);
    assert (t + e)[..len] == t[..len];
    assert (t + e)[len + 2..] == t[len + 2..] + e;
  }

  lemma BulkDone(d: nat, s: bytes, n: nat, len: nat)
    requires n == LineLength(s) && Number(s[..n]) == len && len + 2 <= |s[n + 2..]|
    ensures TypedDone(StringKind, d, s, StringReply(s[n + 2..][..len]), s[n + 2 + len + 2..])
  {
    assert s[n + 2..][len + 2..] == s[n + 2 + len + 2..];
    forall e: bytes
      ensures ParseTyped(StringKind, s + e, d) == Done(StringReply(s[n + 2..][..len]), s[n + 2..][len + 2..] + e)
    {
      BulkDoneWith(d, s, n, len, e);
    }
  }

  lemma EmptyArrayDone(d: nat, s: bytes)
    requires LineLength(s) >= 0 && d < MAX_DEPTH
    requires Number(s[..LineLength(s)]) <= 0
    ensures var n := LineLength(s);
            var count := Number(s[..n]);
            TypedDone(ArrayKind, d, s, if count == -1 then NilReply else ArrayReply(count, []), s[n + 2..])
  {
    forall e: bytes
      ensures LineLength(s + e) == LineLength(s)
      ensures (s + e)[..LineLength(s)] == s[..LineLength(s)]
      ensures (s + e)[LineLength(s) + 2..] == s[LineLength(s) + 2..] + e
    {
      LineKept(s, e);
    }
  }

  /** An array header opens a frame. */
  lemma ArrayOpens(f: seq<Frame>, s: bytes)
    requires LineLength(s) >= 0 && |f| < MAX_DEPTH
    requires Number(s[..LineLength(s)]) > 0
    ensures var n := LineLength(s);
            Agree(f, Some(ArrayKind), s, f + [Frame(Number(s[..n]), [])], None, s[n + 2..])
  {
    var n := LineLength(s);
    var count := Number(s[..n]);
    forall e: bytes
      ensures Resume(f, Some(ArrayKind), s + e) == Resume(f + [Frame(count, [])], None, s[n + 2..] + e)
    {
      LineKept(s, e);
      UnwindOpen(f, count, s[n + 2..] + e);
    }
  }

  lemma StuckItem(f: seq<Frame>, k: Option<Kind>, s: bytes)
    requires (if k.None? then ParseItem(s, |f|) else ParseTyped(k.value, s, |f|)) == More
    ensures Resume(f, k, s) == More
  {
    UnwindStuck(f, More);
  }

  lemma FaultyItem(f: seq<Frame>, k: Option<Kind>, s: bytes, fault: Fault)
    requires forall e: bytes ::
               (if k.None? then ParseItem(s + e, |f|) else ParseTyped(k.value, s + e, |f|)) == Fail(fault)
    ensures Faults(f, k, s, fault)
  {
    UnwindStuck(f, Fail(fault));
  }

  /** The type byte decides the item, or fails it, at once. */
  lemma TypeByte(f: seq<Frame>, s: bytes)
    requires s != []
    ensures KindOf(s[0]).None? ==> Faults(f, None, s, BadType(s[0]))
    ensures KindOf(s[0]).Some? ==> Agree(f, None, s, f, KindOf(s[0]), s[1..])
  {
    UnwindStuck(f, Fail(BadType(s[0])));
    forall e: bytes
      ensures ParseItem(s + e, |f|) ==
              match KindOf(s[0])
              case None => Fail(BadType(s[0]))
              case Some(k) => ParseTyped(k, s[1..] + e, |f|)
    {
      assert (s + e)[1..] == s[1..] + e;
    }
  }

  lemma PrependAll(rs: seq<Reply>, rs': seq<Reply>, o: Outcome)
    ensures Prepend(rs, Prepend(rs', o)) == Prepend(rs + rs', o)
  {
    assert rs + (rs' + o.replies) == rs + rs' + o.replies;
  }

  /** Finds CR LF; -1 stands for a null result. */
  method SeekNewline(s: bytes) returns (n: int)
    ensures n == LineLength(s)
  {
    var pos := 0;
    var last := |s| - 1;
    while pos < last
      invariant 0 <= pos <= (if last < 0 then 0 else last)
      invariant forall k: nat :: k < pos ==> !CrlfAt(s, k)
    {
      while pos < last && s[pos] != '\r'
        invariant 0 <= pos <= last
        invariant forall k: nat :: k < pos ==> !CrlfAt(s, k)
      {
        pos := pos + 1;
      }
      if pos == last {
        return -1;
      } else if s[pos + 1] == '\n' {
        assert CrlfAt(s, pos);
        return pos;
      } else {
        pos := pos + 1;
      }
    }
    return -1;
  }

  /** Reads a signed number that ends at the first CR. */
  method ReadLongLong(s: bytes) returns (v: int)
    requires LineLength(s) >= 0
    ensures v == Number(s[..LineLength(s)])
  {
    ghost var line := s[..LineLength(s)];
    var i, mult := 0, 1;
    v := 0;
    if s[i] == '-' {
      mult, i := -1, i + 1;
    } else if s[i] == '+' {
      i := i + 1;
    }
    ghost var body := line[i..];
    while s[i] != '\r'
      invariant 0 <= i <= |line| && 0 <= v
      invariant Digits(body, 0) == Digits(line[i..], v)
      decreases |line| - i
    {
      assert i < |line| && line[i..][0] == s[i] && line[i..][1..] == line[i + 1..];
      if IsDigit(s[i]) {
        v := v * 10 + DigitValue(s[i]);
      } else {
        return -1;
      }
      i := i + 1;
    }
    return mult * v;
  }

  class Reader {
    var err: Option<Fault>
    var buf: bytes
    var pos: nat
    const rstack: array<Task>
    var ridx: int
    var reply: Option<nat>
    var store: seq<Cell>

    /** The arrays under construction and the finished reply objects. */
    ghost var frames: seq<Frame>
    ghost var finished: set<nat>

    constructor ()
      ensures Valid() && fresh(rstack)
      ensures Idle() && Unread() == []
    {
      err, buf, pos, ridx, reply, store := None, [], 0, -1, None, [];
      rstack := new Task[9](_ => Task(None, 0, 0, 0, None));
      frames, finished := [], {};
    }

    ghost function Unread(): bytes
      reads this
      requires pos <= |buf|
    {
      buf[pos..]
    }

    /** Slot k holds an array whose first |acc| elements are finished. */
    ghost predicate FrameOk(k: nat)
      reads this`store, this`frames, this`finished, rstack
      requires rstack.Length == 9 && k < |frames| <= 8
    {
      var t := rstack[k];
      var f := frames[k];
      && t.kind == Some(ArrayKind) && t.elements == f.count > |f.acc|
      && t.obj < |store| && t.obj !in finished
      && store[t.obj].ArrayCell? && store[t.obj].elements == f.count == |store[t.obj].element|
      && rstack[k + 1].idx == |f.acc|
      && rstack[k + 1].parent == Some(k)
      && (forall i :: 0 <= i < |f.acc| ==>
            store[t.obj].element[i].Some? && Denotes(store, finished, store[t.obj].element[i].value, f.acc[i]))
      && (k + 1 < |frames| ==> store[t.obj].element[|f.acc|] == Some(rstack[k + 1].obj))
      && (forall j :: k < j < |frames| ==> rstack[j].obj != t.obj)
    }

    ghost predicate StackOk()
      reads this, rstack
    {
      && pos <= |buf| && rstack.Length == 9
      && |frames| <= 8 && rstack[0].parent == None
      && (forall k :: 0 <= k < |frames| ==> FrameOk(k))
      && (forall h: nat :: h in finished ==> h < |store|)
    }

    ghost predicate Valid()
      reads this, rstack
    {
      && StackOk()
      && -1 <= ridx <= 8
      && |frames| == (if ridx < 0 then 0 else ridx)
      && reply == (if frames == [] then None else Some(rstack[0].obj))
      && (ridx == 8 ==> rstack[8].kind != Some(ArrayKind))
      && (err.Some? ==> ridx == -1 && buf == [])
    }

    /** Between two replies. */
    ghost predicate Idle()
      reads this
    {
      err.None? && ridx == -1
    }

    /** In the middle of a reply. */
    ghost predicate Active()
      reads this, rstack
    {
      && StackOk() && err.None?
      && 0 <= ridx <= 8 && |frames| == ridx
      && reply == (if frames == [] then None else Some(rstack[0].obj))
    }

    /** A whole reply with value root has just been completed. */
    ghost predicate Complete(root: Reply)
      reads this, rstack
    {
      && StackOk() && err.None?
      && ridx == -1 && frames == []
      && reply.Some? && Denotes(store, finished, reply.value, root)
    }

    ghost function Pending(): Option<Kind>
      reads this, rstack
      requires StackOk() && -1 <= ridx <= 8
    {
      if ridx < 0 then None else rstack[ridx].kind
    }

    /** The array that the current task belongs to holds object h at the task's index. */
    ghost predicate Linked(h: nat)
      reads this`store, this`ridx, rstack
    {
      && rstack.Length == 9 && 0 < ridx <= 8
      && rstack[ridx - 1].obj < |store|
      && var p := store[rstack[ridx - 1].obj];
      p.ArrayCell? && 0 <= rstack[ridx].idx < |p.element| && p.element[rstack[ridx].idx] == Some(h)
    }

    /** Stores a new object and enters it in the array of the parent task. */
    method CreateObject(cell: Cell) returns (h: nat)
      requires StackOk() && 0 <= ridx <= 8 && |frames| == ridx
      modifies this`store
      ensures StackOk() && h == old(|store|) && |store| == h + 1
      ensures store[h] == cell && h !in finished
      ensures Keeps(old(store), finished, store, finished)
      ensures ridx > 0 ==> Linked(h)
      ensures forall j :: 0 <= j < ridx ==> rstack[j].obj < h
    {
      h := |store|;
      forall j | 0 <= j < ridx
        ensures rstack[j].obj < h
      {
        assert FrameOk(j);
      }
      var cur := rstack[ridx];
      ghost var before := store;
      assert ridx > 0 ==> FrameOk(ridx - 1);
      assert ridx == 0 ==> cur.parent == None;
      store := store + [cell];
      if cur.parent.Some? {
        var p := rstack[cur.parent.value].obj;
        store := store[p := store[p].(element := store[p].element[cur.idx := Some(h)])];
      }
      forall k | 0 <= k < |frames|
        ensures FrameOk(k)
      {
        assert old(FrameOk(k));
        forall i | 0 <= i < |frames[k].acc|
          ensures Denotes(store, finished, store[rstack[k].obj].element[i].value, frames[k].acc[i])
        {
          DenotesKept(before, finished, store, finished, before[rstack[k].obj].element[i].value, frames[k].acc[i]);
        }
      }
    }

    /** What the two innermost tasks hold. */
    lemma TopFrame()
      requires StackOk() && 0 < ridx <= 8 && |frames| == ridx
      ensures var f := frames[ridx - 1];
              && rstack[ridx - 1].kind == Some(ArrayKind) && rstack[ridx - 1].elements == f.count
              && rstack[ridx].idx == |f.acc| < f.count
    {
      assert FrameOk(ridx - 1);
    }

    /** Object o of the innermost frame is complete once its last element h is. */
    lemma CloseFrame(h: nat, r: Reply, finished': set<nat>)
      requires StackOk() && 0 < ridx <= 8 && |frames| == ridx
      requires Linked(h) && Denotes(store, finished, h, r)
      requires |frames[ridx - 1].acc| + 1 == frames[ridx - 1].count
      requires finished' == finished + {rstack[ridx - 1].obj}
      ensures var f := frames[ridx - 1];
              Denotes(store, finished', rstack[ridx - 1].obj, ArrayReply(f.count, f.acc + [r]))
    {
      var f := frames[ridx - 1];
      assert FrameOk(ridx - 1);
      var element := store[rstack[ridx - 1].obj].element;
      var all := f.acc + [r];
      forall i | 0 <= i < |all|
        ensures element[i].Some? && Denotes(store, finished', element[i].value, all[i])
      {
        DenotesKept(store, finished, store, finished', element[i].value, all[i]);
      }
    }

    /** After object h with value r is complete: pops completed arrays and stops at the next unread item. */
    method MoveToNextTask(ghost h: nat, ghost r: Reply) returns (ghost root: Reply)
      requires StackOk() && 0 <= ridx <= 8 && |frames| == ridx
      requires Denotes(store, finished, h, r)
      requires ridx > 0 ==> Linked(h)
      modifies this`ridx, this`frames, this`finished, rstack
      ensures StackOk() && -1 <= ridx <= old(ridx) && |frames| == (if ridx < 0 then 0 else ridx)
      ensures Keeps(store, old(finished), store, finished)
      ensures rstack[0].obj == old(rstack[0].obj)
      ensures ridx >= 0 ==>
                && frames != [] && rstack[ridx].kind == None
                && AwaitsIn(old(frames), r, frames)
      ensures ridx < 0 ==>
                && Denotes(store, finished, if old(ridx) == 0 then h else rstack[0].obj, root)
                && SameUnwind(old(frames), r, [], root)
    {
      hide Denotes, SameUnwind, AwaitsIn, Unwind, Resume;
      UnwindSelf(frames, r);
      ghost var o, v := h, r;
      root := r;
      while ridx >= 0
        invariant StackOk() && 0 <= ridx <= old(ridx) && frames == old(frames)[..ridx]
        invariant Keeps(store, old(finished), store, finished)
        invariant Denotes(store, finished, o, v)
        invariant o == if ridx == old(ridx) then h else rstack[ridx].obj
        invariant ridx > 0 ==> Linked(o)
        invariant rstack[..] == old(rstack[..])
        invariant SameUnwind(old(frames), r, frames, v)
      {
        if ridx == 0 {
          ridx := ridx - 1;
          root := v;
          return;
        }
        var cur, prv := rstack[ridx], rstack[ridx - 1];
        ghost var f := frames[ridx - 1];
        TopFrame();
        assert prv.kind == Some(ArrayKind);
        UnwindStep(old(frames), r, frames, v);
        if cur.idx == prv.elements - 1 {
          PopTask(o, v);
          o, v := prv.obj, ArrayReply(f.count, f.acc + [v]);
        } else {
          assert cur.idx < prv.elements;
          AdvanceTask(o, v);
          return;
        }
      }
    }

    /** The innermost array counts element h and waits for the next one, which can be of any type. */
    method AdvanceTask(ghost h: nat, ghost r: Reply)
      requires StackOk() && 0 < ridx <= 8 && |frames| == ridx
      requires Denotes(store, finished, h, r) && Linked(h)
      requires |frames[ridx - 1].acc| + 1 < frames[ridx - 1].count
      modifies this`frames, rstack
      ensures StackOk()
      ensures frames == Extended(old(frames), r)
      ensures rstack[ridx].kind == None && rstack[0].obj == old(rstack[0].obj)
    {
      var cur := rstack[ridx];
      assert FrameOk(ridx - 1);
      rstack[ridx] := cur.(kind := None, elements := -1, idx := cur.idx + 1);
      frames := Extended(frames, r);
      forall k | 0 <= k < |frames|
        ensures FrameOk(k)
      {
        assert old(FrameOk(k));
      }
    }

    /** The innermost array is complete with element h and becomes the finished item of its task. */
    method PopTask(ghost h: nat, ghost r: Reply)
      requires StackOk() && 0 < ridx <= 8 && |frames| == ridx
      requires Denotes(store, finished, h, r) && Linked(h)
      requires |frames[ridx - 1].acc| + 1 == frames[ridx - 1].count
      modifies this`ridx, this`frames, this`finished
      ensures StackOk()
      ensures ridx == old(ridx) - 1 && frames == old(frames)[..ridx]
      ensures Keeps(store, old(finished), store, finished)
      ensures var f := old(frames)[ridx];
              Denotes(store, finished, rstack[ridx].obj, ArrayReply(f.count, f.acc + [r]))
      ensures ridx > 0 ==> Linked(rstack[ridx].obj)
    {
      CloseFrame(h, r, finished + {rstack[ridx - 1].obj});
      assert ridx > 1 ==> FrameOk(ridx - 2);
      PopFrame();
      ridx := ridx - 1;
    }

    /** The innermost array joins the finished objects. */
    ghost method PopFrame()
      requires StackOk() && 0 < |frames| <= 8
      modifies this`frames, this`finished
      ensures StackOk()
      ensures frames == old(frames)[..|old(frames)| - 1]
      ensures finished == old(finished) + {rstack[|frames|].obj}
    {
      var d := |frames| - 1;
      assert FrameOk(d);
      var before := finished;
      finished := finished + {rstack[d].obj};
      frames := frames[..d];
      forall k | 0 <= k < d
        ensures FrameOk(k)
      {
        assert old(FrameOk(k));
        forall i | 0 <= i < |frames[k].acc|
          ensures Denotes(store, finished, store[rstack[k].obj].element[i].value, frames[k].acc[i])
        {
          DenotesKept(store, before, store, finished, store[rstack[k].obj].element[i].value, frames[k].acc[i]);
        }
      }
    }

    /** Drops the partial reply, the input and the task stack, and records the fault. */
    method SetError(fault: Fault)
      requires StackOk()
      modifies this`err, this`buf, this`pos, this`ridx, this`reply, this`frames
      ensures Valid() && err == Some(fault)
    {
      reply := None;
      buf, pos := [], 0;
      ridx := -1;
      err := Some(fault);
      frames := [];
    }

    /** Takes one line off the input; -1 when there is no complete line yet. */
    method ReadLine() returns (n: int)
      requires pos <= |buf|
      modifies this`pos
      ensures n == LineLength(old(Unread()))
      ensures n < 0 ==> pos == old(pos)
      ensures n >= 0 ==> pos <= |buf| && Unread() == old(Unread())[n + 2..]
    {
      n := SeekNewline(buf[pos..]);
      if n >= 0 {
        pos := pos + n + 2;
      }
    }

    ghost method MarkFinished(h: nat)
      requires StackOk() && |frames| <= 8 && h < |store|
      requires forall j :: 0 <= j < |frames| ==> rstack[j].obj < h
      modifies this`finished
      ensures StackOk() && finished == old(finished) + {h}
    {
      var before := finished;
      finished := finished + {h};
      forall k | 0 <= k < |frames|
        ensures FrameOk(k)
      {
        assert old(FrameOk(k));
        forall i | 0 <= i < |frames[k].acc|
          ensures Denotes(store, finished, store[rstack[k].obj].element[i].value, frames[k].acc[i])
        {
          DenotesKept(store, before, store, finished, store[rstack[k].obj].element[i].value, frames[k].acc[i]);
        }
      }
    }

    /** The new object h is the value of the current task. */
    method FinishItem(h: nat, ghost r: Reply, ghost k: Kind, ghost s: bytes) returns (ghost root: Reply)
      requires Active() && h < |store| && h !in finished
      requires Denotes(store, finished + {h}, h, r)
      requires ridx > 0 ==> Linked(h) && forall j :: 0 <= j < ridx ==> rstack[j].obj < h
      requires TypedDone(k, ridx, s, r, Unread())
      modifies this`ridx, this`reply, this`frames, this`finished, rstack
      ensures Keeps(store, old(finished), store, finished)
      ensures ridx >= 0 ==>
                && Active() && rstack[ridx].kind == None
                && Agree(old(frames), Some(k), s, frames, None, Unread())
      ensures ridx < 0 ==> Complete(root) && Yields(old(frames), Some(k), s, root, Unread())
    {
      if ridx == 0 {
        reply := Some(h);
      }
      MarkFinished(h);
      root := MoveToNextTask(h, r);
    }

    /** An integer, status or error line. */
    method ProcessLineItem(ghost s: bytes) returns (ok: bool, ghost root: Reply)
      requires Active() && s == Unread()
      requires rstack[ridx].kind.Some? && rstack[ridx].kind.value in {ErrorKind, StatusKind, IntegerKind}
      modifies this`pos, this`store, this`ridx, this`reply, this`frames, this`finished, rstack
      ensures ItemEffect(ok, root, old(frames), old(rstack[ridx].kind), s)
      ensures Keeps(old(store), old(finished), store, finished)
    {
      root := NilReply;
      var cur := rstack[ridx];
      var start := pos;
      var len := ReadLine();
      if len < 0 {
        StuckItem(frames, cur.kind, s);
        return false, root;
      }
      var h;
      ghost var r;
      if cur.kind == Some(IntegerKind) {
        var v := ReadLongLong(buf[start..]);
        h := CreateObject(IntegerCell(v));
        r := IntegerReply(v);
      } else {
        h := CreateObject(StringCell(cur.kind.value, buf[start..start + len]));
        assert buf[start..start + len] == s[..len];
        r := if cur.kind == Some(ErrorKind) then ErrorReply(s[..len]) else StatusReply(s[..len]);
      }
      LineDone(cur.kind.value, ridx, s);
      root := FinishItem(h, r, cur.kind.value, s);
      ok := true;
    }

    /** What handling one typed item read from s does to the suspended parse. */
    ghost predicate ItemEffect(ok: bool, root: Reply, f: seq<Frame>, k: Option<Kind>, s: bytes)
      reads this, rstack
    {
      if err.Some? then !ok && Valid() && Faults(f, k, s, err.value)
      else if !ok then
        && Active() && Pending() == k && Unread() == s && frames == f
        && (ridx == 8 ==> k != Some(ArrayKind))
        && Resume(f, k, s) == More
      else if ridx >= 0 then
        && Active() && rstack[ridx].kind == None && Agree(f, k, s, frames, None, Unread())
        && |Unread()| < |s|
      else
        Complete(root) && Yields(f, k, s, root, Unread()) && |Unread()| < |s|
    }

    /** A bulk string: nothing is consumed until the whole payload is there. */
    method ProcessBulkItem(ghost s: bytes) returns (ok: bool, ghost root: Reply)
      requires Active() && s == Unread()
      requires rstack[ridx].kind == Some(StringKind)
      modifies this`pos, this`store, this`ridx, this`reply, this`frames, this`finished, rstack
      ensures ItemEffect(ok, root, old(frames), old(rstack[ridx].kind), s)
      ensures Keeps(old(store), old(finished), store, finished)
    {
      root := NilReply;
      var p := buf[pos..];
      var n := SeekNewline(p);
      if n >= 0 {
        var bytelen := n + 2;
        var len := ReadLongLong(p);
        if len < 0 {
          NilBulkDone(ridx, s, n);
          root := CompleteBulk(NilCell, bytelen, NilReply, s);
          return true, root;
        }
        bytelen := bytelen + len + 2;
        if pos + bytelen <= |buf| {
          root := CompleteString(n, len, s);
          return true, root;
        }
      }
      StuckItem(frames, Some(StringKind), s);
      ok := false;
    }

    /** The payload of len bytes behind the line of n bytes is there. */
    method CompleteString(n: nat, len: nat, ghost s: bytes) returns (ghost root: Reply)
      requires Active() && s == Unread()
      requires rstack[ridx].kind == Some(StringKind)
      requires n == LineLength(s) && Number(s[..n]) == len && n + 2 + len + 2 <= |s|
      modifies this`pos, this`store, this`ridx, this`reply, this`frames, this`finished, rstack
      ensures ItemEffect(true, root, old(frames), old(rstack[ridx].kind), s)
      ensures Keeps(old(store), old(finished), store, finished)
    {
      var str := buf[pos + n + 2..][..len];
      assert buf[pos + n + 2..] == s[n + 2..];
      BulkDone(ridx, s, n, len);
      root := CompleteBulk(StringCell(StringKind, str), n + 2 + len + 2, StringReply(str), s);
    }

    /** The tail of a bulk item whose bytelen bytes are all there. */
    method CompleteBulk(cell: Cell, bytelen: nat, ghost r: Reply, ghost s: bytes) returns (ghost root: Reply)
      requires Active() && s == Unread() && 0 < bytelen <= |s|
      requires rstack[ridx].kind == Some(StringKind)
      requires Denotes([cell], {0}, 0, r) && !cell.ArrayCell?
      requires TypedDone(StringKind, ridx, s, r, s[bytelen..])
      modifies this`pos, this`store, this`ridx, this`reply, this`frames, this`finished, rstack
      ensures ItemEffect(true, root, old(frames), old(rstack[ridx].kind), s)
      ensures Keeps(old(store), old(finished), store, finished)
    {
      var h := CreateObject(cell);
      pos := pos + bytelen;
      assert Unread() == s[bytelen..];
      root := FinishItem(h, r, StringKind, s);
    }

    /** Enters the array object h: a new task slot waits for its first element. */
    method PushTask(h: nat, elements: int)
      requires StackOk() && err.None? && 0 <= ridx < 8 && |frames| == ridx
      requires rstack[ridx].kind == Some(ArrayKind)
      requires elements > 0 && h < |store| && h !in finished
      requires store[h] == ArrayCell(elements, seq(elements, _ => None))
      requires ridx > 0 ==> Linked(h) && forall j :: 0 <= j < ridx ==> rstack[j].obj < h
      requires reply == (if frames == [] then None else Some(rstack[0].obj))
      modifies this`ridx, this`reply, this`frames, rstack
      ensures Active() && ridx == old(ridx) + 1
      ensures rstack[ridx].kind == None && frames == old(frames) + [Frame(elements, [])]
    {
      var root := ridx == 0;
      rstack[ridx] := rstack[ridx].(elements := elements, obj := h);
      ridx := ridx + 1;
      rstack[ridx] := Task(None, -1, 0, 0, Some(ridx - 1));
      frames := frames + [Frame(elements, [])];
      if root {
        reply := Some(h);
      }
      forall k | 0 <= k < |frames|
        ensures FrameOk(k)
      {
        assert k < |old(frames)| ==> old(FrameOk(k));
      }
    }

    /** An array with elements: its object is entered. */
    method EnterArray(elements: int, ghost s: bytes)
      requires Active() && ridx < 8 && rstack[ridx].kind == Some(ArrayKind)
      requires LineLength(s) >= 0 && Number(s[..LineLength(s)]) == elements > 0 && Unread() == s[LineLength(s) + 2..]
      modifies this`store, this`ridx, this`reply, this`frames, rstack
      ensures Active() && rstack[ridx].kind == None
      ensures Agree(old(frames), Some(ArrayKind), s, frames, None, Unread())
      ensures Keeps(old(store), finished, store, finished)
    {
      hide Agree, Denotes;
      var h := CreateObject(ArrayCell(elements, seq(elements, _ => None)));
      ArrayOpens(frames, s);
      PushTask(h, elements);
    }

    /** An array without elements, or none at all: its object is finished. */
    method FinishEmpty(elements: int, ghost s: bytes) returns (ghost root: Reply)
      requires Active() && ridx < 8 && rstack[ridx].kind == Some(ArrayKind)
      requires LineLength(s) >= 0 && Number(s[..LineLength(s)]) == elements <= 0 && Unread() == s[LineLength(s) + 2..]
      modifies this`store, this`ridx, this`reply, this`frames, this`finished, rstack
      ensures Keeps(old(store), old(finished), store, finished)
      ensures ridx >= 0 ==>
                && Active() && rstack[ridx].kind == None
                && Agree(old(frames), Some(ArrayKind), s, frames, None, Unread())
      ensures ridx < 0 ==> Complete(root) && Yields(old(frames), Some(ArrayKind), s, root, Unread())
    {
      hide Agree, Yields;
      EmptyArrayDone(ridx, s);
      var h;
      if elements == -1 {
        h := CreateObject(NilCell);
        root := FinishItem(h, NilReply, ArrayKind, s);
      } else {
        h := CreateObject(ArrayCell(elements, []));
        root := FinishItem(h, ArrayReply(elements, []), ArrayKind, s);
      }
    }

    /** An array header: refused at the deepest level before its line is read. */
    method ProcessMultiBulkItem(ghost s: bytes) returns (ok: bool, ghost root: Reply)
      requires Active() && s == Unread()
      requires rstack[ridx].kind == Some(ArrayKind)
      modifies this`err, this`buf, this`pos, this`store, this`ridx, this`reply, this`frames, this`finished, rstack
      ensures ItemEffect(ok, root, old(frames), old(rstack[ridx].kind), s)
      ensures Keeps(old(store), old(finished), store, finished)
    {
      hide Agree, Yields, Denotes;
      root := NilReply;
      if ridx == 8 {
        FaultyItem(frames, Some(ArrayKind), s, TooDeep);
        SetError(TooDeep);
        return false, root;
      }
      var start := pos;
      var n := ReadLine();
      if n < 0 {
        StuckItem(frames, Some(ArrayKind), s);
        return false, root;
      }
      var elements := ReadLongLong(buf[start..]);
      if elements > 0 {
        EnterArray(elements, s);
      } else {
        root := FinishEmpty(elements, s);
      }
      ok := true;
    }

    /** One step of the task stack: reads the type byte if it is missing, then the item itself. */
    method ProcessItem() returns (ok: bool, ghost root: Reply)
      requires Active()
      modifies this`err, this`buf, this`pos, this`store, this`ridx, this`reply, this`frames, this`finished, rstack
      ensures ok || err.Some? || (Active() && (ridx == 8 ==> rstack[8].kind != Some(ArrayKind)))
      ensures err.Some? ==> !ok && Valid() && Faults(old(frames), old(Pending()), old(Unread()), err.value)
      ensures !ok && err.None? ==>
                && Agree(old(frames), old(Pending()), old(Unread()), frames, Pending(), Unread())
                && Resume(frames, Pending(), Unread()) == More
      ensures ok && ridx >= 0 ==>
                && Active() && |Unread()| < |old(Unread())|
                && Agree(old(frames), old(Pending()), old(Unread()), frames, Pending(), Unread())
      ensures ok && ridx < 0 ==>
                && Complete(root) && |Unread()| < |old(Unread())|
                && Yields(old(frames), old(Pending()), old(Unread()), root, Unread())
      ensures Keeps(old(store), old(finished), store, finished)
    {
      hide Denotes;
      root := NilReply;
      ghost var s0 := Unread();
      if rstack[ridx].kind.None? {
        if pos >= |buf| {
          StuckItem(frames, None, s0);
          return false, root;
        }
        var b := buf[pos];
        pos := pos + 1;
        TypeByte(frames, s0);
        assert Unread() == s0[1..];
        var kind := KindOf(b);
        if kind.None? {
          SetError(BadType(b));
          return false, root;
        }
        SetKind(kind.value);
      }
      ghost var s := Unread();
      match rstack[ridx].kind.value {
        case ErrorKind => ok, root := ProcessLineItem(s);
        case StatusKind => ok, root := ProcessLineItem(s);
        case IntegerKind => ok, root := ProcessLineItem(s);
        case StringKind => ok, root := ProcessBulkItem(s);
        case ArrayKind => ok, root := ProcessMultiBulkItem(s);
      }
    }

    method SetKind(kind: Kind)
      requires Active()
      modifies rstack
      ensures Active() && Pending() == Some(kind)
    {
      rstack[ridx] := rstack[ridx].(kind := Some(kind));
      forall k | 0 <= k < |frames|
        ensures FrameOk(k)
      {
        assert old(FrameOk(k));
      }
    }

    /** Appends input; refused once the reader has failed. */
    method Feed(chunk: bytes) returns (ok: bool)
      requires Valid()
      modifies this`buf
      ensures Valid()
      ensures ok == err.None?
      ensures Unread() == if ok then old(Unread()) + chunk else old(Unread())
    {
      if err.Some? {
        return false;
      }
      if |chunk| >= 1 {
        buf := buf + chunk;
      }
      ok := true;
    }

    /** Items are processed until the reply is complete, the input ends, or there is an error. */
    method ProcessItems() returns (ghost root: Reply)
      requires Active()
      modifies this`err, this`buf, this`pos, this`store, this`ridx, this`reply, this`frames, this`finished, rstack
      ensures Keeps(old(store), old(finished), store, finished)
      ensures err.Some? ==> Valid() && Faults(old(frames), old(Pending()), old(Unread()), err.value)
      ensures err.None? && ridx >= 0 ==>
                && Valid() && Agree(old(frames), old(Pending()), old(Unread()), frames, Pending(), Unread())
                && Resume(frames, Pending(), Unread()) == More
      ensures err.None? && ridx < 0 ==>
                && Complete(root) && Yields(old(frames), old(Pending()), old(Unread()), root, Unread())
                && |Unread()| < |old(Unread())|
    {
      hide Denotes, FrameOk;
      root := NilReply;
      ghost var f0, k0, s0 := frames, Pending(), Unread();
      while ridx >= 0
        invariant StackOk() && err.None? && |Unread()| <= |s0|
        invariant ridx >= 0 ==> Active() && Agree(f0, k0, s0, frames, Pending(), Unread())
        invariant ridx < 0 ==> Complete(root) && Yields(f0, k0, s0, root, Unread()) && |Unread()| < |s0|
        invariant Keeps(old(store), old(finished), store, finished)
        decreases ridx >= 0, |Unread()|
      {
        var step;
        step, root := ProcessItem();
        if !step {
          break;
        }
      }
    }

    /** The first task of a reply, unless one is being read. */
    method StartTask()
      requires Valid() && err.None?
      modifies this`ridx, rstack
      ensures Active() && Pending() == old(Pending())
    {
      if ridx == -1 {
        rstack[0] := Task(None, -1, -1, 0, None);
        ridx := 0;
      }
    }

    /** Lets go of the bytes that have been read. */
    method Compact()
      requires pos <= |buf|
      modifies this`buf, this`pos
      ensures pos <= |buf| && Unread() == old(Unread())
    {
      if pos >= 1024 {
        buf := buf[pos..];
        pos := 0;
      }
    }

    /**
     * Resumes the current reply, or starts the next one.  The outcome is that of
     * the recursive-descent parse, whatever is fed later.
     */
    method GetReply() returns (ok: bool, h: Option<nat>, ghost root: Reply)
      requires Valid()
      modifies this, rstack
      ensures Valid() && Keeps(old(store), old(finished), store, finished)
      ensures old(err).Some? ==> !ok && err == old(err)
      ensures ok == err.None? && (!ok ==> h.None?)
      ensures old(err).None? && !ok ==> Faults(old(frames), old(Pending()), old(Unread()), err.value)
      ensures ok && h.None? ==>
                && Agree(old(frames), old(Pending()), old(Unread()), frames, Pending(), Unread())
                && Resume(frames, Pending(), Unread()) == More
      ensures ok && h.Some? ==>
                && Idle() && Denotes(store, finished, h.value, root)
                && Yields(old(frames), old(Pending()), old(Unread()), root, Unread())
                && |Unread()| < |old(Unread())|
    {
      hide Denotes;
      h, root := None, NilReply;
      if err.Some? {
        return false, None, root;
      }
      if |buf| == 0 {
        StuckItem(frames, Pending(), Unread());
        return true, None, root;
      }
      StartTask();
      root := ProcessItems();
      if err.Some? {
        return false, None, root;
      }
      Compact();
      if ridx == -1 {
        h := reply;
        reply := None;
      }
      ok := true;
    }

    /** Takes replies until the reader needs more input or fails. */
    method Drain(ghost future: bytes) returns (handles: seq<nat>, ghost replies: seq<Reply>)
      requires Valid() && err.None?
      modifies this, rstack
      ensures Valid() && Keeps(old(store), old(finished), store, finished)
      ensures |handles| == |replies|
      ensures forall i :: 0 <= i < |handles| ==> Denotes(store, finished, handles[i], replies[i])
      ensures var o := ResumeStream(old(frames), old(Pending()), old(Unread()) + future);
              if err.Some? then o == Outcome(replies, err)
              else
                && o == Prepend(replies, ResumeStream(frames, Pending(), Unread() + future))
                && Resume(frames, Pending(), Unread()) == More
    {
      hide Denotes;
      handles, replies := [], [];
      ghost var o := ResumeStream(frames, Pending(), Unread() + future);
      while true
        invariant Valid() && err.None? && Keeps(old(store), old(finished), store, finished)
        invariant |handles| == |replies|
        invariant forall i :: 0 <= i < |handles| ==> Denotes(store, finished, handles[i], replies[i])
        invariant o == Prepend(replies, ResumeStream(frames, Pending(), Unread() + future))
        decreases |Unread()|
      {
        ghost var store0, finished0, unread := store, finished, Unread();
        var ok, h;
        ghost var root;
        ok, h, root := GetReply();
        forall i | 0 <= i < |handles|
          ensures Denotes(store, finished, handles[i], replies[i])
        {
          DenotesKept(store0, finished0, store, finished, handles[i], replies[i]);
        }
        if !ok || h.None? {
          assert !ok ==> o == Prepend(replies, Outcome([], err));
          return;
        }
        handles, replies := handles + [h.value], replies + [root];
        PrependAll(replies[..|replies| - 1], [root], ParseStream(Unread() + future));
      }
    }

    /** Feeds one chunk and drains it; refused chunks change nothing. */
    method FeedChunk(chunk: bytes, ghost future: bytes) returns (handles: seq<nat>, ghost replies: seq<Reply>)
      requires Valid()
      modifies this, rstack
      ensures Valid() && Keeps(old(store), old(finished), store, finished)
      ensures |handles| == |replies|
      ensures forall i :: 0 <= i < |handles| ==> Denotes(store, finished, handles[i], replies[i])
      ensures old(err).Some? ==> err == old(err) && replies == []
      ensures old(err).None? ==>
                var o := ResumeStream(old(frames), old(Pending()), old(Unread()) + (chunk + future));
                if err.Some? then o == Outcome(replies, err)
                else
                  && o == Prepend(replies, ResumeStream(frames, Pending(), Unread() + future))
                  && Resume(frames, Pending(), Unread()) == More
    {
      handles, replies := [], [];
      assert Unread() + (chunk + future) == Unread() + chunk + future;
      var fed := Feed(chunk);
      if fed {
        handles, replies := Drain(future);
      }
    }

    /** The objects collected so far denote the replies. */
    ghost predicate Collected(handles: seq<nat>, replies: seq<Reply>)
      reads `store, `finished
    {
      |handles| == |replies| && forall k :: 0 <= k < |handles| ==> Denotes(store, finished, handles[k], replies[k])
    }

    /** Outcome o is the replies so far, then an error or what the rest of the stream will yield. */
    ghost predicate Told(o: Outcome, replies: seq<Reply>, rest: bytes)
      requires Valid()
      reads this, rstack
    {
      if err.Some? then o == Outcome(replies, err)
      else o == Prepend(replies, ResumeStream(frames, Pending(), Unread() + rest))
    }

    lemma ToldMore(o: Outcome, before: seq<Reply>, drained: seq<Reply>, was: Outcome, rest: bytes)
      requires Valid() && o == Prepend(before, was)
      requires if err.Some? then was == Outcome(drained, err)
               else was == Prepend(drained, ResumeStream(frames, Pending(), Unread() + rest))
      ensures Told(o, before + drained, rest)
    {
      hide ResumeStream;
      if err.None? {
        PrependAll(before, drained, ResumeStream(frames, Pending(), Unread() + rest));
      }
    }

    /** One chunk more. */
    method FeedNext(chunk: bytes, handles: seq<nat>, ghost future: bytes, ghost o: Outcome, ghost replies: seq<Reply>)
      returns (all: seq<nat>, ghost allReplies: seq<Reply>)
      requires Valid() && Collected(handles, replies) && Told(o, replies, chunk + future)
      modifies this, rstack
      ensures Valid() && Collected(all, allReplies) && Told(o, allReplies, future)
      ensures old(err).Some? ==> err == old(err) && allReplies == replies
      ensures err.None? ==> Resume(frames, Pending(), Unread()) == More
    {
      hide ResumeStream, Resume, Denotes, Keeps;
      ghost var store0, finished0 := store, finished;
      ghost var was := ResumeStream(frames, Pending(), Unread() + (chunk + future));
      var more;
      ghost var drained;
      more, drained := FeedChunk(chunk, future);
      forall k | 0 <= k < |handles|
        ensures Denotes(store, finished, handles[k], replies[k])
      {
        DenotesKept(store0, finished0, store, finished, handles[k], replies[k]);
      }
      all, allReplies := handles + more, replies + drained;
      if old(err).None? {
        ToldMore(o, replies, drained, was, future);
      }
    }

    /**
     * However a byte stream is cut into chunks, feeding them one by one and
     * draining after each gives the replies and the fault of the whole stream.
     */
    method FeedAll(chunks: seq<bytes>) returns (handles: seq<nat>)
      requires Valid() && Idle() && Unread() == []
      modifies this, rstack
      ensures Valid()
      ensures var o := ParseStream(Concat(chunks));
              && err == o.fault
              && |handles| == |o.replies|
              && forall i :: 0 <= i < |handles| ==> Denotes(store, finished, handles[i], o.replies[i])
    {
      hide Denotes;
      handles := [];
      ghost var replies: seq<Reply> := [];
      ghost var o := ParseStream(Concat(chunks));
      assert chunks[0..] == chunks && Unread() + Concat(chunks) == Concat(chunks);
      for i := 0 to |chunks|
        invariant Valid() && Collected(handles, replies) && Told(o, replies, Concat(chunks[i..]))
        invariant err.None? ==> Resume(frames, Pending(), Unread()) == More
      {
        assert chunks[i..][1..] == chunks[i + 1..];
        handles, replies := FeedNext(chunks[i], handles, Concat(chunks[i + 1..]), o, replies);
      }
      assert Unread() + [] == Unread();
    }
  }
}
