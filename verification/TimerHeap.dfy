/** The timers of a manager: a binary heap with back-pointers, and the scheduler over it. */
module TimerHeap {
  import opened HeapOrder

  /** The two bits of a timer's status. */
  datatype Status = Status(canceled: bool, incallback: bool)

  const IDLE := Status(false, false)

  lemma DownAround(k: seq<int>, p: nat)
    requires OnlyDown(k, p)
    ensures Around(k, p)
  {
  }

  /** How often a turn of the scheduler meets a timer, and how often it calls its callback, at time now. */
  function Turns(expired: int, timeout: int, again: bool, compensate: bool, now: int): (n: nat)
    requires again ==> timeout > 0
  {
    if expired > now then 0
    else if again && compensate then (now - expired) / timeout + 1
    else 1
  }

  lemma Multiple(d: int, x: int)
    requires d > 0
    ensures x >= 1 ==> d * x >= d
    ensures x <= -1 ==> d * x <= -d
  {
    if x >= 1 {
      assert d * x == d * (x - 1) + d && d * (x - 1) >= 0;
    } else if x <= -1 {
      assert d * x == d * (x + 1) - d && d * (x + 1) <= 0;
    }
  }

  lemma QuotientStep(a: int, d: int)
    requires d > 0
    ensures (a - d) / d == a / d - 1
  {
    var x := (a - d) / d - (a / d - 1);
    assert a == d * (a / d) + a % d && a - d == d * ((a - d) / d) + (a - d) % d;
    assert d * x == d * ((a - d) / d) - d * (a / d) + d;
    Multiple(d, x);
  }

  lemma SmallQuotient(a: int, d: int)
    requires 0 <= a < d
    ensures a / d == 0
  {
  }

  /** A periodic timer comes back with one turn less. */
  lemma TurnsLess(expired: int, timeout: int, compensate: bool, now: int)
    requires timeout > 0 && expired <= now
    ensures Turns(expired, timeout, true, compensate, now) ==
            1 + Turns(if compensate then expired + timeout else now + timeout, timeout, true, compensate, now)
  {
    if expired + timeout <= now {
      QuotientStep(now - expired, timeout);
    } else {
      SmallQuotient(now - expired, timeout);
    }
  }

  /** When a timer that fired at now after expiring at e is due again. */
  function Rearmed(compensate: bool, e: int, timeout: int, now: int): int {
    if compensate then e + timeout else now + timeout
  }

  /** When a timer that expired first at e expires after its callback was called some times at now. */
  function Expiry(compensate: bool, e: int, timeout: int, times: nat, now: int): int {
    if compensate then e + times * timeout
    else if times == 0 then e
    else now + timeout
  }

  /** A timer's fields that scheduling changes, how often its callback was called, and its turns left. */
  datatype Tally = Tally(expired: int, idle: bool, alive: bool, times: nat, left: nat)

  /** Scheduling at now has brought a timer with these constants from first to y. */
  predicate Tallied(compensate: bool, now: int, timeout: int, once: bool, expired: int, idle: bool, y: Tally)
    requires once || timeout > 0
  {
    && y.left == (if y.alive then Turns(y.expired, timeout, y.idle && !once, compensate, now) else 0)
    && (if idle then y.times + y.left == Turns(expired, timeout, !once, compensate, now) else y.times == 0)
    && (y.alive && (once || !idle) ==> y.times == 0)
    && (y.alive ==> y.idle == idle && y.expired == Expiry(compensate, expired, timeout, y.times, now))
    && (!y.alive ==> expired <= now && (once || !idle))
  }

  /** What one turn does to the timer it meets. */
  function AfterTurn(compensate: bool, now: int, timeout: int, once: bool, y: Tally): Tally
    requires y.left > 0
  {
    var times := if y.idle then y.times + 1 else y.times;
    if y.idle && !once then Tally(Rearmed(compensate, y.expired, timeout, now), true, true, times, y.left - 1)
    else Tally(y.expired, false, false, times, y.left - 1)
  }

  lemma TurnTallied(compensate: bool, now: int, timeout: int, once: bool, expired: int, idle: bool, y: Tally)
    requires once || timeout > 0
    requires Tallied(compensate, now, timeout, once, expired, idle, y) && y.alive && y.expired <= now
    ensures y.left > 0
    ensures Tallied(compensate, now, timeout, once, expired, idle, AfterTurn(compensate, now, timeout, once, y))
  {
    if y.idle && !once {
      TurnsLess(y.expired, timeout, compensate, now);
      assert compensate ==> y.times * timeout + timeout == (y.times + 1) * timeout;
    }
  }

  lemma FirstTally(compensate: bool, now: int, timeout: int, once: bool, expired: int, idle: bool)
    requires once || timeout > 0
    ensures Tallied(compensate, now, timeout, once, expired, idle,
                    Tally(expired, idle, true, 0, Turns(expired, timeout, idle && !once, compensate, now)))
  {
  }

  /** A timer in the heap that does not expire by now has had all its turns, and so has one that left. */
  lemma LastTally(compensate: bool, now: int, timeout: int, once: bool, expired: int, idle: bool, y: Tally)
    requires once || timeout > 0
    requires Tallied(compensate, now, timeout, once, expired, idle, y) && (y.alive ==> y.expired > now)
    ensures y.times == if idle then Turns(expired, timeout, !once, compensate, now) else 0
    ensures y.alive <==> expired > now || (!once && idle)
    ensures y.alive ==> y.expired == if compensate then expired + y.times * timeout
                                     else if expired > now then expired else now + timeout
  {
  }

  /** The sum of the turns left. */
  ghost function Sum(m: map<Timer, nat>): nat
    decreases |m|
  {
    if m == map[] then 0
    else
      var t :| t in m;
      m[t] + Sum(m - {t})
  }

  lemma {:induction false} SumWithout(m: map<Timer, nat>, t: Timer)
    requires t in m
    ensures Sum(m) == m[t] + Sum(m - {t})
    decreases |m|
  {
    var u :| u in m && Sum(m) == m[u] + Sum(m - {u});
    if u != t {
      SumWithout(m - {u}, t);
      assert m - {u} - {t} == m - {t} - {u};
      SumWithout(m - {t}, u);
    }
  }

  lemma SumLess(m: map<Timer, nat>, t: Timer)
    requires t in m && m[t] > 0
    ensures Sum(m[t := m[t] - 1]) == Sum(m) - 1
  {
    SumWithout(m, t);
    SumWithout(m[t := m[t] - 1], t);
    assert m[t := m[t] - 1] - {t} == m - {t};
  }

  /** A call of a timer's callback: the timer, and the expiry time it was called for. */
  datatype Firing = Firing(timer: Timer, due: int)

  /** How often t's callback was called. */
  function Times(fired: seq<Firing>, t: Timer): nat {
    if fired == [] then 0
    else Times(fired[..|fired| - 1], t) + (if fired[|fired| - 1].timer == t then 1 else 0)
  }

  lemma TimesMore(fired: seq<Firing>, f: Firing, t: Timer)
    ensures Times(fired + [f], t) == Times(fired, t) + (if f.timer == t then 1 else 0)
  {
    assert (fired + [f])[..|fired|] == fired;
  }

  lemma FiringAdded(fired: seq<Firing>, f: Firing)
    requires Nondecreasing(fired) && forall g <- fired :: g.due <= f.due
    ensures Nondecreasing(fired + [f])
  {
  }

  predicate Nondecreasing(fired: seq<Firing>) {
    forall i, j :: 0 <= i < j < |fired| ==> fired[i].due <= fired[j].due
  }

  class Timer {
    var expired: int
    const timeout: int
    const once: bool
    var mgr: TimerMgr?
    /** The position in the heap, from 1; 0 outside. */
    var index: nat
    var status: Status

    constructor (expired: int, timeout: int, once: bool)
      ensures this.expired == expired && this.timeout == timeout && this.once == once
      ensures mgr == null && index == 0 && status == IDLE
    {
      this.expired, this.timeout, this.once := expired, timeout, once;
      mgr, index, status := null, 0, IDLE;
    }
  }

  class TimerMgr {
    const compensate: bool
    var size: nat
    var elements: seq<Timer?>
    /** The timers in the heap. */
    ghost var live: set<Timer>

    constructor (compensate: bool)
      ensures this.compensate == compensate && live == {} && Valid([])
    {
      this.compensate, size, elements, live := compensate, 0, [], {};
    }

    /** Slot i - 1 holds the live timer that knows its place as i; the slots beyond are null. */
    ghost predicate Slots()
      reads `size, `elements, `live, live`index
    {
      && size <= |elements|
      && (forall i :: 0 <= i < size ==> elements[i] != null && elements[i] in live && elements[i].index == i + 1)
      && (forall i :: size <= i < |elements| ==> elements[i] == null)
      && (forall t <- live :: 1 <= t.index <= size && elements[t.index - 1] == t)
    }

    /** k are the expiry times of the slots in use. */
    ghost predicate Keyed(k: seq<int>)
      reads `size, `elements, `live, live`index, live`expired
    {
      Slots() && |k| == size && forall i :: 0 <= i < size ==> elements[i].expired == k[i]
    }

    /** The manager between calls; k are the expiry times in the order of the slots. */
    ghost predicate Valid(k: seq<int>)
      reads `size, `elements, `live, live`index, live`expired, live`mgr
    {
      Keyed(k) && Ordered(k) && forall t <- live :: t.mgr == this
    }

    lemma Occupied(i: nat, k: seq<int>)
      requires Keyed(k) && 1 <= i <= size
      ensures size <= |elements| && |k| == size && elements[i - 1] != null
      ensures elements[i - 1] in live && elements[i - 1].index == i && elements[i - 1].expired == k[i - 1]
    {
    }

    lemma SizeOk(k: seq<int>)
      requires Keyed(k)
      ensures |k| == size <= |elements| && (size == 0 <==> live == {})
    {
      if size > 0 {
        assert elements[0] in live;
      }
    }

    lemma KeysAre(k: seq<int>)
      requires Keyed(k)
      ensures Slots() && forall i :: 0 <= i < size ==> elements[i].expired == k[i]
    {
    }

    lemma Placed(t: Timer, k: seq<int>)
      requires Keyed(k) && t in live
      ensures 1 <= t.index <= size <= |elements| && |k| == size && elements[t.index - 1] == t
    {
    }

    /** swap. */
    method Swap(i: nat, j: nat, ghost k: seq<int>)
      requires Keyed(k) && 1 <= i <= size && 1 <= j <= size
      modifies `elements, live`index
      ensures elements == Swapped(old(elements), i, j) && Keyed(Swapped(k, i, j))
      ensures old(elements[i - 1]).index == j && old(elements[j - 1]).index == i
    {
      if i != j {
        var e := elements[i - 1];
        elements := elements[i - 1 := elements[j - 1]];
        elements := elements[j - 1 := e];
        assert elements == Swapped(old(elements), i, j);
        hide Swapped;
        elements[i - 1].index := i;
        elements[j - 1].index := j;
      }
    }

    /** The child to swap with, or idx. */
    method LeastChild(idx: nat, ghost k: seq<int>) returns (min: nat)
      requires Keyed(k) && 1 <= idx <= size
      ensures min == Least(k, idx)
    {
      min := idx;
      if 2 * idx <= size && elements[2 * idx - 1].expired < elements[idx - 1].expired {
        min := 2 * idx;
      }
      if 2 * idx + 1 <= size && elements[2 * idx].expired < elements[min - 1].expired {
        min := 2 * idx + 1;
      }
    }

    /** down, from position idx; a timer that moves ends up beyond it. */
    method Down(idx: nat, ghost k: seq<int>) returns (ghost r: seq<int>)
      requires Keyed(k) && 1 <= idx <= size && Around(k, idx)
      modifies `elements, live`index
      ensures Keyed(r)
      ensures old(elements[idx - 1]).index >= idx
      ensures if old(elements[idx - 1]).index == idx then r == k && OnlyUp(k, idx) else Ordered(r)
      ensures OnlyDown(k, idx) ==> Ordered(r)
      decreases size - idx
    {
      hide Keyed, Around, OnlyDown, OnlyUp, Ordered, Swapped, Least;
      Occupied(idx, k);
      var min := LeastChild(idx, k);
      r := k;
      if min != idx {
        Swap(idx, min, k);
        StepDown(k, idx);
        DownAround(Swapped(k, idx, min), min);
        r := Down(min, Swapped(k, idx, min));
      } else {
        NoLesser(k, idx);
      }
    }

    /** up, from position idx. */
    method Up(idx: nat, ghost k: seq<int>) returns (ghost r: seq<int>)
      requires Keyed(k) && 1 <= idx <= size && OnlyUp(k, idx)
      modifies `elements, live`index
      ensures Keyed(r) && Ordered(r)
    {
      hide Keyed, OnlyUp, Ordered, Swapped;
      r := k;
      var i, p := idx, idx / 2;
      while p > 0
        invariant 1 <= i <= size && p == i / 2 && Keyed(r) && OnlyUp(r, i)
        decreases i
      {
        Occupied(i, r);
        Occupied(p, r);
        if elements[i - 1].expired < elements[p - 1].expired {
          StepUp(r, i);
          Swap(i, p, r);
          r := Swapped(r, i, p);
          i := p;
          p := i / 2;
        } else {
          break;
        }
      }
      Occupied(i, r);
      if p > 0 {
        Occupied(p, r);
      }
      UpDone(r, i);
    }

    /** change: e's expiry time is another. */
    method Change(e: Timer, ghost k: seq<int>) returns (ghost r: seq<int>)
      requires Keyed(k) && e in live && Around(k, e.index)
      modifies `elements, live`index
      ensures Keyed(r) && Ordered(r)
    {
      hide Keyed, Around, OnlyDown, OnlyUp, Ordered;
      Placed(e, k);
      var idx := e.index;
      r := Down(idx, k);
      if idx == e.index {
        r := Up(idx, r);
      }
    }

    /** The timer in the last slot in use leaves. */
    method DropLast(ghost k: seq<int>)
      requires Keyed(k) && size > 0
      modifies `size, `elements, `live, live`index
      ensures size == old(size) - 1 && Keyed(k[..size])
      ensures var e := old(elements[size - 1]);
              e != null && e.index == 0 && live == old(live) - {e}
      ensures forall t <- live :: t.index == old(t.index)
      ensures forall i :: 0 <= i < size ==> elements[i] == old(elements)[i]
    {
      var e := elements[size - 1];
      e.index := 0;
      elements := elements[size - 1 := null];
      size := size - 1;
      live := live - {e};
    }

    /** top: the timer that expires first. */
    method Top(ghost k: seq<int>) returns (t: Timer?)
      requires Valid(k)
      ensures t == null <==> live == {}
      ensures t != null ==> t in live && t == elements[0] && forall u <- live :: t.expired <= u.expired
    {
      t := null;
      if size > 0 {
        t := elements[0];
        forall u | u in live ensures t.expired <= u.expired {
          RootLeast(k, u.index);
        }
      }
    }

    /** pop: the first timer leaves. */
    method Pop(ghost k: seq<int>) returns (ghost r: seq<int>)
      requires Valid(k)
      modifies `size, `elements, `live, live`index, live`mgr
      ensures Valid(r)
      ensures old(size) == 0 ==> live == {}
      ensures old(size) > 0 ==>
                var e := old(elements[0]);
                live == old(live) - {e} && e.index == 0 && e.mgr == null
    {
      hide Keyed, Ordered, OnlyDown, Around, OnlyUp;
      r := k;
      SizeOk(k);
      if size > 0 {
        Occupied(1, k);
        Occupied(size, k);
        var e := elements[0];
        Swap(1, size, k);
        DropLast(Swapped(k, 1, size));
        e.mgr := null;
        r := Swapped(k, 1, |k|)[..size];
        if size > 0 {
          RootReplaced(k);
          r := Down(1, r);
        } else {
          NoKeys();
        }
      }
    }

    /** remove: any timer of this manager leaves, if it is still in the heap. */
    method Remove(e: Timer, ghost k: seq<int>) returns (ok: bool, ghost r: seq<int>)
      requires Valid(k)
      modifies `size, `elements, `live, live`index
      ensures Valid(r) && live == old(live) - {e}
      ensures ok <==> e in old(live)
      ensures ok ==> e.index == 0
    {
      hide Keyed, Ordered, OnlyDown, Around, OnlyUp;
      r := k;
      SizeOk(k);
      if 1 <= e.index <= size {
        Occupied(e.index, k);
      }
      if e in live {
        Placed(e, k);
      }
      if this != e.mgr || e.index == 0 || e.index > size || elements[e.index - 1] != e {
        return false, k;
      }
      ok := true;
      Occupied(size, k);
      var tail := elements[size - 1];
      if tail == e {
        DropLast(k);
        Shorter(k);
        r := k[..size];
      } else {
        ghost var p, n := e.index, size;
        Swap(e.index, tail.index, k);
        DropLast(Swapped(k, p, n));
        r := Swapped(k, p, n)[..size];
        PlaceReplaced(k, p);
        r := Change(tail, r);
      }
    }

    /** The next slot, for which the vector may have to grow. */
    method NextSlot(e: Timer)
      requires size <= |elements|
      modifies `elements
      ensures |elements| == if size < old(|elements|) then old(|elements|) else size + 1
      ensures elements[size] == e
      ensures forall i :: 0 <= i < |elements| && i != size ==> elements[i] == old(elements)[i]
    {
      if size == |elements| {
        elements := elements + [e];
      } else {
        elements := elements[size := e];
      }
    }

    /** A new timer takes the next slot. */
    method TakeSlot(e: Timer)
      requires Slots() && e !in live
      modifies `size, `elements, `live, e`index, e`mgr
      ensures Slots() && live == old(live) + {e} && e.mgr == this && e.index == size == old(size) + 1
      ensures elements[size - 1] == e && forall i :: 0 <= i < old(size) ==> elements[i] == old(elements)[i]
    {
      NextSlot(e);
      e.mgr := this;
      e.index := size + 1;
      size := size + 1;
      live := live + {e};
    }

    lemma KeyedMore(k: seq<int>, e: Timer)
      requires Slots() && size == |k| + 1 && elements[size - 1] == e
      requires forall i :: 0 <= i < |k| ==> elements[i].expired == k[i]
      ensures Keyed(k + [e.expired])
    {
    }

    method Append(e: Timer, ghost k: seq<int>)
      requires Keyed(k) && e !in live
      modifies `size, `elements, `live, e`index, e`mgr
      ensures Keyed(k + [e.expired]) && live == old(live) + {e} && e.mgr == this && e.index == size == |k| + 1
    {
      hide Keyed, Slots;
      KeysAre(k);
      SizeOk(k);
      TakeSlot(e);
      KeyedMore(k, e);
    }

    /** insert: a timer without a place gets one; a timer in the heap moves to where its expiry time belongs. */
    method Insert(e: Timer, ghost k: seq<int>) returns (ok: bool, ghost r: seq<int>)
      requires Keyed(k) && forall t <- live :: t.mgr == this
      requires if e in live then Around(k, e.index) else Ordered(k)
      modifies `size, `elements, `live, live`index, e`index, e`mgr
      ensures ok <==> old((e.mgr == null || e.mgr == this) && (e.index == 0 || e in live))
      ensures Valid(r) && live == if ok then old(live) + {e} else old(live)
    {
      hide Keyed, Ordered, OnlyDown, Around, OnlyUp;
      r := k;
      SizeOk(k);
      if 1 <= e.index <= size {
        Occupied(e.index, k);
      }
      if e in live {
        Placed(e, k);
      }
      if (e.mgr != null && e.mgr != this) || (e.index > 0 && (e.index > size || elements[e.index - 1] != e)) {
        return false, k;
      }
      ok := true;
      if e.index > 0 {
        r := Change(e, k);
      } else {
        Append(e, k);
        Appended(k, e.expired);
        r := Up(e.index, k + [e.expired]);
      }
    }

    /**
     * One turn of the loop in Schedule: the first timer leaves the heap and, unless
     * it is canceled, its callback is called; a periodic timer comes back.
     */
    method Turn(now: int, ghost k: seq<int>) returns (t: Timer, ok: bool, ghost r: seq<int>)
      requires Valid(k) && size > 0
      modifies `size, `elements, `live, live`index, live`mgr, live`status, live`expired
      ensures Valid(r) && t in old(live) && t == old(elements[0])
      ensures ok <==> old(t.status) == IDLE
      ensures live == if ok && !t.once then old(live) else old(live) - {t}
      ensures ok && !t.once ==> t.expired == Rearmed(compensate, old(t.expired), t.timeout, now) && t.status == IDLE
      ensures !ok || t.once ==> t.expired == old(t.expired) && t.status != IDLE
      ensures forall u <- old(live) :: u != t ==> u.expired == old(u.expired) && u.status == old(u.status)
    {
      hide Valid, Ordered, Keyed;
      ValidParts(k);
      SizeOk(k);
      Occupied(1, k);
      t := elements[0];
      ok := t.status == IDLE;
      if ok {
        t.status := Status(false, true);
      }
      r := Pop(k);
      if ok && !t.once {
        if t.status == Status(false, true) {
          t.status := IDLE;
          t.expired := Rearmed(compensate, t.expired, t.timeout, now);
          ValidParts(r);
          var inserted;
          inserted, r := Insert(t, r);
        }
      }
    }

    lemma ValidParts(k: seq<int>)
      requires Valid(k)
      ensures Keyed(k) && Ordered(k) && forall t <- live :: t.mgr == this
    {
    }

    /** How far scheduling has come with t. */
    ghost function TallyOf(t: Timer, fired: seq<Firing>, left: nat): Tally
      reads `live, t`expired, t`status
    {
      Tally(t.expired, t.status == IDLE, t in live, Times(fired, t), left)
    }

    /** The turns that t is due at time now. */
    ghost function Due(t: Timer, now: int): nat
      requires t.once || t.timeout > 0
      reads t`expired, t`status
    {
      Turns(t.expired, t.timeout, t.status == IDLE && !t.once, compensate, now)
    }

    /** How far scheduling at now has come with the timers was; start holds their expiry times and status at first. */
    ghost predicate Tallies(now: int, was: set<Timer>, start: map<Timer, (int, bool)>, fired: seq<Firing>,
                            left: map<Timer, nat>)
      reads `live, was`expired, was`status
    {
      && start.Keys == was && left.Keys == was && live <= was
      && forall t <- was ::
           && (t.once || t.timeout > 0)
           && Tallied(compensate, now, t.timeout, t.once, start[t].0, start[t].1, TallyOf(t, fired, left[t]))
    }

    /** The callbacks so far were in order, and none was too early or too late. */
    ghost predicate InOrder(now: int, was: set<Timer>, fired: seq<Firing>)
      reads `live, live`expired
    {
      && Nondecreasing(fired)
      && (forall f <- fired :: f.timer in was && f.due <= now)
      && forall f <- fired, t <- live :: f.due <= t.expired
    }

    lemma FirstTallies(now: int, start: map<Timer, (int, bool)>, left: map<Timer, nat>)
      requires forall t <- live :: t.once || t.timeout > 0
      requires start == map t | t in live :: (t.expired, t.status == IDLE)
      requires left == map t | t in live :: Due(t, now)
      ensures Tallies(now, live, start, [], left) && InOrder(now, live, [])
    {
      hide Tallied, Turns;
      forall t | t in live
        ensures Tallied(compensate, now, t.timeout, t.once, start[t].0, start[t].1, TallyOf(t, [], left[t]))
      {
        FirstTally(compensate, now, t.timeout, t.once, t.expired, t.status == IDLE);
      }
    }

    lemma LastTallies(now: int, was: set<Timer>, start: map<Timer, (int, bool)>, fired: seq<Firing>,
                      left: map<Timer, nat>)
      requires Tallies(now, was, start, fired, left) && forall t <- live :: t.expired > now
      ensures forall t <- was :: t in live <==> start[t].0 > now || (!t.once && start[t].1)
      ensures forall t <- was ::
                && (t.once || t.timeout > 0)
                && Times(fired, t) == if start[t].1 then Turns(start[t].0, t.timeout, !t.once, compensate, now) else 0
      ensures forall t <- live ::
                t.expired == if compensate then start[t].0 + Times(fired, t) * t.timeout
                             else if start[t].0 > now then start[t].0 else now + t.timeout
    {
      hide Tallied, Turns, Times;
      forall t | t in was
        ensures t in live <==> start[t].0 > now || (!t.once && start[t].1)
        ensures Times(fired, t) == if start[t].1 then Turns(start[t].0, t.timeout, !t.once, compensate, now) else 0
        ensures t in live ==>
                  t.expired == if compensate then start[t].0 + Times(fired, t) * t.timeout
                               else if start[t].0 > now then start[t].0 else now + t.timeout
      {
        LastTally(compensate, now, t.timeout, t.once, start[t].0, start[t].1, TallyOf(t, fired, left[t]));
      }
    }

    lemma FiredMore(now: int, was: set<Timer>, fired: seq<Firing>, f: Firing)
      requires Nondecreasing(fired) && (forall g <- fired :: g.timer in was && g.due <= f.due <= now)
      requires f.timer in was && f.due <= now && forall t <- live :: f.due <= t.expired
      ensures InOrder(now, was, fired) && InOrder(now, was, fired + [f])
    {
      FiringAdded(fired, f);
    }

    lemma InOrderNow(now: int, was: set<Timer>, fired: seq<Firing>, first: Timer)
      requires InOrder(now, was, fired) && first in live && first.expired <= now
      ensures Nondecreasing(fired) && forall g <- fired :: g.timer in was && g.due <= first.expired <= now
    {
    }

    lemma InOrderLast(now: int, was: set<Timer>, fired: seq<Firing>)
      requires InOrder(now, was, fired)
      ensures Nondecreasing(fired) && forall f <- fired :: f.timer in was && f.due <= now
    {
    }

    /** One turn, for the tallies of all timers. */
    method TalliedTurn(now: int, ghost k: seq<int>, ghost was: set<Timer>, ghost start: map<Timer, (int, bool)>,
                       ghost fired: seq<Firing>, ghost left: map<Timer, nat>)
      returns (t: Timer, ok: bool, ghost r: seq<int>)
      requires Valid(k) && size > 0 && elements[0].expired <= now
      requires Tallies(now, was, start, fired, left)
      modifies `size, `elements, `live, live`index, live`mgr, live`status, live`expired
      ensures Valid(r) && t == old(elements[0]) && t in left && left[t] > 0 && live <= old(live)
      ensures Tallies(now, was, start, if ok then fired + [Firing(t, old(t.expired))] else fired,
                      left[t := left[t] - 1])
      ensures forall u <- live :: u.expired >= old(u.expired)
    {
      hide Valid, Tallied, Turns, Times, Ordered, Keyed;
      ValidParts(k);
      SizeOk(k);
      Occupied(1, k);
      ghost var first := elements[0];
      ghost var tallies := map u | u in was :: TallyOf(u, fired, left[u]);
      ghost var y := TallyOf(first, fired, left[first]);
      TurnTallied(compensate, now, first.timeout, first.once, start[first].0, start[first].1, y);
      t, ok, r := Turn(now, k);
      ghost var more := if ok then fired + [Firing(t, y.expired)] else fired;
      forall u | u in was && u != t ensures TallyOf(u, more, left[u]) == tallies[u] {
        TimesMore(fired, Firing(t, y.expired), u);
      }
      TimesMore(fired, Firing(t, y.expired), t);
      TallyAfter(now, t, y, ok, more, left[t]);
      TalliesMore(now, was, start, tallies, t, more, left);
    }

    /** The tally of the timer t that a turn met with tally y. */
    lemma TallyAfter(now: int, t: Timer, y: Tally, ok: bool, fired: seq<Firing>, left: nat)
      requires y.left == left > 0 && y.idle == ok && Times(fired, t) == if ok then y.times + 1 else y.times
      requires t in live <==> ok && !t.once
      requires ok && !t.once ==> t.expired == Rearmed(compensate, y.expired, t.timeout, now) && t.status == IDLE
      requires !ok || t.once ==> t.expired == y.expired && t.status != IDLE
      ensures TallyOf(t, fired, left - 1) == AfterTurn(compensate, now, t.timeout, t.once, y)
    {
    }

    lemma TalliesMore(now: int, was: set<Timer>, start: map<Timer, (int, bool)>, tallies: map<Timer, Tally>, t: Timer,
                      fired: seq<Firing>, left: map<Timer, nat>)
      requires tallies.Keys == start.Keys == left.Keys == was && live <= was && t in was && left[t] > 0
      requires forall u <- was :: u.once || u.timeout > 0
      requires forall u <- was :: u != t ==>
                 && Tallied(compensate, now, u.timeout, u.once, start[u].0, start[u].1, tallies[u])
                 && TallyOf(u, fired, left[u]) == tallies[u]
      requires Tallied(compensate, now, t.timeout, t.once, start[t].0, start[t].1, TallyOf(t, fired, left[t] - 1))
      ensures Tallies(now, was, start, fired, left[t := left[t] - 1])
    {
      hide Tallied, TallyOf;
    }

    /** The loop of Schedule; first holds the turns that each timer is due. */
    method FireDue(now: int, ghost k: seq<int>, ghost start: map<Timer, (int, bool)>, ghost first: map<Timer, nat>)
      returns (ghost r: seq<int>, ghost fired: seq<Firing>, ghost left: map<Timer, nat>)
      requires Valid(k) && Tallies(now, live, start, [], first) && InOrder(now, live, [])
      modifies `size, `elements, `live, live`index, live`mgr, live`status, live`expired
      ensures Valid(r) && live <= old(live) && forall t <- live :: t.expired > now
      ensures Tallies(now, old(live), start, fired, left) && InOrder(now, old(live), fired)
    {
      hide Valid, Tallies, InOrder, Sum, Nondecreasing, Ordered, Keyed;
      r, fired, left := k, [], first;
      ghost var was, total := live, Sum(left);
      while size > 0
        invariant Valid(r) && live <= was && Tallies(now, was, start, fired, left) && InOrder(now, was, fired)
        invariant total == Sum(left)
        decreases total
      {
        ValidParts(r);
        SizeOk(r);
        var next := Top(r);
        if next.expired > now {
          break;
        }
        ghost var due := next.expired;
        InOrderNow(now, was, fired, next);
        var t, ok;
        t, ok, r := TalliedTurn(now, r, was, start, fired, left);
        SumLess(left, t);
        left := left[t := left[t] - 1];
        total := total - 1;
        FiredMore(now, was, fired, Firing(t, due));
        if ok {
          fired := fired + [Firing(t, due)];
        }
      }
      ValidParts(r);
      SizeOk(r);
    }

    /** Schedule at time now; its callbacks touch neither the manager nor their timers. */
    method Schedule(now: int, ghost k: seq<int>) returns (ghost r: seq<int>, ghost fired: seq<Firing>)
      requires Valid(k) && forall t <- live :: t.once || t.timeout > 0
      modifies `size, `elements, `live, live`index, live`mgr, live`status, live`expired
      ensures Valid(r) && live <= old(live) && forall t <- live :: t.expired > now
      ensures Nondecreasing(fired) && forall f <- fired :: f.timer in old(live) && f.due <= now
      ensures forall t <- old(live) :: t in live <==> old(t.expired) > now || (!t.once && old(t.status) == IDLE)
      ensures forall t <- old(live) :: Times(fired, t) == if old(t.status) == IDLE then old(Due(t, now)) else 0
      ensures forall t <- live ::
                t.expired == if compensate then old(t.expired) + Times(fired, t) * t.timeout
                             else if old(t.expired) > now then old(t.expired) else now + t.timeout
    {
      hide Valid, Turns, Tallies, InOrder, Times, Nondecreasing;
      ghost var was := live;
      ghost var start := map t | t in live :: (t.expired, t.status == IDLE);
      ghost var left := map t | t in live :: Due(t, now);
      FirstTallies(now, start, left);
      r, fired, left := FireDue(now, k, start, left);
      InOrderLast(now, was, fired);
      LastTallies(now, was, start, fired, left);
    }
  }
}
