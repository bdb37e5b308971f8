/**
 * A Redis connection that is being closed: it ends exactly when the last reply has
 * been answered and the last command sent, and a connection that nobody closes stays.
 */
module RedisDrain {
  import opened Bytes
  import opened RedisQueue
  import opened RedisControl
  import opened RedisConn

  /** Replies that the events from here on bring. */
  function RepliesIn(events: seq<Event>): nat {
    if events == [] then 0
    else
      RepliesIn(events[1..]) + match events[0]
                               case Active(Some(r), _) => |r.input|
                               case _ => 0
  }

  /** Reading and writing succeed, and users only issue commands or disconnect. */
  predicate Smooth(e: Event) {
    match e
    case Active(read, write) =>
      && (read.Some? ==> read.value.readOk && !read.value.broken)
      && (write.Some? ==> write.value.left.Some?)
    case User(a) => a.Issue? || a.Disconnect?
  }

  predicate AllSmooth(events: seq<Event>) {
    forall e <- events :: Smooth(e)
  }

  /**
   * With n commands unanswered and o unsent on a connection that is being closed:
   * whether one of the events ends it, and if so, whether that event is for both
   * handlers.  A read event does, once all are answered and sent; another call of
   * redisAsyncDisconnect does, once all are answered.
   */
  function Drain(n: nat, o: nat, events: seq<Event>): Option<bool>
    requires RepliesIn(events) <= n
  {
    if events == [] then None
    else
      match events[0]
      case User(a) => if a.Disconnect? && n == 0 then Some(false) else Drain(n, o, events[1..])
      case Active(read, write) =>
        var m := n - if read.Some? then |read.value.input| else 0;
        if read.Some? && m == 0 && o == 0 then Some(write.Some?)
        else
          var unsent := if write.Some? && write.value.left.Some? && write.value.left.value < o
                        then write.value.left.value else o;
          Drain(m, unsent, events[1..])
  }

  /** A connected context, without an error, on which nothing has been freed. */
  predicate Sound(v: Control) {
    v.InUse? && v.connected && !v.err && !v.freeing
  }

  /** None of the next n function calls frees the context. */
  predicate NoFree(script: Script, from: nat, n: nat) {
    forall i :: from <= i < from + n ==> Free !in script(i)
  }

  // ----- A context being closed -----

  /** Commands are refused, and disconnecting again changes nothing but the flags. */
  lemma {:induction false} NotedClosing(v: Control, actions: seq<Action>)
    requires v.InUse? && v.disconnecting && Free !in actions
    ensures var w := NotedAll(v, actions);
            w == v.(closed := w.closed)
    decreases |actions|
  {
    if actions != [] {
      assert actions[0] in actions;
      assert forall a :: a in actions[1..] ==> a in actions;
      NotedClosing(Noted(v, actions[0]), actions[1..]);
    }
  }

  lemma ToldClosing(v: Control, script: Script)
    requires Sound(v) && v.disconnecting && v.pending != [] && NoFree(script, v.calls, 1)
    ensures var w := ReplyTaken(v, script);
            && Sound(w) && w.disconnecting && w.pending == v.pending[1..] && w.obuf == v.obuf
            && v.calls <= w.calls <= v.calls + 1
  {
    NotedClosing(v.(pending := v.pending[1..], calls := v.calls + 1), script(v.calls));
  }

  /** Replies for a context being closed: it ends with the last one, if all is sent, and not before. */
  lemma {:induction false} ProcessedClosing(v: Control, input: seq<Reply>, script: Script)
    requires Sound(v) && v.disconnecting && |input| <= |v.pending| && NoFree(script, v.calls, |input|)
    ensures var o := Processed(v, input, false, script);
            && o.expected && !o.dangling
            && (o.v.Gone? <==> |input| == |v.pending| && v.obuf == 0)
            && (o.v.InUse? ==>
                  && Sound(o.v) && o.v.disconnecting && o.v.pending == v.pending[|input|..] && o.v.obuf == v.obuf
                  && v.calls <= o.v.calls <= v.calls + |input|)
    decreases |input|
  {
    if input == [] {
      assert v.pending[0..] == v.pending;
    } else {
      ToldClosing(v, script);
      var w := ReplyTaken(v, script);
      ProcessedClosing(w, input[1..], script);
      assert v.pending[1..][|input| - 1..] == v.pending[|input|..];
      hide ReplyTaken;
    }
  }

  /** One event on a context being closed. */
  lemma HandledClosing(v: Control, e: Event, script: Script)
    requires Sound(v) && v.disconnecting && Smooth(e) && RepliesIn([e]) <= |v.pending|
    requires NoFree(script, v.calls, RepliesIn([e]))
    ensures var o, d := Handled(v, e, script), Drain(|v.pending|, v.obuf, [e]);
            && o.expected && (o.v.Gone? <==> d.Some?) && o.dangling == (d == Some(true))
            && (o.v.InUse? ==>
                  && Sound(o.v) && o.v.disconnecting && o.v.pending == v.pending[RepliesIn([e])..]
                  && o.v.obuf == (if e.Active? && e.write.Some? then Min(e.write.value.left.value, v.obuf) else v.obuf)
                  && v.calls <= o.v.calls <= v.calls + RepliesIn([e]))
  {
    assert [e][1..] == [] && RepliesIn([]) == 0;
    assert v.pending[0..] == v.pending;
    if e.Active? && e.read.Some? {
      ProcessedClosing(v, e.read.value.input, script);
      hide Processed;
    }
  }

  lemma DrainNext(n: nat, o: nat, events: seq<Event>)
    requires RepliesIn(events) <= n && events != [] && Smooth(events[0])
    ensures RepliesIn([events[0]]) <= RepliesIn(events)
    ensures RepliesIn(events[1..]) == RepliesIn(events) - RepliesIn([events[0]])
    ensures var e := events[0];
            var m := n - RepliesIn([e]);
            var left := if e.Active? && e.write.Some? then Min(e.write.value.left.value, o) else o;
            Drain(n, o, events) ==
              if Drain(n, o, [e]).Some? then Drain(n, o, [e]) else Drain(m, left, events[1..])
  {
    assert [events[0]][1..] == [];
  }

  /**
   * Any events on a connection that is being closed, with functions that do whatever
   * they like but free it: it ends, and at the event, that the count of commands
   * unanswered and unsent tells.
   */
  lemma {:induction false} DrainExactly(v: Control, events: seq<Event>, script: Script)
    requires Sound(v) && v.disconnecting && AllSmooth(events) && RepliesIn(events) <= |v.pending|
    requires NoFree(script, v.calls, RepliesIn(events))
    ensures var o, d := HandledAll(v, events, script), Drain(|v.pending|, v.obuf, events);
            && o.expected && (o.v.Gone? <==> d.Some?) && o.dangling == (d == Some(true))
            && (o.v.InUse? ==> o.v.pending == v.pending[RepliesIn(events)..])
    decreases |events|
  {
    hide Handled, Smooth, Sound;
    if events == [] {
      StillInUse(v);
      assert v.pending[0..] == v.pending;
    } else {
      var e := events[0];
      assert e in events && AllSmooth(events[1..]);
      StillInUse(v);
      DrainNext(|v.pending|, v.obuf, events);
      HandledClosing(v, e, script);
      var w := Handled(v, e, script).v;
      if w.InUse? {
        DrainExactly(w, events[1..], script);
        assert v.pending[RepliesIn([e])..][RepliesIn(events[1..])..] == v.pending[RepliesIn(events)..];
      }
    }
  }

  lemma StillInUse(v: Control)
    requires Sound(v)
    ensures v.InUse?
  {
  }

  /**
   * Closing a connected context with commands pending, by Close or by
   * redisAsyncDisconnect: it stays until the events drain it.
   */
  lemma CloseDrains(v: Control, a: Action, events: seq<Event>, script: Script)
    requires Sound(v) && v.pending != [] && (a.Disconnect? || (a.CloseConn? && !v.closed))
    requires AllSmooth(events) && RepliesIn(events) <= |v.pending| && NoFree(script, v.calls, RepliesIn(events))
    ensures var o, d := HandledAll(v, [User(a)] + events, script), Drain(|v.pending|, v.obuf, events);
            && o.expected && (o.v.Gone? <==> d.Some?) && o.dangling == (d == Some(true))
  {
    var w := v.(disconnecting := true, closed := v.closed || a.CloseConn?);
    assert Handled(v, User(a), script) == Outcome(w, true, false);
    assert ([User(a)] + events)[1..] == events;
    DrainExactly(w, events, script);
    hide Handled;
  }

  /** With all sent, the last reply ends the connection; else a later read event does, once all is sent. */
  lemma LastReplyEnds(v: Control, a: Action, r: Reading, w: Writing, later: Reading, script: Script)
    requires Sound(v) && v.pending != [] && (a.Disconnect? || (a.CloseConn? && !v.closed))
    requires r.readOk && !r.broken && later.readOk && !later.broken && later.input == [] && w.left == Some(0)
    requires |r.input| <= |v.pending| && NoFree(script, v.calls, |r.input|)
    ensures var all := |r.input| == |v.pending|;
            var read, write, last := Active(Some(r), None), Active(None, Some(w)), Active(Some(later), None);
            && (HandledAll(v, [User(a), read], script).v.Gone? <==> all && v.obuf == 0)
            && (HandledAll(v, [User(a), read, write, last], script).v.Gone? <==> all)
  {
    var close, read, write, last := User(a), Active(Some(r), None), Active(None, Some(w)), Active(Some(later), None);
    assert [close] + [read] == [close, read] && [close] + [read, write, last] == [close, read, write, last];
    DrainCounts(|v.pending|, v.obuf, r, w, later);
    CloseDrains(v, a, [read], script);
    CloseDrains(v, a, [read, write, last], script);
    hide HandledAll, Drain, RepliesIn;
  }

  /** A command issued before the close is unsent: the replies alone do not end the connection, until it is written. */
  lemma UnsentStays(v: Control, c: Command, r: Reading, w: Writing, later: Reading, script: Script)
    requires Sound(v) && !v.disconnecting && !v.closed
    requires r.readOk && !r.broken && later.readOk && !later.broken && later.input == [] && w.left == Some(0)
    requires |r.input| == |v.pending| + 1 && NoFree(script, v.calls, |r.input|)
    ensures var read, write, last := Active(Some(r), None), Active(None, Some(w)), Active(Some(later), None);
            var issue, close := User(Issue(c)), User(CloseConn);
            && HandledAll(v, [issue, close, read], script).v.InUse?
            && HandledAll(v, [issue, close, read, write, last], script).v.Gone?
  {
    var read, write, last := Active(Some(r), None), Active(None, Some(w)), Active(Some(later), None);
    var issue, close := User(Issue(c)), User(CloseConn);
    var u := v.(pending := v.pending + [CallbackOf(c)], obuf := v.obuf + 1);
    assert Handled(v, issue, script) == Outcome(u, true, false);
    LastReplyEnds(u, CloseConn, r, w, later, script);
    assert [issue, close, read][1..] == [close, read];
    assert [issue, close, read, write, last][1..] == [close, read, write, last];
    hide Handled;
  }

  /**
   * An error of the context, of reading or of writing ends a connected context at once; a write that succeeds
   * does not.
   */
  lemma ErrorsEnd(v: Control, r: Reading, w: Writing, script: Script)
    requires v.InUse? && v.connected
    ensures v.err || !r.readOk ==> Handled(v, Active(Some(r), None), script) == Outcome(Gone, true, false)
    ensures var o := Handled(v, Active(None, Some(w)), script);
            && o.expected && !o.dangling && (o.v.Gone? <==> v.err || w.left.None?)
            && (o.v.InUse? ==> o.v.obuf <= w.left.value && o.v.obuf <= v.obuf && o.v == v.(obuf := o.v.obuf))
  {
  }

  lemma DrainCounts(n: nat, o: nat, r: Reading, w: Writing, later: Reading)
    requires 0 < n && |r.input| <= n && later.input == [] && w.left == Some(0)
    ensures var read, write, last := Active(Some(r), None), Active(None, Some(w)), Active(Some(later), None);
            && RepliesIn([read]) == RepliesIn([read, write, last]) == |r.input|
            && (Drain(n, o, [read]).Some? <==> |r.input| == n && o == 0)
            && (Drain(n, o, [read, write, last]).Some? <==> |r.input| == n)
  {
    var read, write, last := Active(Some(r), None), Active(None, Some(w)), Active(Some(later), None);
    assert [read][1..] == [] && [last][1..] == [] && [write, last][1..] == [last];
    assert [read, write, last][1..] == [write, last];
    assert RepliesIn([last]) == 0 && RepliesIn([write, last]) == 0 && RepliesIn([read]) == |r.input|;
    var m := n - |r.input|;
    assert Drain(m, 0, [last]).Some? <==> m == 0;
    assert Drain(m, o, [write, last]) == Drain(m, 0, [last]);
  }

  // ----- A context that nobody closes -----

  /** A function that only issues commands. */
  predicate OnlyIssues(actions: seq<Action>) {
    forall a <- actions :: a.Issue?
  }

  ghost predicate AllIssue(script: Script) {
    forall i: nat :: OnlyIssues(script(i))
  }

  predicate Open(v: Control) {
    Sound(v) && !v.disconnecting
  }

  lemma {:induction false} NotedOpen(v: Control, actions: seq<Action>)
    requires Open(v) && OnlyIssues(actions)
    ensures Open(NotedAll(v, actions)) && v.pending <= NotedAll(v, actions).pending
    decreases |actions|
  {
    if actions != [] {
      assert actions[0] in actions;
      NotedOpen(Noted(v, actions[0]), actions[1..]);
    }
  }

  lemma {:induction false} ProcessedOpen(v: Control, input: seq<Reply>, script: Script)
    requires Open(v) && AllIssue(script) && |input| <= |v.pending|
    ensures var o := Processed(v, input, false, script);
            o.expected && !o.dangling && Open(o.v) && v.pending[|input|..] <= o.v.pending
    decreases |input|
  {
    if input == [] {
      assert v.pending[0..] == v.pending;
    } else {
      var u := v.(pending := v.pending[1..], calls := v.calls + 1);
      NotedOpen(u, script(v.calls));
      var w := ReplyTaken(v, script);
      assert v.pending[1..] <= w.pending;
      ProcessedOpen(w, input[1..], script);
      assert v.pending[1..][|input| - 1..] == v.pending[|input|..];
      assert v.pending[1..][|input| - 1..] <= w.pending[|input| - 1..];
    }
  }

  lemma HandledOpen(v: Control, e: Event, script: Script)
    requires Open(v) && AllIssue(script) && Smooth(e) && !(e.User? && e.action.Disconnect?)
    requires RepliesIn([e]) <= |v.pending|
    ensures var o := Handled(v, e, script);
            o.expected && !o.dangling && Open(o.v) && v.pending[RepliesIn([e])..] <= o.v.pending
  {
    assert [e][1..] == [] && RepliesIn([]) == 0;
    assert v.pending[0..] == v.pending;
    if e.Active? && e.read.Some? {
      ProcessedOpen(v, e.read.value.input, script);
    }
    hide Processed, AllIssue;
  }

  /** Without a disconnect, a connection stays in use, even with nothing pending and nothing to send. */
  lemma {:induction false} StaysInUse(v: Control, events: seq<Event>, script: Script)
    requires Open(v) && AllIssue(script) && AllSmooth(events) && RepliesIn(events) <= |v.pending|
    requires forall e <- events :: !(e.User? && e.action.Disconnect?)
    ensures var o := HandledAll(v, events, script);
            o.expected && !o.dangling && Open(o.v) && v.pending[RepliesIn(events)..] <= o.v.pending
    decreases |events|
  {
    hide Handled, Smooth, AllIssue;
    if events == [] {
      assert v.pending[0..] == v.pending;
    } else {
      var e := events[0];
      assert e in events && AllSmooth(events[1..]);
      DrainNext(|v.pending|, v.obuf, events);
      HandledOpen(v, e, script);
      var w := Handled(v, e, script).v;
      StaysInUse(w, events[1..], script);
      var k, m := RepliesIn([e]), RepliesIn(events[1..]);
      assert v.pending[k..][m..] == v.pending[k + m..];
      assert v.pending[k..][m..] <= w.pending[m..];
    }
  }

  // ----- For the class -----

  lemma {:induction false} HandledMore(v: Control, a: seq<Event>, b: seq<Event>, script: Script)
    requires HandledAll(v, a, script).v.InUse? && HandledAll(v, a, script).expected
    ensures HandledAll(v, a + b, script) == HandledAll(HandledAll(v, a, script).v, b, script)
    decreases |a|
  {
    hide Handled;
    if a == [] {
      assert a + b == b;
    } else {
      assert (a + b)[1..] == a[1..] + b;
      HandledMore(Handled(v, a[0], script).v, a[1..], b, script);
    }
  }

  /** A run of a connection that is closed after some events: when the context is freed. */
  method RunAndClose(conn: RedisConn, first: seq<Event>, a: Action, events: seq<Event>)
    returns (expected: bool, dangling: bool)
    requires conn.Live() && conn.accepted == []
    requires var o := HandledAll(conn.View(), first, conn.script);
             && o.expected && Sound(o.v) && o.v.pending != [] && (a.Disconnect? || (a.CloseConn? && !o.v.closed))
             && AllSmooth(events) && RepliesIn(events) <= |o.v.pending|
             && NoFree(conn.script, o.v.calls, RepliesIn(events))
    modifies conn
    ensures var v := old(HandledAll(conn.View(), first, conn.script)).v;
            var d := Drain(|v.pending|, v.obuf, events);
            && expected && (conn.freed <==> d.Some?) && dangling == (d == Some(true))
            && (conn.freed ==> |conn.passed| == |conn.accepted|)
  {
    hide Handled;
    ghost var v := HandledAll(conn.View(), first, conn.script).v;
    HandledMore(conn.View(), first, [User(a)] + events, conn.script);
    CloseDrains(v, a, events, conn.script);
    expected, dangling := RunEvents(conn, first + ([User(a)] + events));
  }
}
