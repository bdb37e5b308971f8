/**
 * The callback queue of async.c and the queue of functions that RedisConn keeps
 * beside it, outside MONITOR and subscriptions.  A function called with a reply
 * may issue commands, disconnect or free the context; so may other threads while
 * it runs, as the connection is not locked then.
 */
module RedisConn {
  import opened Bytes
  import opened RedisQueue
  import opened RedisControl

  datatype Flags = Flags(disconnecting: bool, freeing: bool, inCallback: bool)

  class RedisConn {
    // redisAsyncContext
    var replies: seq<Callback>
    var flags: Flags
    /** The error of the context inside, which is passed on when it disconnects. */
    var err: bool
    /** Commands in the output buffer. */
    var obuf: nat
    var connected: bool
    var freed: bool
    // RedisConn
    var redisFns: seq<int>
    var closed: bool
    const script: Script
    /** The calls made. */
    var calls: seq<Call>
    /** The commands accepted; what was passed to those that are over; the replies among that. */
    ghost var accepted: seq<Command>
    ghost var passed: seq<Option<Reply>>
    ghost var received: seq<Reply>

    constructor (script: Script)
      ensures Live() && View() == START
      ensures accepted == [] && this.script == script
    {
      this.script := script;
      replies, flags, err, obuf, connected, freed := [], Flags(false, false, false), false, 0, false, false;
      redisFns, closed, calls := [], false, [];
      accepted, passed, received := [], [], [];
    }

    /** What decides when the context ends. */
    function View(): Control
      reads `replies, `flags, `err, `obuf, `connected, `freed, `closed, `calls
    {
      if freed then Gone
      else InUse(replies, flags.disconnecting, flags.freeing, closed, err, obuf, connected, |calls|)
    }

    /**
     * The queues hold what is accepted and not over, redisFns behind the functions
     * in ready; calls have been made for the first done of what is over.
     */
    ghost predicate Queued(ready: seq<int>, done: nat)
      reads this
    {
      && done <= |passed| <= |accepted|
      && replies == Callbacks(accepted[|passed|..])
      && redisFns == ready + Fns(accepted[|passed|..])
      && calls == Calls(accepted[..done], passed[..done])
      && Answered(passed, received)
    }

    /** No callback runs, and every command that is over has been told. */
    ghost predicate Idle()
      reads this
    {
      && Queued([], |passed|) && !flags.inCallback
      && if freed then replies == [] else |received| == |passed|
    }

    /** Between events, while the context is in use. */
    ghost predicate Live()
      reads this
    {
      Idle() && !freed && !flags.freeing
    }

    /** New commands are refused. */
    predicate Refuses()
      reads `flags
    {
      flags.disconnecting || flags.freeing
    }

    /** __redisPushCallback. */
    method PushCallback(cb: Callback)
      modifies `replies
      ensures replies == old(replies) + [cb]
    {
      replies := replies + [cb];
    }

    /** redisAsyncCommand of RedisConn, with __redisAsyncCommand in it. */
    method RedisAsyncCommand(c: Command, ghost ready: seq<int>, ghost done: nat) returns (ok: bool)
      requires Queued(ready, done) && !freed
      modifies `replies, `redisFns, `obuf, `accepted
      ensures Queued(ready, done)
      ensures ok <==> !closed && !Refuses()
      ensures View() == Issued(old(View()), c)
      ensures accepted == if ok then old(accepted) + [c] else old(accepted)
    {
      hide Callbacks, Fns, Calls;
      if closed || Refuses() {
        return false;
      }
      PushCallback(CallbackOf(c));
      obuf := obuf + 1;
      var added := if c.fn.Some? then [c.fn.value] else [];
      redisFns := redisFns + added;
      ghost var rest := accepted[|passed|..];
      accepted := accepted + [c];
      assert accepted[|passed|..] == rest + [c] && accepted[..done] == old(accepted)[..done];
      CallbacksMore(rest, c);
      FnsMore(rest, c);
      assert ready + Fns(rest) + added == ready + (Fns(rest) + added);
      ok := true;
    }

    lemma CalledMore(reply: Option<Reply>, c: Command)
      requires 0 < |passed| <= |accepted| && c == accepted[|passed| - 1] && passed[|passed| - 1] == reply
      ensures var n := |passed| - 1;
              Calls(accepted[..n + 1], passed[..n + 1]) == Calls(accepted[..n], passed[..n]) + CallOf(c, reply)
    {
      var n := |passed| - 1;
      assert accepted[..n + 1] == accepted[..n] + [c] && passed[..n + 1] == passed[..n] + [reply];
      CallsMore(accepted[..n], passed[..n], c, reply);
    }

    /** What a call may do while it runs: disconnecting and freeing are only noted. */
    method Perform(a: Action, ghost ready: seq<int>, ghost done: nat)
      requires Queued(ready, done) && !freed && flags.inCallback
      modifies this
      ensures Queued(ready, done) && Grown(old(accepted), old(flags)) && !freed
      ensures passed == old(passed) && received == old(received) && calls == old(calls)
      ensures View() == Noted(old(View()), a)
      decreases 0, 9
    {
      match a
      case Issue(c) =>
        var ok := RedisAsyncCommand(c, ready, done);
      case CloseConn => Close(ready, done);
      case Disconnect => RedisAsyncDisconnect(ready, done);
      case Free => RedisAsyncFree(ready, done);
    }

    /** What calls leave behind: commands were accepted only if they were not refused from the start. */
    ghost predicate Grown(before: seq<Command>, was: Flags)
      reads `accepted, `flags
    {
      && flags.inCallback && before <= accepted
      && (was.disconnecting || was.freeing ==> Refuses() && accepted == before)
      && (was.freeing ==> flags.freeing)
    }

    /** All that one call does. */
    method PerformAll(actions: seq<Action>, ghost ready: seq<int>, ghost done: nat)
      requires Queued(ready, done) && !freed && flags.inCallback
      modifies this
      ensures Queued(ready, done) && Grown(old(accepted), old(flags)) && !freed
      ensures passed == old(passed) && received == old(received) && calls == old(calls)
      ensures View() == NotedAll(old(View()), actions)
      decreases 0, 10
    {
      hide Queued, RedisControl.Noted;
      var i := 0;
      assert actions[0..] == actions;
      while i < |actions|
        invariant 0 <= i <= |actions| && Queued(ready, done) && !freed && Grown(old(accepted), old(flags))
        invariant passed == old(passed) && received == old(received) && calls == old(calls)
        invariant NotedAll(View(), actions[i..]) == NotedAll(old(View()), actions)
      {
        Perform(actions[i], ready, done);
        assert actions[i..][1..] == actions[i + 1..];
        i := i + 1;
      }
    }

    /** The call of the function at the front is made. */
    method MakeCall(reply: Option<Reply>, privdata: int, ghost c: Command)
      requires |passed| > 0 && Queued(Fns([c]), |passed| - 1) && !freed
      requires c.fn.Some? && c.privdata == privdata && c == accepted[|passed| - 1] && passed[|passed| - 1] == reply
      modifies `calls
      ensures redisFns != [] && Queued([redisFns[0]], |passed|)
      ensures |calls| == |old(calls)| + 1
    {
      hide Callbacks, Calls;
      calls := calls + [Call(redisFns[0], reply, privdata)];
      CalledMore(reply, c);
      FnsOne(c);
    }

    /** getCallback: the function at the front is called, then leaves. */
    method GetCallback(reply: Option<Reply>, privdata: int, ghost c: Command)
      requires |passed| > 0 && Queued(Fns([c]), |passed| - 1) && !freed && flags.inCallback
      requires c.fn.Some? && c.privdata == privdata && c == accepted[|passed| - 1] && passed[|passed| - 1] == reply
      modifies this
      ensures Queued([], |passed|) && Grown(old(accepted), old(flags)) && !freed
      ensures passed == old(passed) && received == old(received)
      ensures View() == CallMade(old(View()), script)
      decreases 0, 11
    {
      hide NotedAll, Callbacks, Calls, Answered;
      var n := |calls|;
      MakeCall(reply, privdata, c);
      PerformAll(script(n), [redisFns[0]], |passed|);
      redisFns := redisFns[1..];
    }

    /** __redisRunCallback. */
    method RunCallback(cb: Callback, reply: Option<Reply>, ghost c: Command)
      requires |passed| > 0 && Queued(Fns([c]), |passed| - 1) && !freed && !flags.inCallback
      requires cb == CallbackOf(c) && c == accepted[|passed| - 1] && passed[|passed| - 1] == reply
      modifies this
      ensures Queued([], |passed|) && !flags.inCallback && !freed && old(accepted) <= accepted
      ensures old(Refuses()) ==> Refuses() && accepted == old(accepted)
      ensures !cb.fn ==> flags == old(flags)
      ensures passed == old(passed) && received == old(received)
      ensures View() == if cb.fn then CallMade(old(View()), script) else old(View())
      decreases 1, 3
    {
      if cb.fn {
        flags := flags.(inCallback := true);
        GetCallback(reply, cb.privdata, c);
        flags := flags.(inCallback := false);
      } else {
        CalledMore(reply, c);
        FnsOne(c);
      }
    }

    /** __redisShiftCallback, for what will be passed to the callback. */
    method ShiftCallback(ghost reply: Option<Reply>) returns (ok: bool, cb: Callback, ghost c: Command)
      requires Queued([], |passed|) && (reply == None || |received| == |passed|)
      modifies `replies, `passed, `received
      ensures ok <==> old(replies) != []
      ensures !ok ==> replies == old(replies) && passed == old(passed) && received == old(received)
      ensures ok ==> replies == old(replies)[1..] && cb == old(replies)[0]
      ensures ok ==> passed == old(passed) + [reply] && |passed| <= |accepted|
      ensures ok ==> c == accepted[|passed| - 1] && cb == CallbackOf(c)
      ensures ok ==> Queued(Fns([c]), |passed| - 1)
      ensures ok ==> received == if reply.Some? then old(received) + [reply.value] else old(received)
    {
      hide Callbacks, Fns, Calls;
      c := Command(None, 0);
      if replies == [] {
        return false, Callback(false, 0), c;
      }
      FirstPending(accepted[|passed|..]);
      ok, cb := true, replies[0];
      replies := replies[1..];
      c := accepted[|passed|];
      assert accepted[|passed|..][1..] == accepted[|passed| + 1..];
      assert passed == (passed + [reply])[..|passed|] == passed[..|passed|];
      passed := passed + [reply];
      if reply.Some? {
        received := received + [reply.value];
      }
    }

    /** The context is gone; every command accepted is over. */
    ghost predicate Over()
      reads this
    {
      freed && Queued([], |passed|) && |passed| == |accepted| && replies == [] && redisFns == [] && !flags.inCallback
    }

    /** Nothing pending, so nothing due. */
    lemma NothingPending()
      requires Queued([], |passed|) && replies == []
      ensures |passed| == |accepted| && redisFns == []
    {
      assert accepted[|passed|..] == [];
    }

    /** One turn of the loop in __redisAsyncFree. */
    method CallWithNull() returns (ok: bool)
      requires Queued([], |passed|) && !freed && !flags.inCallback && (Refuses() || replies == [])
      modifies this
      ensures Queued([], |passed|) && !freed && !flags.inCallback && (Refuses() || replies == [])
      ensures accepted == old(accepted) && received == old(received) && old(passed) <= passed
      ensures if ok then |passed| == |old(passed)| + 1 else replies == []
      decreases 1, 4
    {
      hide Callbacks, Fns, Calls;
      var cb;
      ghost var c;
      ok, cb, c := ShiftCallback(None);
      if ok {
        RunCallback(cb, None, c);
      }
    }

    /** __redisAsyncFree: pending callbacks are called with NULL. */
    method AsyncFree_()
      requires Idle() && !freed && (Refuses() || replies == [])
      modifies this
      ensures Over() && accepted == old(accepted) && received == old(received) && old(passed) <= passed
      decreases 1, 5
    {
      hide Callbacks, Fns, Calls;
      var ok := true;
      while ok
        invariant Queued([], |passed|) && !freed && !flags.inCallback && (Refuses() || replies == [])
        invariant accepted == old(accepted) && received == old(received) && old(passed) <= passed
        invariant !ok ==> replies == []
        decreases |accepted| - |passed|, ok
      {
        ok := CallWithNull();
      }
      NothingPending();
      closed := closed || connected;
      freed := true;
    }

    /** redisAsyncFree. */
    method RedisAsyncFree(ghost ready: seq<int>, ghost done: nat)
      requires !freed && if flags.inCallback then Queued(ready, done) else Idle()
      modifies this
      ensures old(flags.inCallback) ==>
                && Queued(ready, done) && !freed && flags == old(flags).(freeing := true) && accepted == old(accepted)
                && passed == old(passed) && received == old(received) && calls == old(calls)
                && View() == Noted(old(View()), Free)
      ensures !old(flags.inCallback) ==> Over() && accepted == old(accepted) && received == old(received)
      decreases if flags.inCallback then 0 else 1, 6
    {
      flags := flags.(freeing := true);
      if !flags.inCallback {
        AsyncFree_();
      }
    }

    /** __redisAsyncDisconnect; its assertion holds. */
    method AsyncDisconnect_()
      requires Idle() && !freed && (err || replies == [])
      modifies this
      ensures Over() && accepted == old(accepted) && received == old(received)
      decreases 1, 6
    {
      if !err {
        assert replies == [];
      } else {
        flags := flags.(disconnecting := true);
      }
      AsyncFree_();
    }

    /** redisAsyncDisconnect. */
    method RedisAsyncDisconnect(ghost ready: seq<int>, ghost done: nat)
      requires !freed && if flags.inCallback then Queued(ready, done) else Idle()
      modifies this
      ensures old(flags.inCallback) ==>
                && Queued(ready, done) && !freed
                && flags == old(flags).(disconnecting := true) && accepted == old(accepted)
                && passed == old(passed) && received == old(received) && calls == old(calls)
                && View() == Noted(old(View()), Disconnect)
      ensures !old(flags.inCallback) ==>
                && accepted == old(accepted) && received == old(received)
                && (if freed then Over() else Idle()) && View() == Acted(old(View()), Disconnect)
      decreases if flags.inCallback then 0 else 1, 7
    {
      flags := flags.(disconnecting := true);
      if !flags.inCallback && replies == [] {
        AsyncDisconnect_();
      }
    }

    /** Close of RedisConn. */
    method Close(ghost ready: seq<int>, ghost done: nat)
      requires !freed && if flags.inCallback then Queued(ready, done) else Idle()
      modifies this
      ensures old(flags.inCallback) ==>
                && Queued(ready, done) && !freed && accepted == old(accepted)
                && (flags == old(flags) || flags == old(flags).(disconnecting := true))
                && passed == old(passed) && received == old(received) && calls == old(calls)
                && View() == Noted(old(View()), CloseConn)
      ensures !old(flags.inCallback) ==>
                && accepted == old(accepted) && received == old(received)
                && (if freed then Over() else Idle()) && View() == Acted(old(View()), CloseConn)
      decreases if flags.inCallback then 0 else 1, 8
    {
      if !closed {
        closed := true;
        RedisAsyncDisconnect(ready, done);
      }
    }

    /** One reply that has a command waiting for it. */
    method PassReply(reply: Reply)
      requires Live() && replies != []
      modifies this
      ensures Idle() && (freed ==> Over()) && (!freed ==> Live())
      ensures old(accepted) <= accepted && received == old(received) + [reply]
      ensures View() == ReplyTaken(old(View()), script)
    {
      hide Callbacks, Fns, Calls;
      var ok, cb;
      ghost var c;
      ok, cb, c := ShiftCallback(Some(reply));
      RunCallback(cb, Some(reply), c);
      if cb.fn && flags.freeing {
        AsyncFree_();
      }
    }

    /** No more replies, or an error behind them. */
    method NoReply(broken: bool)
      requires Live()
      modifies this
      ensures Idle() && (if freed then Over() else Live() && !broken)
      ensures accepted == old(accepted) && received == old(received)
      ensures View() == if EndsAfter(old(View()), broken) then Gone else old(View())
    {
      if broken {
        err := true;
        AsyncDisconnect_();
      } else if flags.disconnecting && obuf == 0 && replies == [] {
        AsyncDisconnect_();
      }
    }

    /** A reply for which no command waits: an error ends the connection. */
    method SpontaneousReply(reply: Reply) returns (expected: bool)
      requires Live() && replies == []
      modifies this
      ensures Idle() && (if freed then Over() else Live())
      ensures accepted == old(accepted) && received == old(received)
      ensures expected == reply.error && (expected <==> freed)
      ensures !expected ==> |passed| == |accepted| && View() == old(View())
    {
      expected := reply.error;
      if expected {
        err := true;
        AsyncDisconnect_();
      } else {
        NothingPending();
      }
    }

    /**
     * redisProcessCallbacks on the replies in the reader, behind which it may find
     * an error.  Not expected: a reply, not an error, for which no command waits.
     */
    method ProcessCallbacks(input: seq<Reply>, broken: bool) returns (consumed: nat, expected: bool)
      requires Live()
      modifies this
      ensures Idle() && (if freed then Over() else Live()) && old(accepted) <= accepted
      ensures consumed <= |input| && received == old(received) + input[..consumed]
      ensures !expected ==> !freed && consumed < |input| && !input[consumed].error && |passed| == |accepted|
      ensures Outcome(View(), expected, false) == Processed(old(View()), input, broken, script)
    {
      hide Queued;
      consumed, expected := 0, true;
      assert input[0..] == input;
      while consumed < |input| && expected && !freed
        invariant consumed <= |input| && Idle() && (if freed then Over() else Live()) && old(accepted) <= accepted
        invariant received == old(received) + input[..consumed]
        invariant !expected ==> !freed && consumed < |input| && !input[consumed].error && |passed| == |accepted|
        invariant !expected ==> replies == []
        invariant Processed(old(View()), input, broken, script) ==
                  Processed(View(), input[consumed..], broken, script)
        decreases |input| - consumed, expected, !freed
      {
        if replies == [] {
          expected := SpontaneousReply(input[consumed]);
        } else {
          PassReply(input[consumed]);
          assert input[..consumed + 1] == input[..consumed] + [input[consumed]];
          assert input[consumed..][1..] == input[consumed + 1..];
          consumed := consumed + 1;
        }
      }
      if expected && !freed {
        NoReply(broken);
      }
    }

    /** A call of RedisConn or of async.c from outside the functions that replies are passed to. */
    method Act(a: Action)
      requires Idle() && !freed
      modifies this
      ensures old(accepted) <= accepted && received == old(received)
      ensures (if freed then Over() else Idle()) && View() == Acted(old(View()), a)
    {
      hide Callbacks, Fns, Calls;
      match a
      case Issue(c) =>
        var ok := RedisAsyncCommand(c, [], |passed|);
      case CloseConn => Close([], 0);
      case Disconnect => RedisAsyncDisconnect([], 0);
      case Free => RedisAsyncFree([], 0);
    }

    /** The user's connect callback; it may end the context. */
    method Connects(actions: seq<Action>)
      requires Idle() && !freed
      modifies this
      ensures old(accepted) <= accepted && received == old(received)
      ensures (if freed then Over() else Idle()) && View() == ActedAll(old(View()), actions)
    {
      hide Queued;
      var i := 0;
      assert actions[0..] == actions;
      while i < |actions| && !freed
        invariant 0 <= i <= |actions| && old(accepted) <= accepted && received == old(received)
        invariant (if freed then Over() else Idle()) && ActedAll(old(View()), actions) == ActedAll(View(), actions[i..])
        decreases |actions| - i, !freed
      {
        Act(actions[i]);
        assert actions[i..][1..] == actions[i + 1..];
        i := i + 1;
      }
    }

    /**
     * __redisAsyncHandleConnect.  Dangling: the connect callback has ended the
     * context, which is used all the same.
     */
    method HandleConnect(result: Connecting, onConnect: seq<Action>) returns (ok: bool, dangling: bool)
      requires Live() && !connected
      modifies this
      ensures Idle() && (if freed then Over() else Live()) && old(accepted) <= accepted && received == old(received)
      ensures ok <==> !freed
      ensures Outcome(View(), true, dangling) == Checked(old(View()), result, onConnect)
    {
      hide Callbacks, Fns, Calls, ActedAll;
      dangling := false;
      match result {
        case InProgress =>
          err := true;
        case Refused =>
          err := true;
          Connects(onConnect);
          dangling := freed;
          if !freed {
            AsyncDisconnect_();
          }
        case Connected =>
          connected := true;
          Connects(onConnect);
          dangling := freed;
      }
      ok := !freed;
    }

    /** redisAsyncHandleRead. */
    method HandleRead(r: Reading) returns (consumed: nat, expected: bool, dangling: bool)
      requires Live()
      modifies this
      ensures Idle() && (if freed then Over() else Live()) && old(accepted) <= accepted
      ensures consumed <= |r.input| && received == old(received) + r.input[..consumed]
      ensures !expected ==> !freed && consumed < |r.input| && !r.input[consumed].error && |passed| == |accepted|
      ensures Outcome(View(), expected, dangling) == ReadHandled(old(View()), r, script)
    {
      hide Callbacks, Fns, Calls, Checked, Processed;
      consumed, expected, dangling := 0, true, false;
      if !connected {
        var ok;
        ok, dangling := HandleConnect(r.result, r.onConnect);
        if !ok || !connected {
          return;
        }
      }
      if err || !r.readOk {
        err := true;
        AsyncDisconnect_();
      } else {
        consumed, expected := ProcessCallbacks(r.input, r.broken);
      }
    }

    /** redisAsyncHandleWrite. */
    method HandleWrite(w: Writing) returns (dangling: bool)
      requires Live()
      modifies this
      ensures Idle() && (if freed then Over() else Live()) && old(accepted) <= accepted && received == old(received)
      ensures Outcome(View(), true, dangling) == WriteHandled(old(View()), w)
    {
      hide Callbacks, Fns, Calls, Checked;
      dangling := false;
      if !connected {
        var ok;
        ok, dangling := HandleConnect(w.result, w.onConnect);
        if !ok || !connected {
          return;
        }
      }
      if err || w.left.None? {
        err := true;
        AsyncDisconnect_();
      } else {
        obuf := Min(w.left.value, obuf);
      }
    }

    /** OnActive of RedisConn; the write handler gets the context even if the read handler has ended it. */
    method OnActive(read: Option<Reading>, write: Option<Writing>) returns (expected: bool, dangling: bool)
      requires Live()
      modifies this
      ensures Idle() && (if freed then Over() else Live()) && old(accepted) <= accepted
      ensures !expected ==> !freed && |passed| == |accepted|
      ensures Outcome(View(), expected, dangling) == ActiveHandled(old(View()), read, write, script)
    {
      hide Queued, ReadHandled, WriteHandled;
      expected, dangling := true, false;
      if read.Some? {
        var consumed;
        consumed, expected, dangling := HandleRead(read.value);
      }
      if write.Some? && expected {
        if freed {
          dangling := true;
        } else {
          dangling := HandleWrite(write.value);
        }
      }
    }
  }

  /**
   * Any run of events, up to the end of the context: the k-th reply goes to the
   * k-th command accepted; the calls made are one for each command that is over
   * and has a function, in order, with its reply or with NULL; redisFns holds the
   * functions of the commands still pending; and a context that is gone has left
   * no command without its call.
   */
  method RunEvents(conn: RedisConn, events: seq<Event>) returns (expected: bool, dangling: bool)
    requires conn.Live() && conn.accepted == []
    modifies conn
    ensures var done := |conn.passed|;
            && done <= |conn.accepted|
            && conn.calls == Calls(conn.accepted[..done], conn.passed)
            && (forall k :: 0 <= k < |conn.received| ==> k < done && conn.passed[k] == Some(conn.received[k]))
            && (forall k :: |conn.received| <= k < done ==> conn.passed[k] == None)
            && conn.redisFns == Fns(conn.accepted[done..])
            && if conn.freed then done == |conn.accepted| else |conn.received| == done
    ensures Outcome(conn.View(), expected, dangling) == HandledAll(old(conn.View()), events, conn.script)
  {
    hide Handled;
    expected, dangling := true, false;
    var i := 0;
    assert events[0..] == events;
    while i < |events| && expected && !conn.freed
      invariant 0 <= i <= |events| && conn.Idle() && if conn.freed then conn.Over() else conn.Live()
      invariant HandledAll(old(conn.View()), events, conn.script) ==
                if expected && !conn.freed then HandledAll(conn.View(), events[i..], conn.script)
                else Outcome(conn.View(), expected, dangling)
      invariant !conn.freed ==> !dangling
    {
      assert events[i..][1..] == events[i + 1..];
      expected, dangling := RunEvent(conn, events[i]);
      i := i + 1;
    }
    assert conn.passed[..|conn.passed|] == conn.passed;
  }

  method RunEvent(conn: RedisConn, e: Event) returns (expected: bool, dangling: bool)
    requires conn.Live()
    modifies conn
    ensures conn.Idle() && if conn.freed then conn.Over() else conn.Live()
    ensures Outcome(conn.View(), expected, dangling) == Handled(old(conn.View()), e, conn.script)
  {
    expected, dangling := true, false;
    match e
    case Active(read, write) =>
      expected, dangling := conn.OnActive(read, write);
    case User(action) =>
      conn.Act(action);
  }
}
