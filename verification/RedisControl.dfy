/**
 * When a Redis connection ends: the part of its state that decides, what each call
 * and event does to it, and which events use a context after its end.
 */
module RedisControl {
  import opened Bytes
  import opened RedisQueue

  /** What may happen while a function is called: calls of RedisConn and of async.c. */
  datatype Action = Issue(command: Command) | CloseConn | Disconnect | Free

  /** What a function call does: the actions of the n-th call. */
  type Script = nat -> seq<Action>

  /** pending: the callbacks of async.c; obuf: commands in the output buffer; calls: how many were made. */
  datatype Control =
    | Gone
    | InUse(pending: seq<Callback>, disconnecting: bool, freeing: bool, closed: bool, err: bool, obuf: nat,
            connected: bool, calls: nat)
  {
    predicate Refuses()
      requires InUse?
    {
      closed || disconnecting || freeing
    }
  }

  const START := InUse([], false, false, false, false, 0, false, 0)

  // ----- Calls -----

  function Issued(v: Control, c: Command): Control
    requires v.InUse?
  {
    if v.Refuses() then v else v.(pending := v.pending + [CallbackOf(c)], obuf := v.obuf + 1)
  }

  /** An action inside a function that was called with a reply: ends are only noted. */
  function Noted(v: Control, a: Action): (w: Control)
    requires v.InUse?
    ensures w.InUse? && w.connected == v.connected
  {
    match a
    case Issue(c) => Issued(v, c)
    case CloseConn => if v.closed then v else v.(closed := true, disconnecting := true)
    case Disconnect => v.(disconnecting := true)
    case Free => v.(freeing := true)
  }

  function NotedAll(v: Control, actions: seq<Action>): (w: Control)
    requires v.InUse?
    ensures w.InUse? && w.connected == v.connected
    decreases |actions|
  {
    if actions == [] then v else NotedAll(Noted(v, actions[0]), actions[1..])
  }

  /** The same action outside. */
  function Acted(v: Control, a: Action): (w: Control)
    requires v.InUse?
    ensures w.InUse? ==> w.connected == v.connected && w.err == v.err && w.freeing == v.freeing
  {
    match a
    case Issue(c) => Issued(v, c)
    case CloseConn => if v.closed then v else if v.pending == [] then Gone else Noted(v, CloseConn)
    case Disconnect => if v.pending == [] then Gone else Noted(v, Disconnect)
    case Free => Gone
  }

  /** Actions outside, up to the end of the context. */
  function ActedAll(v: Control, actions: seq<Action>): (w: Control)
    ensures v.InUse? && w.InUse? ==> w.connected == v.connected && w.err == v.err && w.freeing == v.freeing
    ensures v.Gone? ==> w.Gone?
    decreases |actions|
  {
    if actions == [] || v.Gone? then v else ActedAll(Acted(v, actions[0]), actions[1..])
  }

  // ----- Replies -----

  /** A function is called with a reply. */
  function CallMade(v: Control, script: Script): (w: Control)
    requires v.InUse?
    ensures w.InUse? && w.connected == v.connected
  {
    NotedAll(v.(calls := v.calls + 1), script(v.calls))
  }

  /** The first pending callback is run. */
  function Told(v: Control, script: Script): (w: Control)
    requires v.InUse? && v.pending != []
    ensures w.InUse? && w.connected == v.connected
  {
    var u := v.(pending := v.pending[1..]);
    if v.pending[0].fn then CallMade(u, script) else u
  }

  /** A reply for the first pending callback, which may free the context. */
  function ReplyTaken(v: Control, script: Script): Control
    requires v.InUse? && v.pending != []
  {
    var w := Told(v, script);
    if v.pending[0].fn && w.freeing then Gone else w
  }

  /** What redisProcessCallbacks ends the context for when the reader has no more replies, or fails. */
  predicate EndsAfter(v: Control, broken: bool)
    requires v.InUse?
  {
    broken || (v.disconnecting && v.obuf == 0 && v.pending == [])
  }

  /** Not expected: a reply, not an error, for which no command waits. */
  datatype Outcome = Outcome(v: Control, expected: bool, dangling: bool)

  /** redisProcessCallbacks. */
  function Processed(v: Control, input: seq<Reply>, broken: bool, script: Script): (o: Outcome)
    ensures !o.dangling && (o.v.InUse? && v.InUse? ==> o.v.connected == v.connected)
    ensures v.Gone? ==> o.v.Gone?
    ensures o.v.Gone? ==> o.expected
    decreases |input|
  {
    if v.Gone? then Outcome(v, true, false)
    else if input == [] then Outcome(if EndsAfter(v, broken) then Gone else v, true, false)
    else if v.pending == [] then
      if input[0].error then Outcome(Gone, true, false) else Outcome(v, false, false)
    else Processed(ReplyTaken(v, script), input[1..], broken, script)
  }

  // ----- Events -----

  /** What comes of checking a connecting socket. */
  datatype Connecting = InProgress | Refused | Connected

  /** What the read handler meets; readOk: whether reading from the socket succeeds. */
  datatype Reading = Reading(
    result: Connecting, onConnect: seq<Action>, readOk: bool, input: seq<Reply>, broken: bool)

  /** What the write handler meets; left: how many commands stay in the output buffer at most, or an error. */
  datatype Writing = Writing(result: Connecting, onConnect: seq<Action>, left: Option<nat>)

  /**
   * The check of a connecting socket.  Every result but success leaves an error in
   * the context.  If the connect callback ends the context, async.c goes on with it.
   */
  function Checked(v: Control, result: Connecting, onConnect: seq<Action>): (o: Outcome)
    requires v.InUse?
    ensures o.expected && (o.dangling ==> o.v.Gone?)
  {
    match result
    case InProgress => Outcome(v.(err := true), true, false)
    case Refused => Outcome(Gone, true, ActedAll(v.(err := true), onConnect).Gone?)
    case Connected =>
      var w := ActedAll(v.(connected := true), onConnect);
      Outcome(w, true, w.Gone?)
  }

  /** redisAsyncHandleRead. */
  function ReadHandled(v: Control, r: Reading, script: Script): (o: Outcome)
    requires v.InUse?
    ensures (o.dangling ==> o.v.Gone?) && (o.v.Gone? ==> o.expected)
    ensures o.v.InUse? && (v.connected || !r.result.InProgress?) ==> o.v.connected
  {
    var c := if v.connected then Outcome(v, true, false) else Checked(v, r.result, r.onConnect);
    if c.v.Gone? || !c.v.connected then c
    else if c.v.err || !r.readOk then Outcome(Gone, true, false)
    else Processed(c.v, r.input, r.broken, script)
  }

  function Min(a: nat, b: nat): nat {
    if a < b then a else b
  }

  /** redisAsyncHandleWrite. */
  function WriteHandled(v: Control, w: Writing): (o: Outcome)
    requires v.InUse?
    ensures o.expected && (o.dangling ==> o.v.Gone?)
  {
    var c := if v.connected then Outcome(v, true, false) else Checked(v, w.result, w.onConnect);
    if c.v.Gone? || !c.v.connected then c
    else if c.v.err || w.left.None? then Outcome(Gone, true, false)
    else Outcome(c.v.(obuf := Min(w.left.value, c.v.obuf)), true, false)
  }

  /** OnActive of RedisConn: the read handler, then the write handler, on the same context. */
  function ActiveHandled(v: Control, read: Option<Reading>, write: Option<Writing>, script: Script): (o: Outcome)
    requires v.InUse?
    ensures o.dangling ==> o.v.Gone?
  {
    var o := if read.Some? then ReadHandled(v, read.value, script) else Outcome(v, true, false);
    if write.None? || !o.expected then o
    else if o.v.Gone? then o.(dangling := true)
    else WriteHandled(o.v, write.value)
  }

  /** What an event loop and a user do with a connection. */
  datatype Event = Active(read: Option<Reading>, write: Option<Writing>) | User(action: Action)

  function Handled(v: Control, e: Event, script: Script): (o: Outcome)
    requires v.InUse?
    ensures o.dangling ==> o.v.Gone?
  {
    match e
    case Active(read, write) => ActiveHandled(v, read, write, script)
    case User(action) => Outcome(Acted(v, action), true, false)
  }

  /** Events up to the end of the context. */
  function HandledAll(v: Control, events: seq<Event>, script: Script): (o: Outcome)
    ensures o.dangling ==> o.v.Gone?
    decreases |events|
  {
    if events == [] || v.Gone? then Outcome(v, true, false)
    else
      var o := Handled(v, events[0], script);
      if !o.expected || o.v.Gone? then o else HandledAll(o.v, events[1..], script)
  }

  // ----- Which actions end a context -----

  /** Whether an action outside ends the context, with commands pending or not. */
  predicate Ends(a: Action, pending: bool, closed: bool) {
    a.Free? || (!pending && (a.Disconnect? || (a.CloseConn? && !closed)))
  }

  /** Whether one of the actions does. */
  predicate EndsIn(actions: seq<Action>, pending: bool, closed: bool, refuses: bool) {
    actions != []
    && (Ends(actions[0], pending, closed)
        || EndsIn(actions[1..], pending || (actions[0].Issue? && !closed && !refuses),
                  closed || actions[0].CloseConn?,
                  refuses || actions[0].Disconnect? || (actions[0].CloseConn? && !closed)))
  }

  lemma {:induction false} ActionsEnd(v: Control, actions: seq<Action>)
    requires v.InUse?
    ensures ActedAll(v, actions).Gone? <==>
            EndsIn(actions, v.pending != [], v.closed, v.disconnecting || v.freeing)
    decreases |actions|
  {
    if actions != [] && Acted(v, actions[0]).InUse? {
      ActionsEnd(Acted(v, actions[0]), actions[1..]);
    }
  }

  // ----- Which replies end a context -----

  /** Whether a function called with a reply frees the context, or another call has asked for it before. */
  predicate Frees(freeing: bool, actions: seq<Action>) {
    freeing || Free in actions
  }

  lemma {:induction false} FreesNoted(v: Control, actions: seq<Action>)
    requires v.InUse?
    ensures NotedAll(v, actions).freeing == Frees(v.freeing, actions)
    decreases |actions|
  {
    if actions != [] {
      FreesNoted(Noted(v, actions[0]), actions[1..]);
      assert actions == [actions[0]] + actions[1..];
    }
  }

  /**
   * Whether the k-th reply ends the context, when the replies before it did not: it
   * is an error that no command waits for, or goes to a function that frees it.
   */
  predicate EndsAt(v: Control, reply: Reply, script: Script)
    requires v.InUse?
  {
    if v.pending == [] then reply.error
    else v.pending[0].fn && Frees(v.freeing, script(v.calls))
  }

  /** The state before the k-th reply, when the replies before it do not end the context. */
  function Before(v: Control, k: nat, script: Script): (w: Control)
    requires v.InUse?
    ensures w.InUse? && w.connected == v.connected
    decreases k
  {
    if k == 0 || v.pending == [] then v else Before(Told(v, script), k - 1, script)
  }

  /** All the k replies before find a command, and none ends the context. */
  predicate GoesOn(v: Control, input: seq<Reply>, k: nat, script: Script)
    requires v.InUse? && k <= |input|
  {
    forall j: nat :: j < k ==>
      Before(v, j, script).pending != [] && !EndsAt(Before(v, j, script), input[j], script)
  }

  /** Whether these replies end the context: one of them does, or their end. */
  ghost predicate RepliesEnd(v: Control, input: seq<Reply>, broken: bool, script: Script)
    requires v.InUse?
  {
    || (exists k: nat :: k < |input| && GoesOn(v, input, k, script) && EndsAt(Before(v, k, script), input[k], script))
    || (GoesOn(v, input, |input|, script) && EndsAfter(Before(v, |input|, script), broken))
  }

  lemma BeforeNext(v: Control, k: nat, script: Script)
    requires v.InUse? && v.pending != []
    ensures Before(v, k + 1, script) == Before(Told(v, script), k, script)
  {
  }

  lemma BeforeFirst(v: Control, script: Script)
    requires v.InUse?
    ensures Before(v, 0, script) == v
  {
  }

  /** Going on past a first reply that finds a command and does not end the context. */
  lemma GoesOnNext(v: Control, input: seq<Reply>, k: nat, script: Script)
    requires v.InUse? && k < |input| && v.pending != [] && !EndsAt(v, input[0], script)
    ensures GoesOn(v, input, k + 1, script) <==> GoesOn(Told(v, script), input[1..], k, script)
  {
    hide Before, EndsAt, Told;
    BeforeFirst(v, script);
    var w := Told(v, script);
    forall j: nat ensures Before(v, j + 1, script) == Before(w, j, script) {
      BeforeNext(v, j, script);
    }
    if GoesOn(v, input, k + 1, script) {
      forall j: nat | j < k
        ensures Before(w, j, script).pending != [] && !EndsAt(Before(w, j, script), input[1..][j], script)
      {
        assert Before(v, j + 1, script) == Before(w, j, script) && input[j + 1] == input[1..][j];
      }
    }
    if GoesOn(w, input[1..], k, script) {
      forall j: nat | j < k + 1
        ensures Before(v, j, script).pending != [] && !EndsAt(Before(v, j, script), input[j], script)
      {
        if j > 0 {
          assert Before(v, j, script) == Before(w, j - 1, script) && input[j] == input[1..][j - 1];
        }
      }
    }
  }

  lemma RepliesEndNext(v: Control, input: seq<Reply>, broken: bool, script: Script)
    requires v.InUse? && input != [] && v.pending != [] && !EndsAt(v, input[0], script)
    ensures RepliesEnd(v, input, broken, script) <==> RepliesEnd(Told(v, script), input[1..], broken, script)
  {
    hide Before, EndsAt, Told, GoesOn, EndsAfter;
    var w, rest := Told(v, script), input[1..];
    BeforeFirst(v, script);
    forall k: nat | k < |input|
      ensures Before(v, k + 1, script) == Before(w, k, script)
      ensures GoesOn(v, input, k + 1, script) <==> GoesOn(w, rest, k, script)
    {
      BeforeNext(v, k, script);
      GoesOnNext(v, input, k, script);
    }
    if k: nat :| k < |input| && GoesOn(v, input, k, script) && EndsAt(Before(v, k, script), input[k], script) {
      assert k > 0 && rest[k - 1] == input[k];
      assert GoesOn(v, input, k - 1 + 1, script) <==> GoesOn(w, rest, k - 1, script);
      assert Before(v, k - 1 + 1, script) == Before(w, k - 1, script);
    }
    if k: nat :| k < |rest| && GoesOn(w, rest, k, script) && EndsAt(Before(w, k, script), rest[k], script) {
      assert rest[k] == input[k + 1];
      assert GoesOn(v, input, k + 1, script) && Before(v, k + 1, script) == Before(w, k, script);
    }
    assert GoesOn(v, input, |rest| + 1, script) <==> GoesOn(w, rest, |rest|, script);
    assert Before(v, |rest| + 1, script) == Before(w, |rest|, script);
  }

  /** Replies end a context exactly if one of them does, or their end. */
  lemma {:induction false} RepliesEndExactly(v: Control, input: seq<Reply>, broken: bool, script: Script)
    requires v.InUse?
    ensures Processed(v, input, broken, script).v.Gone? <==> RepliesEnd(v, input, broken, script)
    decreases |input|
  {
    BeforeFirst(v, script);
    if input != [] {
      if v.pending == [] {
        assert GoesOn(v, input, 0, script);
        assert forall k: nat :: 0 < k <= |input| ==> !GoesOn(v, input, k, script);
      } else {
        FreesNoted(v.(pending := v.pending[1..], calls := v.calls + 1), script(v.calls));
        if EndsAt(v, input[0], script) {
          assert GoesOn(v, input, 0, script);
        } else {
          RepliesEndNext(v, input, broken, script);
          RepliesEndExactly(Told(v, script), input[1..], broken, script);
        }
      }
    }
  }

  // ----- Which events use a context after its end -----

  /** Whether the connect callback ends the context. */
  predicate ConnectEnds(v: Control, result: Connecting, onConnect: seq<Action>)
    requires v.InUse?
  {
    !result.InProgress? && EndsIn(onConnect, v.pending != [], v.closed, v.disconnecting || v.freeing)
  }

  /** Whether reading ends a connected context. */
  ghost predicate ReadEnds(v: Control, r: Reading, script: Script)
    requires v.InUse?
  {
    v.err || !r.readOk || RepliesEnd(v, r.input, r.broken, script)
  }

  /** Whether an event uses the context after its end. */
  ghost predicate Dangles(v: Control, read: Option<Reading>, write: Option<Writing>, script: Script)
    requires v.InUse?
  {
    if v.connected then read.Some? && write.Some? && ReadEnds(v, read.value, script)
    else if read.None? || read.value.result.InProgress? then
      write.Some? && ConnectEnds(v, write.value.result, write.value.onConnect)
    else if ConnectEnds(v, read.value.result, read.value.onConnect) then true
    else
      && write.Some?
      && (read.value.result.Refused?
          || var w := ActedAll(v.(connected := true), read.value.onConnect);
             w.InUse? && ReadEnds(w, read.value, script))
  }

  lemma ReadEndsExactly(v: Control, r: Reading, script: Script)
    requires v.InUse? && v.connected
    ensures ReadHandled(v, r, script).v.Gone? <==> ReadEnds(v, r, script)
  {
    hide Processed, RepliesEnd;
    RepliesEndExactly(v, r.input, r.broken, script);
  }

  lemma CheckedExactly(v: Control, result: Connecting, onConnect: seq<Action>)
    requires v.InUse?
    ensures Checked(v, result, onConnect).dangling <==> ConnectEnds(v, result, onConnect)
  {
    hide ActedAll, EndsIn;
    ActionsEnd(v.(err := true), onConnect);
    ActionsEnd(v.(connected := true), onConnect);
  }

  /** OnActive uses a context after its end in exactly these cases, all decided before the call. */
  lemma DanglesExactly(v: Control, read: Option<Reading>, write: Option<Writing>, script: Script)
    requires v.InUse?
    ensures ActiveHandled(v, read, write, script).dangling <==> Dangles(v, read, write, script)
  {
    hide Processed, RepliesEnd, ActedAll, EndsIn, ReadEnds;
    if write.Some? {
      CheckedExactly(v, write.value.result, write.value.onConnect);
      CheckedExactly(v.(err := true), write.value.result, write.value.onConnect);
    }
    if read.Some? {
      CheckedExactly(v, read.value.result, read.value.onConnect);
      if v.connected {
        ReadEndsExactly(v, read.value, script);
      } else if read.value.result.Connected? {
        var w := ActedAll(v.(connected := true), read.value.onConnect);
        if w.InUse? {
          ReadEndsExactly(w, read.value, script);
        }
      }
    }
  }

  /** On a connected context, an event for one handler is safe, and one without replies is easy to tell. */
  lemma DanglesConnected(v: Control, read: Option<Reading>, write: Option<Writing>, script: Script)
    requires v.InUse? && v.connected
    ensures read.None? || write.None? ==> !ActiveHandled(v, read, write, script).dangling
    ensures read.Some? && read.value.input == [] ==>
              (ActiveHandled(v, read, write, script).dangling <==>
               write.Some? && (v.err || !read.value.readOk || EndsAfter(v, read.value.broken)))
  {
    DanglesExactly(v, read, write, script);
    if read.Some? {
      BeforeFirst(v, script);
      assert GoesOn(v, read.value.input, 0, script);
    }
  }

  /** A new connection that connects, and then meets an error while an event is for both handlers. */
  lemma DanglingRun(script: Script)
    ensures var connect := Active(Some(Reading(Connected, [], true, [], false)), None);
            var both := Active(Some(Reading(Connected, [], false, [], false)), Some(Writing(Connected, [], Some(0))));
            HandledAll(START, [connect, both], script) == Outcome(Gone, true, true)
  {
    var connect := Active(Some(Reading(Connected, [], true, [], false)), None);
    var both := Active(Some(Reading(Connected, [], false, [], false)), Some(Writing(Connected, [], Some(0))));
    var v := START.(connected := true);
    assert Handled(START, connect, script) == Outcome(v, true, false);
    assert [connect, both][1..] == [both] && [both][1..] == [];
    assert HandledAll(v, [both], script) == Outcome(Gone, true, true);
  }

  /** A check that finds the socket still connecting leaves an error, which ends the context once it has connected. */
  lemma ConnectingLost(v: Control, onConnect: seq<Action>, read: Reading, write: Writing, script: Script)
    requires v.InUse? && !v.connected
    ensures var w := Checked(v, InProgress, onConnect).v;
            && w == v.(err := true)
            && (read.result.Connected? ==> ReadHandled(w, read, script).v.Gone?)
            && (write.result.Connected? ==> WriteHandled(w, write).v.Gone?)
  {
  }
}
