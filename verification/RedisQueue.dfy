/** Commands, their callbacks and the calls made: what the queues of async.c and RedisConn have to agree on. */
module RedisQueue {
  import opened Bytes

  datatype Reply = Reply(error: bool, value: int)

  /** What a user asks for: the function to call with the reply, if any. */
  datatype Command = Command(fn: Option<int>, privdata: int)

  /** redisCallback: whether there is a function, and what to pass to it. */
  datatype Callback = Callback(fn: bool, privdata: int)

  /** A call of a user's function, with a reply or with NULL. */
  datatype Call = Call(fn: int, reply: Option<Reply>, privdata: int)

  function CallbackOf(c: Command): Callback {
    Callback(c.fn.Some?, c.privdata)
  }

  /** The callbacks of commands, in order. */
  function Callbacks(cs: seq<Command>): (r: seq<Callback>)
    ensures |r| == |cs| && forall i :: 0 <= i < |cs| ==> r[i] == CallbackOf(cs[i])
  {
    if cs == [] then [] else [CallbackOf(cs[0])] + Callbacks(cs[1..])
  }

  /** The functions of commands that have one, in order. */
  function Fns(cs: seq<Command>): seq<int> {
    if cs == [] then [] else (if cs[0].fn.Some? then [cs[0].fn.value] else []) + Fns(cs[1..])
  }

  /** The calls due to commands with these replies. */
  function Calls(cs: seq<Command>, replies: seq<Option<Reply>>): seq<Call>
    requires |cs| == |replies|
  {
    if cs == [] then []
    else
      var n := |cs| - 1;
      Calls(cs[..n], replies[..n]) + CallOf(cs[n], replies[n])
  }

  function CallOf(c: Command, reply: Option<Reply>): seq<Call> {
    if c.fn.Some? then [Call(c.fn.value, reply, c.privdata)] else []
  }

  lemma CallbacksMore(cs: seq<Command>, c: Command)
    ensures Callbacks(cs + [c]) == Callbacks(cs) + [CallbackOf(c)]
  {
  }

  lemma {:induction false} FnsMore(cs: seq<Command>, c: Command)
    ensures Fns(cs + [c]) == Fns(cs) + (if c.fn.Some? then [c.fn.value] else [])
  {
    if cs == [] {
      assert [c][1..] == [];
      assert cs + [c] == [c];
    } else {
      assert (cs + [c])[1..] == cs[1..] + [c];
      FnsMore(cs[1..], c);
      var first := if cs[0].fn.Some? then [cs[0].fn.value] else [];
      var last := if c.fn.Some? then [c.fn.value] else [];
      assert first + (Fns(cs[1..]) + last) == first + Fns(cs[1..]) + last;
    }
  }

  lemma FnsOne(c: Command)
    ensures Fns([c]) == if c.fn.Some? then [c.fn.value] else []
  {
    assert [c][1..] == [];
  }

  /** The first pending command's callback and function come first. */
  lemma FirstPending(cs: seq<Command>)
    ensures |Callbacks(cs)| == |cs|
    ensures cs != [] ==> Callbacks(cs)[0] == CallbackOf(cs[0]) && Callbacks(cs)[1..] == Callbacks(cs[1..])
    ensures cs != [] ==> Fns(cs) == Fns([cs[0]]) + Fns(cs[1..])
  {
    if cs != [] {
      FnsOne(cs[0]);
    }
  }

  lemma CallsMore(cs: seq<Command>, replies: seq<Option<Reply>>, c: Command, reply: Option<Reply>)
    requires |cs| == |replies|
    ensures Calls(cs + [c], replies + [reply]) == Calls(cs, replies) + CallOf(c, reply)
  {
    assert (cs + [c])[..|cs|] == cs && (replies + [reply])[..|cs|] == replies;
  }

  /** received replies first, then only NULL. */
  predicate Answered(replies: seq<Option<Reply>>, received: seq<Reply>) {
    && |received| <= |replies|
    && (forall i :: 0 <= i < |received| ==> replies[i] == Some(received[i]))
    && forall i :: |received| <= i < |replies| ==> replies[i] == None
  }

  /** Each command with a function gets exactly one call: the one whose place is that of its function. */
  lemma {:induction false} CallAt(cs: seq<Command>, replies: seq<Option<Reply>>, i: nat)
    requires i < |cs| == |replies| && cs[i].fn.Some?
    ensures |Calls(cs, replies)| == |Fns(cs)| && |Fns(cs[..i])| < |Fns(cs)|
    ensures Calls(cs, replies)[|Fns(cs[..i])|] == Call(cs[i].fn.value, replies[i], cs[i].privdata)
    decreases |cs|
  {
    var n := |cs| - 1;
    CallsCount(cs, replies);
    CallsCount(cs[..n], replies[..n]);
    assert cs == cs[..n] + [cs[n]];
    FnsMore(cs[..n], cs[n]);
    if i < n {
      CallAt(cs[..n], replies[..n], i);
      assert cs[..n][..i] == cs[..i];
    }
  }

  lemma {:induction false} CallsCount(cs: seq<Command>, replies: seq<Option<Reply>>)
    requires |cs| == |replies|
    ensures |Calls(cs, replies)| == |Fns(cs)|
    decreases |cs|
  {
    if cs != [] {
      var n := |cs| - 1;
      CallsCount(cs[..n], replies[..n]);
      assert cs == cs[..n] + [cs[n]];
      FnsMore(cs[..n], cs[n]);
    }
  }
}
