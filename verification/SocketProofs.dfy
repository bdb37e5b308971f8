/** What every step of the TCPSocket protocol keeps, and what follows for every run. */
module SocketProofs {
  import opened Bytes
  import opened SocketModel

  // ----- Tasks -----

  /** Do tasks that have not passed the check at the top of the loop. */
  function Waiting(st: State): nat {
    |st.tops| + st.owed + st.queued
  }

  ghost predicate TasksOk(st: State) {
    && |st.active| <= 1
    && (st.active != [] ==> Waiting(st) == 0 && st.s.doing)
    && (!st.s.closed ==> Waiting(st) + |st.active| == if st.s.doing then 1 else 0)
    && (st.closing > 0 ==> st.s.closed && st.active == [])
  }

  /** An open socket without a task has nothing to do. */
  ghost predicate IdleOk(st: State) {
    !st.s.closed && !st.s.doing ==> !st.s.CanRead() && !st.s.CanWrite()
  }

  // ----- Bytes -----

  /** Bytes that the running worker has written but not yet taken off its list. */
  function InFlight(st: State): nat {
    if |st.active| == 1 && st.active[0].Written? && st.active[0].out.Wrote? then st.active[0].out.n else 0
  }

  predicate Detached(st: State) {
    |st.active| == 1 && (st.active[0].Sending? || st.active[0].Written?)
  }

  /** Accepted bytes that the kernel has not got, in order. */
  function Unsent(st: State): bytes {
    var d := Flat(st.s.Other());
    (if Detached(st) && InFlight(st) <= |d| then d[InFlight(st)..] else d) + Flat(st.s.Queue())
  }

  ghost predicate SendOk(st: State) {
    if st.lost then
      && (st.s.r.socketError || st.s.closed)
      && st.k.written <= st.accepted
      && !Detached(st)
    else
      && st.k.written + (if WroteAll(st) then Flat(st.s.Queue()) else Unsent(st)) == st.accepted
      && st.s.bytes4Send == |st.accepted| - |st.k.written| + InFlight(st)
      && (if Detached(st) then
            if WroteAll(st) then st.s.Other() == []
            else InFlight(st) < |Flat(st.s.Other())|
          else st.s.Other() == [])
  }

  predicate WroteAll(st: State) {
    |st.active| == 1 && st.active[0].Written? && st.active[0].out.Wrote? && st.active[0].out.all
  }

  /** A close that follows a flush is decided only when everything accepted has been written. */
  ghost predicate FlushOk(st: State) {
    |st.active| == 1 && st.active[0].Flushing? && st.active[0].close ==>
      st.s.closedOnFlush && st.k.written == st.accepted
  }

  // ----- Wakeups -----

  /** A read returned EAGAIN and no event came since. */
  predicate StaleRead(st: State) {
    |st.active| == 1 && st.active[0].ReadDone? && st.active[0].got.ReadAgain? && st.active[0].ver == st.s.r.readableVer
  }

  predicate ReadEventComing(st: State) {
    st.k.readEdge || (!st.poller.Polling? && st.poller.ev.read)
  }

  ghost predicate ReadWakeOk(st: State) {
    && (|st.active| == 1 && (st.active[0].Reading? || st.active[0].ReadDone?) ==>
          st.active[0].ver <= st.s.r.readableVer)
    && (st.k.registered && !st.s.closed && st.k.unread > 0 && (!st.s.r.readable || StaleRead(st)) ==>
          ReadEventComing(st))
  }

  predicate WriteEventComing(st: State) {
    || st.k.writeArmed
    || (st.poller.Disabled? && st.poller.ev.write)
    || (|st.active| == 1 && st.active[0].Enabling?)
  }

  ghost predicate WriteWakeOk(st: State) {
    st.k.registered && !st.s.closed ==> st.s.r.writeable || WriteEventComing(st)
  }

  ghost predicate Control(st: State) {
    TasksOk(st) && IdleOk(st) && ReadWakeOk(st) && WriteWakeOk(st)
  }

  ghost predicate Inv(st: State) {
    Control(st) && SendOk(st) && FlushOk(st)
  }

  // ----- Preservation, step by step -----

  lemma SentControl(st: State, data: Chunk, c: bool)
    requires Control(st)
    ensures Control(DoUserSend(st, data, c))
  {
  }

  /** Bytes appended to the queue are appended to what is accepted; nothing else moves. */
  lemma Appended(st: State, st': State, data: bytes)
    requires SendOk(st)
    requires st'.active == st.active && st'.lost == st.lost
    requires st'.s.Other() == st.s.Other() && Flat(st'.s.Queue()) == Flat(st.s.Queue()) + data
    requires st'.s.bytes4Send == st.s.bytes4Send + |data|
    requires st'.k.written == st.k.written && st'.accepted == st.accepted + data
    requires st.s.r.socketError || st.s.closed ==> st'.s.r.socketError || st'.s.closed
    ensures SendOk(st')
  {
    if !st.lost {
      assert Unsent(st') == Unsent(st) + data;
    }
  }

  lemma SentBytes(st: State, data: Chunk, c: bool)
    requires Inv(st) && !Refuses(st.s)
    ensures SendOk(DoUserSend(st, data, c)) && FlushOk(DoUserSend(st, data, c))
  {
    FlatConcat(st.s.Queue(), [data]);
    FlatOne(data);
    Appended(st, DoUserSend(st, data, c), data);
  }

  lemma Sent(st: State, data: Chunk, c: bool)
    requires Inv(st)
    ensures Inv(DoUserSend(st, data, c))
  {
    SentControl(st, data, c);
    if !Refuses(st.s) {
      SentBytes(st, data, c);
    }
  }

  lemma FlatOne(data: Chunk)
    ensures Flat([data]) == data
  {
    assert [data][1..] == [];
  }

  lemma Received(st: State, buf: nat)
    requires Inv(st) && buf > 0
    ensures Inv(WithPost(st, LockedRecv(st.s, buf)))
  {
  }

  lemma Closed(st: State)
    requires Inv(st)
    ensures Inv(CloseSocket(st))
  {
  }

  lemma Started(st: State)
    requires Inv(st) && !st.started
    ensures Inv(DoStart(st))
  {
  }

  lemma CheckedControl(st: State, i: nat)
    requires Control(st) && i in st.tops
    ensures Control(DoCheck(st, i))
  {
  }

  lemma CheckedBytes(st: State, i: nat)
    requires Inv(st) && i in st.tops
    ensures SendOk(DoCheck(st, i)) && FlushOk(DoCheck(st, i))
  {
  }

  lemma Finished(st: State)
    requires Inv(st) && st.closing > 0
    ensures Inv(DoFinish(st))
  {
  }

  lemma RecvBegun(st: State, w: nat)
    requires Inv(st) && w < |st.active| && st.active[w].Receiving?
    ensures Inv(DoRecvBegin(st, w))
  {
  }

  lemma ReadCalled(st: State, w: nat, got: ReadOutcome)
    requires Inv(st) && CanReadCall(st, w, got)
    ensures Inv(DoReadCall(st, w, got))
  {
  }

  /** A worker that owes nothing goes back to the top of its loop. */
  lemma WentBack(st: State, w: nat)
    requires Inv(st) && w < |st.active| && !Detached(st)
    requires st.active[w].Enabling? && st.k.registered && !st.s.closed ==> st.s.r.writeable || st.k.writeArmed
    ensures Inv(BackToTop(st, w))
  {
    assert Remove(st.active, w) == [];
  }

  lemma RecvLeft(st: State, w: nat)
    requires Inv(st) && w < |st.active|
    requires st.active[w].Receiving? || st.active[w].ReadDone? || st.active[w].RecvFailed?
    ensures Inv(AfterRecv(st, w))
  {
    if !st.active[w].write {
      WentBack(st, w);
    }
  }

  lemma BufferPutBack(st: State, w: nat)
    requires Inv(st) && w < |st.active| && st.active[w].ReadDone? && st.active[w].got.ReadAgain?
    ensures var pc := st.active[w];
            var t := st.s.(recvList := [pc.buf] + st.s.recvList);
            Inv(st.(s := if pc.ver == t.r.readableVer then t.(r := t.r.(readable := false)) else t))
  {
  }

  lemma ReadAgainEnded(st: State, w: nat)
    requires Inv(st) && w < |st.active| && st.active[w].ReadDone? && st.active[w].got.ReadAgain?
    ensures Inv(DoRecvEnd(st, w))
  {
    BufferPutBack(st, w);
    var pc := st.active[w];
    var t := st.s.(recvList := [pc.buf] + st.s.recvList);
    RecvLeft(st.(s := if pc.ver == t.r.readableVer then t.(r := t.r.(readable := false)) else t), w);
  }

  lemma ReadFailedEnded(st: State, w: nat)
    requires Inv(st) && w < |st.active| && st.active[w].ReadDone? && st.active[w].got.ReadFailed?
    ensures Inv(DoRecvEnd(st, w))
  {
  }

  lemma RecvEnded(st: State, w: nat)
    requires Inv(st) && w < |st.active| && st.active[w].ReadDone?
    ensures Inv(DoRecvEnd(st, w))
  {
    match st.active[w].got
    case Got(_) => RecvLeft(st, w);
    case ReadAgain => ReadAgainEnded(st, w);
    case ReadFailed => ReadFailedEnded(st, w);
  }

  lemma RecvErrored(st: State, w: nat)
    requires Inv(st) && w < |st.active| && st.active[w].RecvFailed?
    ensures Inv(DoRecvError(st, w))
  {
    Closed(st);
    RecvLeft(if st.active[w].callback then st else CloseSocket(st), w);
  }

  lemma EnableDone(st: State, w: nat)
    requires Inv(st) && w < |st.active| && st.active[w].Enabling?
    ensures Inv(DoAfterSend(st, w))
  {
    WentBack(if st.k.registered then st.(k := st.k.(writeArmed := true)) else st, w);
  }

  /** Closing from a worker that owes nothing, which then goes back. */
  lemma ClosedAndBack(st: State, w: nat)
    requires Inv(st) && w < |st.active| && (st.active[w].Flushing? || st.active[w].SendFailed?)
    ensures Inv(BackToTop(CloseSocket(st), w))
  {
    Closed(st);
    var st1 := CloseSocket(st);
    assert st1.active == st.active && !Detached(st1);
    WentBack(st1, w);
  }

  lemma FlushDone(st: State, w: nat)
    requires Inv(st) && w < |st.active| && st.active[w].Flushing?
    ensures Inv(DoAfterSend(st, w))
  {
    ClosedAndBack(st, w);
    WentBack(st, w);
  }

  lemma SendErrored(st: State, w: nat)
    requires Inv(st) && w < |st.active| && st.active[w].SendFailed?
    ensures Inv(DoAfterSend(st, w))
  {
    ClosedAndBack(st, w);
    WentBack(st, w);
  }

  lemma AfterSent(st: State, w: nat)
    requires Inv(st) && CanAfterSend(st, w)
    ensures Inv(DoAfterSend(st, w))
  {
    match st.active[w]
    case Enabling(_) => EnableDone(st, w);
    case Flushing(_, _) => FlushDone(st, w);
    case SendFailed(_, _) => SendErrored(st, w);
    case _ => WentBack(st, w);
  }

  lemma SendBegunControl(st: State, w: nat)
    requires Control(st) && w < |st.active| && st.active[w].SendReady?
    ensures Control(DoSendBegin(st, w))
  {
    assert Remove(st.active, w) == [];
  }

  lemma FlatPositive(l: seq<Chunk>)
    requires l != []
    ensures |Flat(l)| > 0
  {
  }

  /** The list that the worker detaches is never empty. */
  lemma QueueNotEmpty(st: State)
    requires SendOk(st) && !Detached(st) && st.s.CanWrite() && st.s.r.writeable
    ensures st.s.Queue() != []
  {
    assert st.s.Queue() == [] ==> Unsent(st) == [];
  }

  lemma SendBegunBytes(st: State, w: nat)
    requires Inv(st) && w < |st.active| && st.active[w].SendReady?
    ensures SendOk(DoSendBegin(st, w)) && FlushOk(DoSendBegin(st, w))
  {
    var st' := DoSendBegin(st, w);
    assert Remove(st.active, w) == [];
    if st'.active != [] && st'.active[0].Sending? {
      QueueNotEmpty(st);
      FlatPositive(st.s.Queue());
      assert st'.s.Other() == st.s.Queue() && st'.s.Queue() == [];
      assert Unsent(st') == Unsent(st);
    }
  }

  lemma WriteCalledControl(st: State, w: nat, out: WriteOutcome)
    requires Control(st) && CanWriteCall(st, w, out)
    ensures Control(DoWriteCall(st, w, out))
  {
  }

  /** The vector covers a prefix of the list; all of it exactly when the call says so. */
  lemma IovecFlat(l: seq<Chunk>, n: nat)
    requires n <= |Flat(Iovec(l))|
    ensures n <= |Flat(l)| && Flat(Iovec(l))[..n] == Flat(l)[..n]
    ensures n == |Flat(l)| <==> n == |Flat(Iovec(l))| && |l| <= MAX_IOVEC
  {
    if |l| > MAX_IOVEC {
      assert l == l[..MAX_IOVEC] + l[MAX_IOVEC..];
      FlatConcat(l[..MAX_IOVEC], l[MAX_IOVEC..]);
      FlatPositive(l[MAX_IOVEC..]);
    }
  }

  lemma WriteCalledBytes(st: State, w: nat, out: WriteOutcome)
    requires Inv(st) && CanWriteCall(st, w, out)
    ensures SendOk(DoWriteCall(st, w, out)) && FlushOk(DoWriteCall(st, w, out))
  {
    var st' := DoWriteCall(st, w, out);
    assert st'.active == [st'.active[0]];
    if out.Wrote? {
      var d := Flat(st.s.Other());
      IovecFlat(st.s.Other(), out.n);
      assert d == d[..out.n] + d[out.n..];
      assert st'.s.Queue() == st.s.Queue();
      if !out.all {
        assert Unsent(st') == d[out.n..] + Flat(st.s.Queue());
      }
    }
  }

  lemma SendEndedControl(st: State, w: nat)
    requires Control(st) && CanSendEnd(st, w)
    ensures Control(DoSendEnd(st, w))
  {
    assert Remove(st.active, w) == [];
  }

  lemma WroteSomeEnded(st: State, w: nat)
    requires Inv(st) && CanSendEnd(st, w) && st.active[w].out.Wrote?
    ensures SendOk(DoSendEnd(st, w)) && FlushOk(DoSendEnd(st, w))
  {
    var st' := DoSendEnd(st, w);
    assert Remove(st.active, w) == [];
    var d, q, n := st.s.Other(), st.s.Queue(), st.active[w].out.n;
    if !st.active[w].out.all {
      AdvanceFlat(d, n);
      FlatConcat(Advance(d, n), q);
      assert st'.s.Other() == [] && st'.s.Queue() == Advance(d, n) + q;
    }
    assert Unsent(st') == Flat(st'.s.Queue());
  }

  lemma WriteAgainEnded(st: State, w: nat)
    requires Inv(st) && CanSendEnd(st, w) && st.active[w].out.WriteAgain?
    ensures SendOk(DoSendEnd(st, w)) && FlushOk(DoSendEnd(st, w))
  {
    var st' := DoSendEnd(st, w);
    assert Remove(st.active, w) == [];
    var d, q := st.s.Other(), st.s.Queue();
    FlatConcat(d, q);
    assert st'.s.Other() == [] && st'.s.Queue() == d + q;
    assert Unsent(st') == Flat(st'.s.Queue()) == Unsent(st);
  }

  lemma WriteFailedEnded(st: State, w: nat)
    requires Inv(st) && CanSendEnd(st, w) && st.active[w].out.WriteFailed?
    ensures SendOk(DoSendEnd(st, w)) && FlushOk(DoSendEnd(st, w))
  {
    assert Remove(st.active, w) == [];
  }

  /** Splicing the rest back in front of what was queued meanwhile keeps the order. */
  lemma SendEnded(st: State, w: nat)
    requires Inv(st) && CanSendEnd(st, w)
    ensures Inv(DoSendEnd(st, w))
  {
    SendEndedControl(st, w);
    match st.active[w].out
    case Wrote(_, _) => WroteSomeEnded(st, w);
    case WriteAgain => WriteAgainEnded(st, w);
    case WriteFailed => WriteFailedEnded(st, w);
  }

  lemma ActivatedControl(st: State)
    requires Control(st) && Enabled(st, OnActive)
    ensures Control(DoOnActive(st))
  {
  }

  lemma Activated(st: State)
    requires Inv(st) && Enabled(st, OnActive)
    ensures Inv(DoOnActive(st))
  {
    ActivatedControl(st);
    Appended(st, DoOnActive(st), []);
  }

  lemma UserStepKept(st: State, step: Step)
    requires Inv(st) && Enabled(st, step)
    requires step.UserShutdown? || step.UserCallbacks? || step.Post? || step.StartTask?
    ensures Inv(Next(st, step))
  {
  }

  lemma KernelStepKept(st: State, step: Step)
    requires Inv(st) && Enabled(st, step)
    requires step.Fetch? || step.Disable? || step.DataArrives? || step.SpuriousEdge?
    ensures Inv(Next(st, step))
  {
  }

  lemma StepKept(st: State, step: Step)
    requires Inv(st) && Enabled(st, step)
    ensures Inv(Next(st, step))
  {
    match step
    case UserSend(data, c) => Sent(st, data, c);
    case UserRecv(buf) => Received(st, buf);
    case UserShutdown => UserStepKept(st, step);
    case UserClose => Closed(st);
    case UserCallbacks(_, _, _, _) => UserStepKept(st, step);
    case UserStart => Started(st);
    case Post => UserStepKept(st, step);
    case StartTask => UserStepKept(st, step);
    case Check(i) =>
      CheckedControl(st, i);
      CheckedBytes(st, i);
    case Finish => Finished(st);
    case RecvBegin(w) => RecvBegun(st, w);
    case ReadCall(w, got) => ReadCalled(st, w, got);
    case RecvEnd(w) => RecvEnded(st, w);
    case RecvError(w) => RecvErrored(st, w);
    case SendBegin(w) =>
      SendBegunControl(st, w);
      SendBegunBytes(st, w);
    case WriteCall(w, out) =>
      WriteCalledControl(st, w, out);
      WriteCalledBytes(st, w, out);
    case SendEnd(w) => SendEnded(st, w);
    case AfterSend(w) => AfterSent(st, w);
    case Fetch(_) => KernelStepKept(st, step);
    case Disable => KernelStepKept(st, step);
    case OnActive => Activated(st);
    case DataArrives(_) => KernelStepKept(st, step);
    case SpuriousEdge => KernelStepKept(st, step);
  }

  lemma {:induction false} RunKept(st: State, steps: seq<Step>)
    requires Inv(st) && CanRun(st, steps)
    ensures Inv(Run(st, steps))
    decreases |steps|
  {
    if steps != [] {
      StepKept(st, steps[0]);
      RunKept(Next(st, steps[0]), steps[1..]);
    }
  }

  // ----- Main results, for every run from an initial state -----

  /**
   * The kernel always holds a prefix of the accepted bytes.  While the socket is
   * open and free of errors, what it lacks is exactly the detached list behind the
   * written part followed by the queue, and bytes4Send counts it, up to what the
   * worker has written and not yet accounted for.
   */
  lemma SentInOrder(st0: State, steps: seq<Step>)
    requires Init(st0) && CanRun(st0, steps)
    ensures var st := Run(st0, steps);
            && st.k.written <= st.accepted
            && (!st.s.closed && !st.s.r.socketError ==>
                  && st.k.written + (if WroteAll(st) then Flat(st.s.Queue()) else Unsent(st)) == st.accepted
                  && st.s.bytes4Send == |st.accepted| - |st.k.written| + InFlight(st))
  {
    RunKept(st0, steps);
  }

  /**
   * At most one task is past the check at the top of Do, even while the socket
   * closes, and doClose never runs beside it.  While the socket is open there is
   * exactly one task if doing is set and none otherwise.
   */
  lemma OneTask(st0: State, steps: seq<Step>)
    requires Init(st0) && CanRun(st0, steps)
    ensures var st := Run(st0, steps);
            && |st.active| <= 1
            && (st.closing > 0 ==> st.active == [])
            && (!st.s.closed ==>
                  st.owed + st.queued + |st.tops| + |st.active| == if st.s.doing then 1 else 0)
  {
    RunKept(st0, steps);
  }

  /**
   * An open socket without a task can neither read nor write.  If it has a
   * receive buffer and the kernel has bytes for it, an edge or an event on its
   * way will say so; if it has bytes to send, write interest is armed or a write
   * event is being delivered.  And in every state a registered open socket is
   * writeable, or will hear of it when it is.
   */
  lemma NoLostWakeup(st0: State, steps: seq<Step>)
    requires Init(st0) && CanRun(st0, steps)
    ensures var st := Run(st0, steps);
            !st.s.closed && !st.s.doing ==>
              && !st.s.CanRead() && !st.s.CanWrite()
              && (st.k.registered && st.s.recvList != [] && st.k.unread > 0 ==> ReadEventComing(st))
              && (st.k.registered && !st.s.shutdown && st.s.Queue() != [] ==>
                    st.k.writeArmed || (st.poller.Disabled? && st.poller.ev.write))
    ensures var st := Run(st0, steps);
            st.k.registered && !st.s.closed ==> st.s.r.writeable || WriteEventComing(st)
  {
    RunKept(st0, steps);
  }

  lemma FlushChosen(st: State, w: nat)
    requires Inv(st) && CanSendEnd(st, w) && st.active[w].out.Wrote?
    ensures var st' := DoSendEnd(st, w);
            w < |st'.active| && st'.active[w].Flushing? ==> st'.k.written == st'.accepted
  {
    var st' := DoSendEnd(st, w);
    WroteSomeEnded(st, w);
    assert st'.s.Queue() == [] && !Detached(st') ==> Unsent(st') == [];
  }

  /** The flush callback, and the close that follows it, are chosen only when everything accepted has been written. */
  lemma FlushMeansWritten(st0: State, steps: seq<Step>, w: nat)
    requires Init(st0) && CanRun(st0, steps)
    ensures var st := Run(st0, steps);
            && (CanSendEnd(st, w) ==>
                  var st' := DoSendEnd(st, w);
                  w < |st'.active| && st'.active[w].Flushing? ==> st'.k.written == st'.accepted)
            && (w < |st.active| && st.active[w].Flushing? && st.active[w].close ==> st.k.written == st.accepted)
  {
    RunKept(st0, steps);
    var st := Run(st0, steps);
    if CanSendEnd(st, w) && st.active[w].out.Wrote? {
      FlushChosen(st, w);
    }
  }

  /**
   * The worker hands writev a non-empty vector of up to 128 entries, and afterwards its counter and list hold
   * what it takes off.
   */
  lemma WorkerNeverStuck(st0: State, steps: seq<Step>, w: nat)
    requires Init(st0) && CanRun(st0, steps)
    requires w < |Run(st0, steps).active|
    ensures var st := Run(st0, steps);
            && (st.active[w].Sending? ==>
                  && Flat(Iovec(st.s.Other())) != []
                  && |Iovec(st.s.Other())| == if |st.s.Other()| < 128 then |st.s.Other()| else 128)
            && (st.active[w].Written? ==> CanSendEnd(st, w))
  {
    RunKept(st0, steps);
    var st := Run(st0, steps);
    if st.active[w].Sending? {
      FlatPositive(Iovec(st.s.Other()));
    }
  }
}
