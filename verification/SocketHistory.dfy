/**
 * What a whole run of the TCPSocket protocol makes of the calls in it: which sends
 * are accepted, when a flush closes the socket, who is told of a close, and in which
 * order receive buffers are filled.  All of it is said in terms of the steps taken.
 */
module SocketHistory {
  import opened Bytes
  import opened SocketModel
  import opened SocketProofs

  // ----- Runs -----

  lemma {:induction false} RunConcat(st: State, a: seq<Step>, b: seq<Step>)
    ensures CanRun(st, a + b) <==> CanRun(st, a) && CanRun(Run(st, a), b)
    ensures CanRun(st, a + b) ==> Run(st, a + b) == Run(Run(st, a), b)
    decreases |a|
  {
    hide Enabled, Next;
    if a == [] {
      assert a + b == b;
    } else {
      assert (a + b)[1..] == a[1..] + b;
      if Enabled(st, a[0]) {
        RunConcat(Next(st, a[0]), a[1..], b);
      }
    }
  }

  /** The last step of a run. */
  lemma RunLast(st: State, steps: seq<Step>)
    requires CanRun(st, steps) && steps != []
    ensures var k := |steps| - 1;
            && CanRun(st, steps[..k]) && Enabled(Run(st, steps[..k]), steps[k])
            && Run(st, steps) == Next(Run(st, steps[..k]), steps[k])
  {
    hide Enabled, Next;
    var k := |steps| - 1;
    assert steps == steps[..k] + [steps[k]];
    RunConcat(st, steps[..k], [steps[k]]);
    var st1 := Run(st, steps[..k]);
    assert [steps[k]][1..] == [];
    assert Run(st1, [steps[k]]) == Run(Next(st1, steps[k]), []);
  }

  lemma ReachedKept(st0: State, steps: seq<Step>)
    requires Init(st0) && CanRun(st0, steps)
    ensures Inv(Run(st0, steps))
  {
    RunKept(st0, steps);
  }

  // ----- What the critical sections of a worker leave alone -----

  lemma BackKeeps(st: State, w: nat)
    requires w < |st.active|
    ensures var st' := BackToTop(st, w);
            && st'.s == st.s && st'.accepted == st.accepted
            && st'.active == Remove(st.active, w) && st'.poller == st.poller
  {
    hide Remove;
  }

  /** What sendInWorker changes after writev: no receive buffer, and nothing that refuses sends. */
  lemma SentKeeps(s: Sock, i: nat, ver: nat, out: WriteOutcome)
    requires out.Wrote? ==> out.n <= s.bytes4Send && (out.all || out.n < |Flat(s.Other())|)
    ensures var (t, next) := LockedSent(s, i, ver, out);
            && t.recvList == s.recvList && t.closed == s.closed && t.shutdown == s.shutdown
            && t.closedOnFlush == s.closedOnFlush
            && (if out.WriteFailed? then t.r.socketError || s.closed else t.r.socketError == s.r.socketError)
            && (s.r.socketError ==> t.r.socketError)
            && (next.Some? ==>
                  match next.value
                  case Flushing(_, close) => close == s.closedOnFlush && out.Wrote?
                  case Enabling(_) => out.WriteAgain?
                  case SendFailed(_, callback) => callback == s.cfg.errorCb && out.WriteFailed?
                  case _ => false)
  {
    hide Flat, Advance;
  }

  // ----- Which sends are accepted -----

  /** Nothing is accepted after such a step. */
  predicate Ends(x: Step) {
    x.UserShutdown? || (x.UserSend? && x.closeOnFlush)
  }

  predicate Ended(steps: seq<Step>) {
    exists x <- steps :: Ends(x)
  }

  lemma EndedLast(steps: seq<Step>)
    requires steps != []
    ensures Ended(steps) <==> Ended(steps[..|steps| - 1]) || Ends(steps[|steps| - 1])
  {
    hide Ends;
    var k := |steps| - 1;
    assert forall x :: x in steps <==> x in steps[..k] || x == steps[k];
  }

  /** The data accepted in a run, by the steps before each send and whether the socket was closed then. */
  function Taken(st: State, steps: seq<Step>): bytes
    requires CanRun(st, steps)
  {
    if steps == [] then []
    else
      var k := |steps| - 1;
      RunLast(st, steps);
      Taken(st, steps[..k])
      + if steps[k].UserSend? && !Ended(steps[..k]) && !Run(st, steps[..k]).s.closed then steps[k].data else []
  }

  /** Some send asked for a close, and was accepted. */
  predicate CloseAsked(st: State, steps: seq<Step>)
    requires CanRun(st, steps)
  {
    steps != []
    && var k := |steps| - 1;
       RunLast(st, steps);
       || CloseAsked(st, steps[..k])
       || (steps[k].UserSend? && steps[k].closeOnFlush && !Ended(steps[..k]) && !Run(st, steps[..k]).s.closed)
  }

  predicate RecvStep(x: Step) {
    x.RecvBegin? || x.ReadCall? || x.RecvEnd? || x.RecvError?
  }

  predicate SendStep(x: Step) {
    x.SendBegin? || x.WriteCall? || x.SendEnd? || x.AfterSend?
  }

  /** What one step does to the fields by which sends are refused, and to what was accepted. */
  predicate Refusing(st: State, x: Step, st': State) {
    var taken := x.UserSend? && !st.s.closed && !st.s.shutdown && !st.s.closedOnFlush;
    && (st.s.closed ==> st'.s.closed)
    && (st'.s.closed ==> st.s.closed || x.UserClose? || x.RecvError? || x.AfterSend?)
    && st'.s.shutdown == (st.s.shutdown || (x.UserShutdown? && !st.s.closed))
    && st'.s.closedOnFlush == (st.s.closedOnFlush || (taken && x.closeOnFlush))
    && st'.accepted == st.accepted + if taken then x.data else []
  }

  lemma RecvRefuses(st: State, w: nat, got: ReadOutcome)
    requires w < |st.active|
    ensures st.active[w].Receiving? ==> Refusing(st, RecvBegin(w), DoRecvBegin(st, w))
    ensures CanReadCall(st, w, got) ==> Refusing(st, ReadCall(w, got), DoReadCall(st, w, got))
  {
    assert st.accepted + [] == st.accepted;
  }

  lemma RecvEndRefuses(st: State, w: nat)
    requires w < |st.active| && st.active[w].ReadDone?
    ensures Refusing(st, RecvEnd(w), DoRecvEnd(st, w))
  {
    assert st.accepted + [] == st.accepted;
    var pc := st.active[w];
    if pc.got.Got? {
      LeftRecv(st, w);
    } else if pc.got.ReadAgain? {
      var t := st.s.(recvList := [pc.buf] + st.s.recvList);
      LeftRecv(st.(s := if pc.ver == t.r.readableVer then t.(r := t.r.(readable := false)) else t), w);
    }
    hide AfterRecv;
  }

  lemma LeftRecv(st: State, w: nat)
    requires w < |st.active|
    requires st.active[w].Receiving? || st.active[w].ReadDone? || st.active[w].RecvFailed?
    ensures AfterRecv(st, w).s == st.s && AfterRecv(st, w).accepted == st.accepted
  {
    hide Remove;
  }

  lemma RecvErrorRefuses(st: State, w: nat)
    requires w < |st.active| && st.active[w].RecvFailed?
    ensures Refusing(st, RecvError(w), DoRecvError(st, w))
  {
    assert st.accepted + [] == st.accepted;
    hide Remove;
  }

  lemma SendRefuses(st: State, w: nat, out: WriteOutcome)
    requires w < |st.active|
    ensures st.active[w].SendReady? ==> Refusing(st, SendBegin(w), DoSendBegin(st, w))
    ensures CanWriteCall(st, w, out) ==> Refusing(st, WriteCall(w, out), DoWriteCall(st, w, out))
  {
    assert st.accepted + [] == st.accepted;
    hide Flat;
  }

  lemma SendEndRefuses(st: State, w: nat)
    requires CanSendEnd(st, w)
    ensures Refusing(st, SendEnd(w), DoSendEnd(st, w))
  {
    assert st.accepted + [] == st.accepted;
    SentEndKeeps(st, w);
    hide DoSendEnd;
  }

  /** The same for the whole step. */
  lemma SentEndKeeps(st: State, w: nat)
    requires CanSendEnd(st, w)
    ensures var st' := DoSendEnd(st, w);
            && st'.accepted == st.accepted && st'.poller == st.poller && st'.s.recvList == st.s.recvList
            && st'.s.closed == st.s.closed && st'.s.shutdown == st.s.shutdown
            && st'.s.closedOnFlush == st.s.closedOnFlush && (st.s.r.socketError ==> st'.s.r.socketError)
            && (!st.active[w].out.WriteFailed? ==> st'.s.r.socketError == st.s.r.socketError)
  {
    var pc := st.active[w];
    SentKeeps(st.s, pc.i, pc.ver, pc.out);
    var (t, next) := LockedSent(st.s, pc.i, pc.ver, pc.out);
    BackKeeps(st.(s := t, lost := st.lost || pc.out.WriteFailed?), w);
    hide LockedSent, BackToTop, Flat;
  }

  /** Where the worker goes. */
  lemma SentEndGoes(st: State, w: nat) returns (next: Option<Pc>)
    requires CanSendEnd(st, w)
    ensures var pc, active := st.active[w], DoSendEnd(st, w).active;
            && active == (if next.Some? then st.active[w := next.value] else Remove(st.active, w))
            && (next.Some? ==>
                  match next.value
                  case Flushing(_, close) => close == st.s.closedOnFlush && pc.out.Wrote?
                  case Enabling(_) => pc.out.WriteAgain?
                  case SendFailed(_, callback) => callback == st.s.cfg.errorCb && pc.out.WriteFailed?
                  case _ => false)
  {
    var pc := st.active[w];
    SentKeeps(st.s, pc.i, pc.ver, pc.out);
    next := LockedSent(st.s, pc.i, pc.ver, pc.out).1;
    BackKeeps(st.(s := LockedSent(st.s, pc.i, pc.ver, pc.out).0, lost := st.lost || pc.out.WriteFailed?), w);
    hide LockedSent, BackToTop, Flat, Remove;
  }

  lemma AfterSendRefuses(st: State, w: nat)
    requires CanAfterSend(st, w)
    ensures Refusing(st, AfterSend(w), DoAfterSend(st, w))
  {
    assert st.accepted + [] == st.accepted;
    hide Remove;
  }

  lemma OtherRefuses(st: State, x: Step)
    requires Enabled(st, x) && !RecvStep(x) && !SendStep(x)
    ensures Refusing(st, x, Next(st, x))
  {
    assert st.accepted + [] == st.accepted;
  }

  lemma StepRefuses(st: State, x: Step)
    requires Enabled(st, x)
    ensures Refusing(st, x, Next(st, x))
  {
    hide Refusing, Flat, Remove;
    match x
    case RecvBegin(w) => RecvRefuses(st, w, ReadAgain);
    case ReadCall(w, got) => RecvRefuses(st, w, got);
    case RecvEnd(w) => RecvEndRefuses(st, w);
    case RecvError(w) => RecvErrorRefuses(st, w);
    case SendBegin(w) => SendRefuses(st, w, WriteAgain);
    case WriteCall(w, out) => SendRefuses(st, w, out);
    case SendEnd(w) => SendEndRefuses(st, w);
    case AfterSend(w) => AfterSendRefuses(st, w);
    case _ => OtherRefuses(st, x);
  }

  /**
   * A send is refused exactly if there was a shutdown or a send with close-on-flush
   * before it, or the socket is closed; all other data is accepted, in order.
   */
  lemma {:induction false} AcceptedExactly(st0: State, steps: seq<Step>)
    requires Init(st0) && CanRun(st0, steps)
    ensures var st := Run(st0, steps);
            && st.accepted == Taken(st0, steps)
            && (Refuses(st.s) <==> Ended(steps) || st.s.closed)
            && (st.s.closedOnFlush <==> CloseAsked(st0, steps))
    decreases |steps|
  {
    hide Init, Next, Enabled, Ended, Ends;
    if steps == [] {
      InitRefuses(st0);
    } else {
      var k := |steps| - 1;
      RunLast(st0, steps);
      AcceptedExactly(st0, steps[..k]);
      StepRefuses(Run(st0, steps[..k]), steps[k]);
      EndedLast(steps);
      EndsIs(steps[k]);
    }
  }

  lemma EndsIs(x: Step)
    ensures Ends(x) <==> x.UserShutdown? || (x.UserSend? && x.closeOnFlush)
  {
  }

  lemma InitRefuses(st: State)
    requires Init(st)
    ensures !Refuses(st.s) && st.accepted == [] && !st.s.closed && !st.s.closedOnFlush && !Ended([])
  {
  }

  /** After a shutdown, a send with close-on-flush, or a close, nothing more is ever accepted. */
  lemma {:induction false} NothingAfter(st0: State, steps: seq<Step>, more: seq<Step>)
    requires Init(st0) && CanRun(st0, steps + more)
    ensures CanRun(st0, steps)
    ensures Ended(steps) || Run(st0, steps).s.closed ==>
              Run(st0, steps + more).accepted == Run(st0, steps).accepted
    decreases |more|
  {
    hide Init, Next, Enabled, Ended;
    RunConcat(st0, steps, more);
    if more == [] {
      assert steps + more == steps;
    } else if Ended(steps) || Run(st0, steps).s.closed {
      var k := |more| - 1;
      var all := steps + more;
      assert all[..|all| - 1] == steps + more[..k] && all[|all| - 1] == more[k];
      RunLast(st0, all);
      NothingAfter(st0, steps, more[..k]);
      var st := Run(st0, steps + more[..k]);
      AcceptedExactly(st0, steps + more[..k]);
      EndedStays(steps, more[..k]);
      if Run(st0, steps).s.closed {
        RunConcat(st0, steps, more[..k]);
        ClosedStays(Run(st0, steps), more[..k]);
      }
      StepRefuses(st, more[k]);
      assert st.accepted + [] == st.accepted;
    }
  }

  lemma EndedStays(a: seq<Step>, b: seq<Step>)
    ensures Ended(a) ==> Ended(a + b)
  {
    hide Ends;
    assert forall x :: x in a ==> x in a + b;
  }

  lemma {:induction false} ClosedStays(st: State, steps: seq<Step>)
    requires CanRun(st, steps) && st.s.closed
    ensures Run(st, steps).s.closed
    decreases |steps|
  {
    hide Next, Enabled;
    if steps != [] {
      StepRefuses(st, steps[0]);
      ClosedStays(Next(st, steps[0]), steps[1..]);
    }
  }

  // ----- Runs in which nothing goes wrong -----

  /** The data of all sends. */
  function Sends(steps: seq<Step>): bytes {
    if steps == [] then []
    else
      var x := steps[|steps| - 1];
      Sends(steps[..|steps| - 1]) + if x.UserSend? then x.data else []
  }

  /** A close, or an error that the system reports. */
  predicate Trouble(x: Step) {
    || x.UserClose?
    || (x.ReadCall? && x.got.ReadFailed?)
    || (x.WriteCall? && x.out.WriteFailed?)
    || (x.Fetch? && x.ev.error)
  }

  /** Where a worker or the poller does not carry an error or a close. */
  predicate PcFine(pc: Pc) {
    match pc
    case ReadDone(_, _, _, _, got) => !got.ReadFailed?
    case RecvFailed(_, _, _) => false
    case Written(_, _, out) => !out.WriteFailed?
    case Flushing(_, close) => !close
    case SendFailed(_, _) => false
    case _ => true
  }

  predicate AllFine(active: seq<Pc>) {
    forall pc <- active :: PcFine(pc)
  }

  predicate Fine(st: State) {
    && !st.s.closed && !st.s.shutdown && !st.s.closedOnFlush && !st.s.r.socketError
    && AllFine(st.active) && (!st.poller.Polling? ==> !st.poller.ev.error)
  }

  lemma FineSet(active: seq<Pc>, w: nat, pc: Pc)
    requires AllFine(active) && w < |active|
    ensures PcFine(active[w]) && AllFine(Remove(active, w))
    ensures PcFine(pc) ==> AllFine(active[w := pc]) && AllFine(active + [pc])
  {
    hide PcFine;
    assert active[w] in active;
  }

  lemma FineAdd(active: seq<Pc>, pc: Pc)
    requires AllFine(active) && PcFine(pc)
    ensures AllFine(active + [pc])
  {
    hide PcFine;
  }

  lemma FineRecv(st: State, x: Step)
    requires Fine(st) && Enabled(st, x) && !Trouble(x)
    requires RecvStep(x)
    ensures Fine(Next(st, x))
  {
    var pc := st.active[x.w];
    FineSet(st.active, x.w, SendReady(pc.i));
    match x
    case RecvBegin(w) =>
      if st.s.CanRead() {
        FineSet(st.active, w, Reading(pc.i, pc.write, st.s.recvList[0], st.s.r.readableVer));
      }
    case ReadCall(w, got) => FineSet(st.active, w, ReadDone(pc.i, pc.write, pc.buf, pc.ver, got));
    case _ =>
    hide AllFine;
  }

  lemma FineSend(st: State, x: Step)
    requires Fine(st) && Enabled(st, x) && !Trouble(x) && (x.SendBegin? || x.WriteCall?)
    ensures Fine(Next(st, x))
  {
    var pc := st.active[x.w];
    match x
    case SendBegin(w) =>
      FineSet(st.active, w, Choked(pc.i));
      FineSet(st.active, w, Sending(pc.i, st.s.r.writeableVer));
    case WriteCall(w, out) => FineSet(st.active, w, Written(pc.i, pc.ver, out));
    hide AllFine, Advance, Flat;
  }

  lemma FineSent(st: State, w: nat)
    requires Fine(st) && CanSendEnd(st, w)
    ensures Fine(DoSendEnd(st, w))
  {
    var pc, st' := st.active[w], DoSendEnd(st, w);
    SentEndKeeps(st, w);
    var next := SentEndGoes(st, w);
    FineSet(st.active, w, if next.Some? then next.value else pc);
    hide AllFine, DoSendEnd, Remove;
  }

  lemma FineAfter(st: State, w: nat)
    requires Fine(st) && CanAfterSend(st, w)
    ensures Fine(DoAfterSend(st, w))
  {
    FineSet(st.active, w, st.active[w]);
    hide AllFine, Remove;
  }

  lemma FineStep(st: State, x: Step)
    requires Fine(st) && Enabled(st, x) && !Trouble(x) && !Ends(x)
    ensures Fine(Next(st, x))
  {
    if RecvStep(x) {
      FineRecv(st, x);
    } else if SendStep(x) {
      if x.SendBegin? || x.WriteCall? {
        FineSend(st, x);
      } else if x.SendEnd? {
        FineSent(st, x.w);
      } else {
        FineAfter(st, x.w);
      }
    } else {
      FineOther(st, x);
    }
  }

  lemma FineOther(st: State, x: Step)
    requires Fine(st) && Enabled(st, x) && !Trouble(x) && !Ends(x)
    requires !RecvStep(x) && !SendStep(x)
    ensures Fine(Next(st, x))
  {
    if x.Check? {
      FineAdd(st.active, Receiving(x.i, st.s.CanWrite()));
      FineAdd(st.active, SendReady(x.i));
    }
    hide AllFine;
  }

  /**
   * Without a shutdown, and without a send that asks for a close, all data sent is
   * accepted while the socket is open; and without a close or an error it stays open.
   */
  lemma {:induction false} NothingRefused(st0: State, steps: seq<Step>)
    requires Init(st0) && CanRun(st0, steps) && !Ended(steps)
    ensures var st := Run(st0, steps);
            && (!st.s.closed ==> st.accepted == Sends(steps))
            && ((forall x <- steps :: !Trouble(x)) ==> Fine(st))
    decreases |steps|
  {
    hide Init, Next, Enabled, Ended, Ends, Trouble, Fine;
    if steps == [] {
      InitRefuses(st0);
      InitFine(st0);
    } else {
      var k := |steps| - 1;
      RunLast(st0, steps);
      EndedLast(steps);
      NothingRefused(st0, steps[..k]);
      var st := Run(st0, steps[..k]);
      AcceptedExactly(st0, steps[..k]);
      StepRefuses(st, steps[k]);
      assert forall x :: x in steps[..k] ==> x in steps;
      assert steps[k] in steps;
      if forall x <- steps :: !Trouble(x) {
        FineStep(st, steps[k]);
      }
    }
  }

  lemma InitFine(st: State)
    requires Init(st)
    ensures Fine(st)
  {
  }

  // ----- The flush -----

  /**
   * When the worker accounts for what it wrote, it goes on to the flush exactly if
   * everything accepted is now written and the callback is set; and it will close
   * the socket exactly if an accepted send has asked for it.
   */
  lemma FlushExactly(st0: State, steps: seq<Step>, w: nat)
    requires Init(st0) && CanRun(st0, steps)
    requires CanSendEnd(Run(st0, steps), w) && Run(st0, steps).active[w].out.Wrote?
    ensures var st := Run(st0, steps);
            var st' := DoSendEnd(st, w);
            && ((w < |st'.active| && st'.active[w].Flushing?) <==>
                  st'.k.written == st'.accepted && st.s.cfg.flushCb)
            && (w < |st'.active| && st'.active[w].Flushing? ==> st'.active[w].close == CloseAsked(st0, steps))
  {
    hide Init, Next, Enabled, Ended;
    ReachedKept(st0, steps);
    AcceptedExactly(st0, steps);
    var st := Run(st0, steps);
    WrittenEmpties(st, w);
    hide Inv;
  }

  lemma WrittenEmpties(st: State, w: nat)
    requires Inv(st) && CanSendEnd(st, w) && st.active[w].out.Wrote?
    ensures var st' := DoSendEnd(st, w);
            st'.s.Queue() == [] <==> st'.k.written == st'.accepted
    ensures w == 0 && |st.active| == 1
  {
    var st' := DoSendEnd(st, w);
    WroteSomeEnded(st, w);
    assert Unsent(st') == Flat(st'.s.Queue());
    if st'.s.Queue() != [] {
      FlatPositive(st'.s.Queue());
    } else {
      assert st'.k.written + [] == st'.k.written;
    }
  }

  lemma NoTask(st: State)
    requires Inv(st) && st.active != []
    ensures forall i :: i !in st.tops
  {
    assert |st.tops| == 0;
  }

  /** A worker on its way to the flush callback stays there, whatever the others do. */
  lemma {:induction false} FlushWaits(st: State, steps: seq<Step>)
    requires Inv(st) && |st.active| == 1 && st.active[0].Flushing? && CanRun(st, steps)
    requires forall x <- steps :: !x.AfterSend?
    ensures Run(st, steps).active == st.active && Inv(Run(st, steps))
    decreases |steps|
  {
    hide Inv, Next, Enabled;
    if steps != [] {
      assert steps[0] in steps;
      StepKept(st, steps[0]);
      FlushStep(st, steps[0]);
      FlushWaits(Next(st, steps[0]), steps[1..]);
    }
  }

  lemma FlushStep(st: State, x: Step)
    requires Inv(st) && |st.active| == 1 && st.active[0].Flushing? && Enabled(st, x) && !x.AfterSend?
    ensures Next(st, x).active == st.active
  {
    NoTask(st);
  }

  /**
   * Once everything accepted is written and a close has been asked for, the worker's
   * next step closes the socket, whatever the others do in between; and without such
   * a send it does not.
   */
  lemma FlushCloses(st0: State, steps: seq<Step>, w: nat, more: seq<Step>)
    requires Init(st0) && CanRun(st0, steps)
    requires CanSendEnd(Run(st0, steps), w) && Run(st0, steps).active[w].out.Wrote? && Run(st0, steps).s.cfg.flushCb
    requires DoSendEnd(Run(st0, steps), w).k.written == Run(st0, steps).accepted
    requires CanRun(DoSendEnd(Run(st0, steps), w), more) && forall x <- more :: !x.AfterSend?
    ensures var st := Run(DoSendEnd(Run(st0, steps), w), more);
            && CanAfterSend(st, 0)
            && DoAfterSend(st, 0).s.closed == (st.s.closed || CloseAsked(st0, steps))
  {
    hide Init, Inv, Next, Enabled;
    ReachedKept(st0, steps);
    FlushExactly(st0, steps, w);
    var st1 := DoSendEnd(Run(st0, steps), w);
    SendEnded(Run(st0, steps), w);
    KeptAccepted(Run(st0, steps), w);
    FlushWaits(st1, more);
    ClosesIf(Run(st1, more));
  }

  lemma KeptAccepted(st: State, w: nat)
    requires CanSendEnd(st, w) && Inv(st)
    ensures DoSendEnd(st, w).accepted == st.accepted && w == 0 && |st.active| == 1
    ensures DoSendEnd(st, w).active != [] ==> |DoSendEnd(st, w).active| == 1
  {
  }

  lemma ClosesIf(st: State)
    requires |st.active| == 1 && st.active[0].Flushing?
    ensures CanAfterSend(st, 0) && DoAfterSend(st, 0).s.closed == (st.s.closed || st.active[0].close)
  {
  }

  // ----- Who is told of a close -----

  lemma ClosedByUser(st: State)
    requires Inv(st) && !st.s.closed
    ensures var st' := CloseSocket(st);
            !st'.k.registered && Waiting(st') + |st'.active| == if st.s.doing || st.s.cfg.closeCb then 1 else 0
  {
  }

  lemma WorkerGoesBack(st: State, w: nat)
    requires w < |st.active| && |st.active| == 1
    ensures var st' := BackToTop(st, w);
            Waiting(st') + |st'.active| == Waiting(st) + |st.active| && st'.s == st.s && st'.k == st.k
  {
    assert Remove(st.active, w) == [];
  }

  lemma ClosedByWorker(st: State, x: Step)
    requires Inv(st) && !st.s.closed && Enabled(st, x) && (x.RecvError? || x.AfterSend?)
    requires Next(st, x).s.closed
    ensures var st' := Next(st, x);
            !st'.k.registered && Waiting(st') + |st'.active| == if st.s.doing || st.s.cfg.closeCb then 1 else 0
  {
    hide BackToTop, Waiting, Flat;
    ClosedByUser(st);
    ClosedKeeps(st);
    WorkerGoesBack(CloseSocket(st), x.w);
    WorkerGoesBack(st, x.w);
    if x.AfterSend? && st.active[x.w].Enabling? {
      WorkerGoesBack(if st.k.registered then st.(k := st.k.(writeArmed := true)) else st, x.w);
    }
    if x.RecvError? && st.active[x.w].write {
      SameCount(CloseSocket(st), SendReady(st.active[x.w].i));
    }
  }

  lemma ClosedKeeps(st: State)
    requires Inv(st)
    ensures CloseSocket(st).active == st.active && |st.active| <= 1
  {
  }

  lemma SameCount(st: State, pc: Pc)
    requires |st.active| == 1
    ensures Waiting(st.(active := st.active[0 := pc])) == Waiting(st)
  {
  }

  /**
   * A step that closes the socket leaves a task that comes to see it, unless none
   * runs and there is no close callback; and a task that sees it goes on to doClose.
   */
  lemma CloseIsSeen(st0: State, steps: seq<Step>, x: Step)
    requires Init(st0) && CanRun(st0, steps) && Enabled(Run(st0, steps), x)
    requires !Run(st0, steps).s.closed && Next(Run(st0, steps), x).s.closed
    ensures var st, st' := Run(st0, steps), Next(Run(st0, steps), x);
            Waiting(st') + |st'.active| == if st.s.doing || st.s.cfg.closeCb then 1 else 0
    ensures var st' := Next(Run(st0, steps), x);
            !st'.k.registered && forall i :: i in st'.tops ==> DoCheck(st', i).closing == st'.closing + 1
  {
    hide Init, Inv, Waiting;
    ReachedKept(st0, steps);
    var st := Run(st0, steps);
    StepRefuses(st, x);
    if x.RecvError? || x.AfterSend? {
      ClosedByWorker(st, x);
    } else {
      ClosedByUser(st);
    }
    hide Next;
  }

  // ----- Receive buffers -----

  /** The buffers that a run hands over: those of receives on an open socket that has a callback for them. */
  function Offered(st: State, steps: seq<Step>): seq<nat>
    requires CanRun(st, steps)
  {
    if steps == [] then []
    else
      var k := |steps| - 1;
      RunLast(st, steps);
      var before := Run(st, steps[..k]).s;
      Offered(st, steps[..k])
      + if steps[k].UserRecv? && !before.closed && before.cfg.recvCb then [steps[k].buf] else []
  }

  /** The buffers into which bytes are read. */
  function Filled(st: State, steps: seq<Step>): seq<nat>
    requires CanRun(st, steps)
  {
    if steps == [] then []
    else
      var k := |steps| - 1;
      RunLast(st, steps);
      Filled(st, steps[..k])
      + if steps[k].ReadCall? && steps[k].got.Got? then [Run(st, steps[..k]).active[steps[k].w].buf] else []
  }

  /** The buffer that a worker has taken and not filled. */
  function InHand(active: seq<Pc>): seq<nat> {
    if |active| == 1 && active[0].Reading? then [active[0].buf]
    else if |active| == 1 && active[0].ReadDone? && !active[0].got.Got? then [active[0].buf]
    else []
  }

  /** Buffers leave only filled, and come only from receives that are taken; their order stays. */
  predicate BuffersMoved(st: State, x: Step, st': State)
    requires Enabled(st, x)
  {
    var added := if x.UserRecv? && !st.s.closed && st.s.cfg.recvCb then [x.buf] else [];
    var gone := if x.ReadCall? && x.got.Got? then [st.active[x.w].buf] else [];
    && (st.s.r.socketError ==> st'.s.r.socketError)
    && (!st'.s.r.socketError ==>
          gone + (InHand(st'.active) + st'.s.recvList) == InHand(st.active) + st.s.recvList + added)
  }

  /** No buffer moves. */
  predicate BuffersSame(st: State, st': State) {
    && (st.s.r.socketError ==> st'.s.r.socketError)
    && InHand(st'.active) == InHand(st.active) && st'.s.recvList == st.s.recvList
  }

  /** The steps outside workers. */
  lemma BufferOther(st: State, x: Step)
    requires Enabled(st, x) && !RecvStep(x) && !SendStep(x) && !x.Check?
    ensures var st' := Next(st, x);
            && (st.s.r.socketError ==> st'.s.r.socketError) && st'.active == st.active
            && st'.s.recvList ==
               st.s.recvList + if x.UserRecv? && !st.s.closed && st.s.cfg.recvCb then [x.buf] else []
  {
    if x.UserSend? {
      SendKeeps(st, x.data, x.closeOnFlush);
    } else if x.OnActive? {
      ActiveKeeps(st);
    }
    assert st.s.recvList + [] == st.s.recvList;
    hide DoUserSend, DoOnActive, CanFetch, CanReadCall, CanWriteCall, CanSendEnd, CanAfterSend;
  }

  lemma SendKeeps(st: State, data: Chunk, c: bool)
    ensures var st' := DoUserSend(st, data, c);
            st'.active == st.active && st'.s.recvList == st.s.recvList && st'.s.r == st.s.r
  {
  }

  lemma ActiveKeeps(st: State)
    requires !st.poller.Polling?
    ensures var st' := DoOnActive(st);
            && st'.active == st.active && st'.s.recvList == st.s.recvList
            && (st.s.r.socketError ==> st'.s.r.socketError)
  {
  }

  lemma BufferCheck(st: State, i: nat)
    requires i in st.tops && st.active == []
    ensures BuffersSame(st, DoCheck(st, i))
  {
  }

  lemma OnlyWorker(st: State, w: nat)
    requires Inv(st) && w < |st.active|
    ensures |st.active| == 1 && w == 0 && Remove(st.active, 0) == []
  {
  }

  lemma BufferSend(st: State, w: nat, out: WriteOutcome)
    requires |st.active| == 1 && w == 0 && Remove(st.active, 0) == []
    ensures st.active[w].SendReady? ==> BuffersSame(st, DoSendBegin(st, w))
    ensures CanWriteCall(st, w, out) ==> BuffersSame(st, DoWriteCall(st, w, out))
  {
    hide Remove, Flat;
  }

  lemma BufferSent(st: State, w: nat)
    requires |st.active| == 1 && w == 0 && Remove(st.active, 0) == [] && CanSendEnd(st, w)
    ensures BuffersSame(st, DoSendEnd(st, w))
  {
    SentEndKeeps(st, w);
    var next := SentEndGoes(st, w);
    hide Remove, DoSendEnd;
  }

  lemma BufferAfter(st: State, w: nat)
    requires |st.active| == 1 && w == 0 && Remove(st.active, 0) == [] && CanAfterSend(st, w)
    ensures BuffersSame(st, DoAfterSend(st, w))
  {
    var st1 := match st.active[w]
               case Enabling(_) => if st.k.registered then st.(k := st.k.(writeArmed := true)) else st
               case Flushing(_, close) => if close then CloseSocket(st) else st
               case SendFailed(_, callback) => if callback then st else CloseSocket(st)
               case _ => st;
    assert DoAfterSend(st, w) == BackToTop(st1, w);
    assert st1.active == st.active && st1.s.recvList == st.s.recvList && st1.s.r == st.s.r;
    BackKeeps(st1, w);
    hide Remove, BackToTop, DoAfterSend;
  }

  /** The steps of recvInWorker up to its read. */
  lemma BufferRead(st: State, x: Step)
    requires |st.active| == 1 && Remove(st.active, 0) == []
    requires Enabled(st, x) && (x.RecvBegin? || x.ReadCall?) && x.w == 0
    ensures BuffersMoved(st, x, Next(st, x))
  {
    if x.RecvBegin? && st.s.CanRead() && !st.s.r.socketError {
      assert st.s.recvList == [st.s.recvList[0]] + st.s.recvList[1..];
    }
    hide Remove;
  }

  lemma BufferLeft(st: State, w: nat)
    requires |st.active| == 1 && w == 0 && Remove(st.active, 0) == []
    requires st.active[w].Receiving? || st.active[w].ReadDone? || st.active[w].RecvFailed?
    ensures AfterRecv(st, w).s == st.s && InHand(AfterRecv(st, w).active) == []
  {
    BackKeeps(st, w);
    hide Remove, BackToTop;
  }

  lemma BufferBack(st: State, w: nat)
    requires |st.active| == 1 && w == 0 && Remove(st.active, 0) == [] && st.active[w].ReadDone?
    ensures var st' := DoRecvEnd(st, w);
            && (st.s.r.socketError ==> st'.s.r.socketError)
            && (!st'.s.r.socketError ==> InHand(st'.active) + st'.s.recvList == InHand(st.active) + st.s.recvList)
  {
    var pc := st.active[w];
    match pc.got
    case Got(_) => BufferLeft(st, w);
    case ReadAgain => BufferReturned(st, w);
    case ReadFailed =>
    hide Remove, AfterRecv;
  }

  lemma BufferReturned(st: State, w: nat)
    requires |st.active| == 1 && w == 0 && Remove(st.active, 0) == []
    requires st.active[w].ReadDone? && st.active[w].got.ReadAgain?
    ensures var st' := DoRecvEnd(st, w);
            && st'.s.r.socketError == st.s.r.socketError
            && InHand(st'.active) == [] && st'.s.recvList == [st.active[w].buf] + st.s.recvList
  {
    var pc := st.active[w];
    var t := st.s.(recvList := [pc.buf] + st.s.recvList);
    var st1 := st.(s := if pc.ver == t.r.readableVer then t.(r := t.r.(readable := false)) else t);
    BufferLeft(st1, w);
    assert DoRecvEnd(st, w) == AfterRecv(st1, w);
    hide Remove, AfterRecv, DoRecvEnd;
  }

  lemma BufferError(st: State, w: nat)
    requires |st.active| == 1 && w == 0 && Remove(st.active, 0) == [] && st.active[w].RecvFailed?
    ensures BuffersSame(st, DoRecvError(st, w))
  {
    BufferLeft(st, w);
    BufferLeft(CloseSocket(st), w);
    hide Remove, AfterRecv;
  }

  lemma BufferRecv(st: State, x: Step)
    requires Inv(st) && Enabled(st, x) && RecvStep(x)
    ensures BuffersMoved(st, x, Next(st, x))
  {
    OnlyWorker(st, x.w);
    hide Inv, Remove, BuffersMoved;
    if x.RecvBegin? || x.ReadCall? {
      BufferRead(st, x);
    } else if x.RecvEnd? {
      BufferBack(st, x.w);
    } else {
      BufferError(st, x.w);
    }
  }

  lemma SameMoved(st: State, x: Step, st': State)
    requires Enabled(st, x) && BuffersSame(st, st') && !x.UserRecv? && !x.ReadCall?
    ensures BuffersMoved(st, x, st')
  {
    hide Enabled, InHand;
    assert [] + (InHand(st'.active) + st'.s.recvList) == InHand(st.active) + st.s.recvList + [];
  }

  lemma BufferSending(st: State, x: Step)
    requires Inv(st) && Enabled(st, x) && SendStep(x)
    ensures BuffersMoved(st, x, Next(st, x))
  {
    OnlyWorker(st, x.w);
    hide Inv, Remove, Flat, InHand, BuffersMoved, BuffersSame;
    BufferSend(st, x.w, if x.WriteCall? then x.out else WriteAgain);
    if x.SendEnd? {
      BufferSent(st, x.w);
    } else if x.AfterSend? {
      BufferAfter(st, x.w);
    }
    SameMoved(st, x, Next(st, x));
  }

  lemma BufferChecked(st: State, x: Step)
    requires Inv(st) && Enabled(st, x) && x.Check?
    ensures BuffersMoved(st, x, Next(st, x))
  {
    if st.active != [] {
      NoTask(st);
    }
    hide Inv, InHand, BuffersMoved, BuffersSame;
    BufferCheck(st, x.i);
    SameMoved(st, x, Next(st, x));
  }

  lemma BufferOutside(st: State, x: Step)
    requires Enabled(st, x) && !RecvStep(x) && !SendStep(x) && !x.Check?
    ensures BuffersMoved(st, x, Next(st, x))
  {
    BufferOther(st, x);
    hide Enabled, Next, InHand;
    var hand, list := InHand(st.active), st.s.recvList;
    var added := if x.UserRecv? && !st.s.closed && st.s.cfg.recvCb then [x.buf] else [];
    assert [] + (hand + (list + added)) == hand + list + added;
  }

  /** How one step moves buffers. */
  lemma BufferStep(st: State, x: Step)
    requires Inv(st) && Enabled(st, x)
    ensures BuffersMoved(st, x, Next(st, x))
  {
    hide Inv, Enabled, Next, BuffersMoved;
    if RecvStep(x) {
      BufferRecv(st, x);
    } else if SendStep(x) {
      BufferSending(st, x);
    } else if x.Check? {
      BufferChecked(st, x);
    } else {
      BufferOutside(st, x);
    }
  }

  /**
   * Without an error, the buffers handed over are those that were filled, in the
   * same order, then the one a worker has in hand, then those that wait.
   */
  lemma {:induction false} FilledInOrder(st0: State, steps: seq<Step>)
    requires Init(st0) && CanRun(st0, steps)
    ensures var st := Run(st0, steps);
            !st.s.r.socketError ==>
              Offered(st0, steps) == Filled(st0, steps) + InHand(st.active) + st.s.recvList
    decreases |steps|
  {
    hide Init, Inv, Next, Enabled, InHand;
    if steps == [] {
      InitEmpty(st0);
    } else {
      var k := |steps| - 1;
      var x := steps[k];
      RunLast(st0, steps);
      var st, st' := Run(st0, steps[..k]), Run(st0, steps);
      ReachedKept(st0, steps[..k]);
      BufferStep(st, x);
      if !st'.s.r.socketError {
        FilledInOrder(st0, steps[..k]);
        var added := if x.UserRecv? && !st.s.closed && st.s.cfg.recvCb then [x.buf] else [];
        var gone := if x.ReadCall? && x.got.Got? then ReadInto(st, x) else [];
        Moves(Filled(st0, steps[..k]), gone, InHand(st'.active), st'.s.recvList,
              InHand(st.active), st.s.recvList, added);
      }
    }
  }

  function ReadInto(st: State, x: Step): seq<nat>
    requires Enabled(st, x) && x.ReadCall?
  {
    [st.active[x.w].buf]
  }

  lemma InitEmpty(st: State)
    requires Init(st)
    ensures InHand(st.active) == [] && st.s.recvList == []
  {
  }

  lemma Moves(filled: seq<nat>, gone: seq<nat>, hand': seq<nat>, list': seq<nat>,
              hand: seq<nat>, list: seq<nat>, added: seq<nat>)
    requires gone + (hand' + list') == hand + list + added
    ensures filled + hand + list + added == filled + gone + hand' + list'
  {
    assert filled + hand + list + added == filled + (hand + list + added);
    assert filled + gone + hand' + list' == filled + (gone + (hand' + list'));
  }
}
