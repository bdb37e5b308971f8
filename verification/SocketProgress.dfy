/**
 * When a worker of the TCPSocket protocol stops, waits, or closes: after EAGAIN,
 * after an error, above the high-water mark, and after ten rounds.
 */
module SocketProgress {
  import opened Bytes
  import opened SocketModel
  import opened SocketProofs
  import opened SocketHistory

  // ----- EAGAIN -----

  /** How many events that report readiness to write, or to read, are delivered in a run. */
  function WriteEvents(st: State, steps: seq<Step>): nat
    requires CanRun(st, steps)
    decreases |steps|
  {
    if steps == [] then 0
    else (if steps[0].OnActive? && st.poller.ev.write then 1 else 0) + WriteEvents(Next(st, steps[0]), steps[1..])
  }

  function ReadEvents(st: State, steps: seq<Step>): nat
    requires CanRun(st, steps)
    decreases |steps|
  {
    if steps == [] then 0
    else (if steps[0].OnActive? && st.poller.ev.read then 1 else 0) + ReadEvents(Next(st, steps[0]), steps[1..])
  }

  /** The worker is between its two critical sections of sending, with a list detached at version ver. */
  predicate InWrite(st: State, ver: nat) {
    && |st.active| == 1 && st.s.r.writeable
    && (st.active[0].Sending? || st.active[0].Written?) && st.active[0].ver == ver
  }

  predicate InRead(st: State, ver: nat) {
    && |st.active| == 1 && st.s.r.readable
    && (st.active[0].Reading? || st.active[0].ReadDone?) && st.active[0].ver == ver
  }

  /** The steps that are not a worker's leave the worker where it is, and only events report readiness. */
  lemma OthersReady(st: State, x: Step)
    requires Enabled(st, x) && !RecvStep(x) && !SendStep(x) && !x.Check? && !x.OnActive?
    ensures Next(st, x).active == st.active && Next(st, x).s.r == st.s.r
  {
    if x.UserSend? {
      SendKeeps(st, x.data, x.closeOnFlush);
    }
    hide DoUserSend, CanFetch, CanReadCall, CanWriteCall, CanSendEnd, CanAfterSend;
  }

  lemma EventReady(st: State)
    requires Enabled(st, OnActive)
    ensures var st', r := Next(st, OnActive), st.s.r;
            && st'.active == st.active
            && st'.s.r.readable == (r.readable || st.poller.ev.read)
            && st'.s.r.readableVer == r.readableVer + (if st.poller.ev.read then 1 else 0)
            && st'.s.r.writeable == (r.writeable || st.poller.ev.write)
            && st'.s.r.writeableVer == r.writeableVer + (if st.poller.ev.write then 1 else 0)
  {
  }

  lemma WriteGoesOn(st: State, x: Step, ver: nat)
    requires Inv(st) && InWrite(st, ver) && Enabled(st, x) && !x.SendEnd?
    ensures var st' := Next(st, x);
            && InWrite(st', ver)
            && st'.s.r.writeableVer == st.s.r.writeableVer + if x.OnActive? && st.poller.ev.write then 1 else 0
  {
    NoTask(st);
    hide Inv, Flat;
    if x.OnActive? {
      EventReady(st);
      hide Next;
    } else if x.WriteCall? {
      assert x.w == 0;
    } else {
      assert !RecvStep(x) && !SendStep(x);
      OthersReady(st, x);
      hide Next;
    }
  }

  lemma ReadGoesOn(st: State, x: Step, ver: nat)
    requires Inv(st) && InRead(st, ver) && Enabled(st, x) && !x.RecvEnd?
    ensures var st' := Next(st, x);
            && InRead(st', ver)
            && st'.s.r.readableVer == st.s.r.readableVer + if x.OnActive? && st.poller.ev.read then 1 else 0
  {
    NoTask(st);
    hide Inv, Flat;
    if x.OnActive? {
      EventReady(st);
      hide Next;
    } else if x.ReadCall? {
      assert x.w == 0;
    } else {
      assert !RecvStep(x) && !SendStep(x);
      OthersReady(st, x);
      hide Next;
    }
  }

  lemma {:induction false} WriteRuns(st: State, steps: seq<Step>, ver: nat)
    requires Inv(st) && InWrite(st, ver) && CanRun(st, steps) && forall x <- steps :: !x.SendEnd?
    ensures var st' := Run(st, steps);
            InWrite(st', ver) && st'.s.r.writeableVer == st.s.r.writeableVer + WriteEvents(st, steps)
    decreases |steps|
  {
    hide Inv, Next, Enabled, InWrite;
    if steps != [] {
      assert steps[0] in steps;
      StepKept(st, steps[0]);
      WriteGoesOn(st, steps[0], ver);
      WriteRuns(Next(st, steps[0]), steps[1..], ver);
    }
  }

  lemma {:induction false} ReadRuns(st: State, steps: seq<Step>, ver: nat)
    requires Inv(st) && InRead(st, ver) && CanRun(st, steps) && forall x <- steps :: !x.RecvEnd?
    ensures var st' := Run(st, steps);
            InRead(st', ver) && st'.s.r.readableVer == st.s.r.readableVer + ReadEvents(st, steps)
    decreases |steps|
  {
    hide Inv, Next, Enabled, InRead;
    if steps != [] {
      assert steps[0] in steps;
      StepKept(st, steps[0]);
      ReadGoesOn(st, steps[0], ver);
      ReadRuns(Next(st, steps[0]), steps[1..], ver);
    }
  }

  lemma BeginWrites(st: State)
    requires |st.active| == 1 && st.active[0].SendReady? && DoSendBegin(st, 0).active != []
    requires DoSendBegin(st, 0).active[0].Sending?
    ensures InWrite(DoSendBegin(st, 0), st.s.r.writeableVer) && DoSendBegin(st, 0).s.r == st.s.r
  {
  }

  lemma BeginReads(st: State)
    requires |st.active| == 1 && st.active[0].Receiving? && DoRecvBegin(st, 0).active != []
    requires DoRecvBegin(st, 0).active[0].Reading?
    ensures InRead(DoRecvBegin(st, 0), st.s.r.readableVer) && DoRecvBegin(st, 0).s.r == st.s.r
  {
  }

  /**
   * A worker detaches a list and writev answers EAGAIN: when it accounts for that,
   * the socket counts as writeable still if and only if an event said so in between;
   * otherwise write interest is enabled next.
   */
  lemma WriteAgainStops(st0: State, before: seq<Step>, steps: seq<Step>)
    requires Init(st0) && CanRun(st0, before) && |Run(st0, before).active| == 1
    requires Run(st0, before).active[0].SendReady? && CanRun(DoSendBegin(Run(st0, before), 0), steps)
    requires var st := DoSendBegin(Run(st0, before), 0); st.active != [] && st.active[0].Sending?
    requires forall x <- steps :: !x.SendEnd?
    requires var st := Run(DoSendBegin(Run(st0, before), 0), steps);
             |st.active| == 1 && st.active[0].Written? && st.active[0].out.WriteAgain?
    ensures var st1 := DoSendBegin(Run(st0, before), 0);
            var st := Run(st1, steps);
            && CanSendEnd(st, 0)
            && (DoSendEnd(st, 0).s.r.writeable <==> WriteEvents(st1, steps) > 0)
            && (WriteEvents(st1, steps) == 0 ==>
                  |DoSendEnd(st, 0).active| == 1 && DoSendEnd(st, 0).active[0].Enabling?)
  {
    ReachedKept(st0, before);
    var st := Run(st0, before);
    BeginWrites(st);
    StepKept(st, SendBegin(0));
    WriteRuns(DoSendBegin(st, 0), steps, st.s.r.writeableVer);
    hide Init, Inv, Flat;
  }

  /** The same for read, which then leaves the socket readable or not. */
  lemma ReadAgainStops(st0: State, before: seq<Step>, steps: seq<Step>)
    requires Init(st0) && CanRun(st0, before) && |Run(st0, before).active| == 1
    requires Run(st0, before).active[0].Receiving? && CanRun(DoRecvBegin(Run(st0, before), 0), steps)
    requires var st := DoRecvBegin(Run(st0, before), 0); st.active != [] && st.active[0].Reading?
    requires forall x <- steps :: !x.RecvEnd?
    requires var st := Run(DoRecvBegin(Run(st0, before), 0), steps);
             |st.active| == 1 && st.active[0].ReadDone? && st.active[0].got.ReadAgain?
    ensures var st1 := DoRecvBegin(Run(st0, before), 0);
            var st := Run(st1, steps);
            DoRecvEnd(st, 0).s.r.readable <==> ReadEvents(st1, steps) > 0
  {
    ReachedKept(st0, before);
    var st := Run(st0, before);
    BeginReads(st);
    StepKept(st, RecvBegin(0));
    ReadRuns(DoRecvBegin(st, 0), steps, st.s.r.readableVer);
    AgainReadable(Run(DoRecvBegin(st, 0), steps));
    hide Init, Inv, AfterRecv;
  }

  lemma AgainReadable(st: State)
    requires |st.active| == 1 && st.active[0].ReadDone? && st.active[0].got.ReadAgain?
    ensures DoRecvEnd(st, 0).s.r.readable <==> st.s.r.readable && st.active[0].ver != st.s.r.readableVer
  {
    hide Remove;
  }

  // ----- Errors -----

  /** An error of writev marks the socket, and the worker's next step closes it unless there is a callback. */
  lemma WriteErrorCloses(st: State, w: nat)
    requires CanSendEnd(st, w) && st.active[w].out.WriteFailed? && !st.s.closed
    ensures var st' := DoSendEnd(st, w);
            && st'.s.r.socketError && CanAfterSend(st', w)
            && (DoAfterSend(st', w).s.closed <==> !st.s.cfg.errorCb)
  {
    hide Remove;
  }

  /** The same for read. */
  lemma ReadErrorCloses(st: State, w: nat)
    requires w < |st.active| && st.active[w].ReadDone? && st.active[w].got.ReadFailed? && !st.s.closed
    ensures var st' := DoRecvEnd(st, w);
            && st'.s.r.socketError && st'.active[w].RecvFailed?
            && (DoRecvError(st', w).s.closed <==> !st.s.cfg.errorCb)
  {
    var st' := DoRecvEnd(st, w);
    LeftRecv(st', w);
    LeftRecv(CloseSocket(st'), w);
    hide AfterRecv;
  }

  // ----- The high-water mark -----

  /** Above the mark means that more accepted bytes than that are not yet accounted for as written. */
  lemma HighWaterExactly(st0: State, steps: seq<Step>)
    requires Init(st0) && CanRun(st0, steps)
    ensures var st := Run(st0, steps);
            !st.s.closed && !st.s.r.socketError ==>
              (st.s.HighWater() <==>
                 st.s.cfg.highWaterSize > 0
                 && |st.accepted| - |st.k.written| + InFlight(st) > st.s.cfg.highWaterSize)
  {
    SentInOrder(st0, steps);
    hide Init, InFlight;
  }

  // ----- Rounds -----

  /** A task in one of its ten rounds takes up the work there is; after them it posts itself anew. */
  lemma TurnTaken(st: State, i: nat)
    requires i in st.tops && !st.s.closed && (st.s.CanRead() || st.s.CanWrite())
    ensures var st' := DoCheck(st, i);
            && (i < 10 ==> |st'.active| == |st.active| + 1 && st'.active[|st.active|].i == i && st'.owed == st.owed)
            && (i >= 10 ==> st'.active == st.active && st'.owed == st.owed + 1)
  {
  }
}
