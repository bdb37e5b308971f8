/**
 * Canceling a timer while a scheduler runs: the status word, the steps of Schedule
 * and of any number of cancel calls, in every interleaving.
 */
module TimerCancel {
  import opened TimerHeap

  datatype Result = CancelOk | InCurrentThread | InOtherThread | InvalidTimer

  /**
   * Where Schedule is with the timer.  Claimed: the status is claimed, or was
   * found taken, under the lock.  Popped: the timer is out of the heap and the
   * lock is released.  Running: in the callback.  Back: after it, or without it.
   * Rearming: the status is reset under the lock, and the timer not inserted yet.
   */
  datatype Phase = Elsewhere | Claimed(ok: bool) | Popped(ok: bool) | Running | Back(ok: bool) | Rearming

  /**
   * Where a cancel call is.  Removing: about to read the manager; Locking: about to
   * remove the timer under its lock; NullManager: what it read was null.  A call
   * that is done knows what it left behind.
   */
  datatype Pc =
    | FirstCas | SecondCas | Load | Removing | Locking | Comparing
    | NullManager | Done(result: Result, starts: nat, pending: bool)

  /** inside: the call is made by the scheduler's thread, in a callback. */
  datatype Cancel = Cancel(inside: bool, pc: Pc)

  /**
   * tid: whether the timer's thread id is the scheduler's.  mgr: whether its manager
   * is set.  starts counts callbacks begun.
   */
  datatype State = State(
    once: bool, status: Status, inHeap: bool, tid: bool, mgr: bool, phase: Phase, starts: nat, calls: seq<Cancel>)

  predicate Init(st: State) {
    st == State(st.once, IDLE, true, false, true, Elsewhere, 0, [])
  }

  datatype Step =
    | Claim | Pop | Begin | End | Reset | Insert
    | Call(inside: bool) | CasIdle(i: nat) | CasInCallback(i: nat) | LoadStatus(i: nat)
    | ReadManager(i: nat) | Remove(i: nat) | CompareThread(i: nat)

  /** A callback is claimed and has not begun. */
  predicate Pending(st: State) {
    st.phase == Claimed(true) || st.phase == Popped(true)
  }

  /** The scheduler's thread is in a cancel call. */
  predicate Busy(st: State) {
    exists i :: 0 <= i < |st.calls| && st.calls[i].inside && !st.calls[i].pc.Done?
  }

  predicate At(st: State, i: nat, pc: Pc) {
    i < |st.calls| && st.calls[i].pc == pc
  }

  predicate Enabled(st: State, step: Step) {
    match step
    case Claim => st.phase.Elsewhere? && st.inHeap && !Busy(st)
    case Pop => st.phase.Claimed?
    case Begin => st.phase.Popped?
    case End => st.phase.Running? && !Busy(st)
    case Reset => st.phase.Back?
    case Insert => st.phase.Rearming?
    case Call(inside) => inside ==> (st.phase.Elsewhere? || st.phase.Running?) && !Busy(st)
    case CasIdle(i) => At(st, i, FirstCas)
    case CasInCallback(i) => At(st, i, SecondCas)
    case LoadStatus(i) => At(st, i, Load)
    case ReadManager(i) => At(st, i, Removing)
    case Remove(i) => At(st, i, Locking) && !st.phase.Claimed? && !st.phase.Rearming?
    case CompareThread(i) => At(st, i, Comparing)
  }

  function Goes(st: State, i: nat, pc: Pc): State
    requires i < |st.calls|
  {
    st.(calls := st.calls[i := st.calls[i].(pc := pc)])
  }

  function Returns(st: State, i: nat, r: Result): State
    requires i < |st.calls|
  {
    Goes(st, i, Done(r, st.starts, Pending(st)))
  }

  function Next(st: State, step: Step): State
    requires Enabled(st, step)
  {
    match step
    case Claim =>
      var ok := st.status == IDLE;
      st.(tid := true, status := if ok then Status(false, true) else st.status, phase := Claimed(ok))
    case Pop => st.(inHeap := false, mgr := false, phase := Popped(st.phase.ok))
    case Begin => if st.phase.ok then st.(phase := Running, starts := st.starts + 1) else st.(phase := Back(false))
    case End => st.(phase := Back(true))
    case Reset =>
      if st.phase.ok && !st.once && st.status == Status(false, true) then st.(status := IDLE, phase := Rearming)
      else st.(phase := Elsewhere)
    case Insert => st.(inHeap := true, tid := false, mgr := true, phase := Elsewhere)
    case Call(inside) => st.(calls := st.calls + [Cancel(inside, FirstCas)])
    case CasIdle(i) =>
      if st.status == IDLE then Goes(st, i, Load).(status := Status(true, false)) else Goes(st, i, SecondCas)
    case CasInCallback(i) =>
      if st.status == Status(false, true) then Goes(st, i, Load).(status := Status(true, true))
      else Returns(st, i, InvalidTimer)
    case LoadStatus(i) => Goes(st, i, if st.status.incallback then Comparing else Removing)
    case ReadManager(i) => Goes(st, i, if st.mgr then Locking else NullManager)
    case Remove(i) => Returns(st.(inHeap := false), i, CancelOk)
    case CompareThread(i) =>
      Returns(st, i, if st.calls[i].inside && st.tid then InCurrentThread else InOtherThread)
  }

  predicate CanRun(st: State, steps: seq<Step>)
    decreases |steps|
  {
    steps == [] || (Enabled(st, steps[0]) && CanRun(Next(st, steps[0]), steps[1..]))
  }

  function Run(st: State, steps: seq<Step>): State
    requires CanRun(st, steps)
    decreases |steps|
  {
    if steps == [] then st else Run(Next(st, steps[0]), steps[1..])
  }

  // ----- What every step keeps -----

  /** The call has changed the status. */
  predicate Won(c: Cancel) {
    match c.pc
    case FirstCas => false
    case SecondCas => false
    case Done(r, _, _) => r != InvalidTimer
    case _ => true
  }

  function Winners(calls: seq<Cancel>): nat {
    if calls == [] then 0 else Winners(calls[..|calls| - 1]) + (if Won(calls[|calls| - 1]) then 1 else 0)
  }

  /** Callbacks begun or about to begin. */
  function Committed(st: State): nat {
    st.starts + if Pending(st) then 1 else 0
  }

  predicate CallOk(st: State, c: Cancel) {
    && (c.inside && !c.pc.Done? ==> st.phase.Elsewhere? || st.phase.Running?)
    && (c.pc.Removing? || c.pc.Locking? ==> !st.status.incallback)
    && (c.pc.Comparing? ==> st.status.incallback)
    && (c.inside && (c.pc.Load? || c.pc.Removing?) && !st.status.incallback ==> st.mgr)
    && (c.inside ==> !c.pc.NullManager?)
    && (c.pc.Done? ==> c.pc.starts <= st.starts && (c.pc.result == InOtherThread ==> !c.inside))
    && (c.pc.Done? && c.pc.result != InvalidTimer ==>
          && Committed(st) == c.pc.starts + (if c.pc.pending then 1 else 0)
          && (c.pc.pending ==> c.pc.result == InOtherThread))
  }

  predicate Inv(st: State) {
    && Winners(st.calls) == (if st.status.canceled then 1 else 0)
    && (Pending(st) || st.phase.Running? || st.phase == Back(true) ==> st.status.incallback)
    && (st.status.incallback ==> st.tid)
    && (st.status == IDLE ==> st.phase.Rearming? || (st.phase.Elsewhere? && st.mgr))
    && (st.phase.Popped? || st.phase.Running? || st.phase.Back? || st.phase.Rearming? ==> !st.mgr)
    && (st.phase.Rearming? ==> !st.status.incallback)
    && forall i :: 0 <= i < |st.calls| ==> CallOk(st, st.calls[i])
  }

  lemma {:induction false} WinnersSet(calls: seq<Cancel>, i: nat, c: Cancel)
    requires i < |calls|
    ensures Winners(calls[i := c]) + (if Won(calls[i]) then 1 else 0) == Winners(calls) + (if Won(c) then 1 else 0)
    decreases |calls|
  {
    var n := |calls| - 1;
    if i == n {
      assert calls[i := c][..n] == calls[..n];
    } else {
      assert calls[i := c][..n] == calls[..n][i := c];
      WinnersSet(calls[..n], i, c);
    }
  }

  lemma {:induction false} NoWinners(calls: seq<Cancel>, i: nat)
    requires i < |calls| && Won(calls[i])
    ensures Winners(calls) > 0
    decreases |calls|
  {
    var n := |calls| - 1;
    if i < n {
      NoWinners(calls[..n], i);
    }
  }

  lemma {:induction false} OneWinner(calls: seq<Cancel>, i: nat, j: nat)
    requires i < j < |calls| && Won(calls[i]) && Won(calls[j])
    ensures Winners(calls) > 1
    decreases |calls|
  {
    var n := |calls| - 1;
    if j < n {
      OneWinner(calls[..n], i, j);
    } else {
      NoWinners(calls[..n], i);
    }
  }

  predicate Scheduling(step: Step) {
    step.Claim? || step.Pop? || step.Begin? || step.End? || step.Reset? || step.Insert?
  }

  lemma ScheduleCallKept(st: State, step: Step, i: nat)
    requires Inv(st) && Enabled(st, step) && i < |st.calls|
    requires Scheduling(step)
    ensures CallOk(Next(st, step), st.calls[i])
  {
    hide Winners;
    assert CallOk(st, st.calls[i]);
    if Won(st.calls[i]) {
      NoWinners(st.calls, i);
    }
  }

  /** A step of the scheduler. */
  lemma ScheduleKept(st: State, step: Step)
    requires Inv(st) && Enabled(st, step)
    requires Scheduling(step)
    ensures Inv(Next(st, step))
  {
    hide CallOk, Winners;
    forall i | 0 <= i < |st.calls| ensures CallOk(Next(st, step), st.calls[i]) {
      ScheduleCallKept(st, step, i);
    }
  }

  /** A step of a cancel call. */
  lemma CallKept(st: State, i: nat, c: Cancel, status: Status)
    requires Inv(st) && i < |st.calls| && c.inside == st.calls[i].inside && !st.calls[i].pc.Done?
    requires status == st.status || (!st.status.canceled && status == st.status.(canceled := true))
    requires (if Won(c) then 1 else 0) ==
             (if Won(st.calls[i]) then 1 else 0) + (if status == st.status then 0 else 1)
    requires CallOk(st.(status := status), c)
    ensures Inv(st.(status := status, calls := st.calls[i := c]))
  {
    WinnersSet(st.calls, i, c);
    var st' := st.(status := status, calls := st.calls[i := c]);
    forall j | 0 <= j < |st'.calls| ensures CallOk(st', st'.calls[j]) {
      assert CallOk(st, st.calls[j]);
    }
  }

  lemma CasKept(st: State, step: Step)
    requires Inv(st) && Enabled(st, step) && (step.CasIdle? || step.CasInCallback?)
    ensures Inv(Next(st, step))
  {
    var st' := Next(st, step);
    assert CallOk(st, st.calls[step.i]);
    CallKept(st, step.i, st'.calls[step.i], st'.status);
    hide Inv, Winners;
  }

  lemma ReadKept(st: State, step: Step)
    requires Inv(st) && Enabled(st, step) && (step.LoadStatus? || step.ReadManager? || step.CompareThread?)
    ensures Inv(Next(st, step))
  {
    var st' := Next(st, step);
    assert CallOk(st, st.calls[step.i]);
    CallKept(st, step.i, st'.calls[step.i], st'.status);
    hide Inv, Winners;
  }

  lemma RemoveKept(st: State, i: nat)
    requires Inv(st) && Enabled(st, Remove(i))
    ensures Inv(Next(st, Remove(i)))
  {
    var st' := Next(st, Remove(i));
    assert CallOk(st, st.calls[i]);
    OutOfHeap(st);
    CallKept(st.(inHeap := false), i, st'.calls[i], st'.status);
    hide Inv, Winners;
  }

  lemma CancelKept(st: State, step: Step)
    requires Inv(st) && Enabled(st, step)
    requires !Scheduling(step) && !step.Call?
    ensures Inv(Next(st, step))
  {
    hide Inv, Next;
    match step
    case Remove(i) => RemoveKept(st, i);
    case CasIdle(_) => CasKept(st, step);
    case CasInCallback(_) => CasKept(st, step);
    case _ => ReadKept(st, step);
  }

  lemma OutOfHeap(st: State)
    requires Inv(st)
    ensures Inv(st.(inHeap := false))
  {
    forall i | 0 <= i < |st.calls| ensures CallOk(st.(inHeap := false), st.calls[i]) {
      assert CallOk(st, st.calls[i]);
    }
  }

  lemma StepKept(st: State, step: Step)
    requires Inv(st) && Enabled(st, step)
    ensures Inv(Next(st, step))
  {
    if Scheduling(step) {
      ScheduleKept(st, step);
    } else if step.Call? {
      var st' := Next(st, step);
      assert st'.calls[..|st.calls|] == st.calls;
      forall i | 0 <= i < |st'.calls| ensures CallOk(st', st'.calls[i]) {
        assert i < |st.calls| ==> CallOk(st, st.calls[i]);
      }
    } else {
      CancelKept(st, step);
    }
  }

  lemma {:induction false} RunKept(st: State, steps: seq<Step>)
    requires Inv(st) && CanRun(st, steps)
    ensures Inv(Run(st, steps))
    decreases |steps|
  {
    if steps != [] {
      StepKept(st, steps[0]);
      RunKept(Next(st, steps[0]), steps[1..]);
    }
  }

  // ----- Main results, for every run -----

  /** At most one cancel of a timer returns anything but invaild_timer. */
  lemma OneCancel(st0: State, steps: seq<Step>, i: nat, j: nat)
    requires Init(st0) && CanRun(st0, steps) && i < |Run(st0, steps).calls| && j < |Run(st0, steps).calls|
    requires Won(Run(st0, steps).calls[i]) && Won(Run(st0, steps).calls[j])
    ensures i == j
  {
    RunKept(st0, steps);
    var calls := Run(st0, steps).calls;
    if i < j {
      OneWinner(calls, i, j);
    } else if j < i {
      OneWinner(calls, j, i);
    }
  }

  /** Once a callback of a one-shot timer is claimed, the status says so for good. */
  predicate OnceOk(st: State) {
    st.once ==> Committed(st) <= 1 && (Committed(st) == 1 ==> st.status != IDLE)
  }

  lemma {:induction false} OnceKept(st: State, steps: seq<Step>)
    requires Inv(st) && OnceOk(st) && CanRun(st, steps)
    ensures OnceOk(Run(st, steps)) && Run(st, steps).once == st.once
    decreases |steps|
  {
    hide Inv;
    if steps != [] {
      StepKept(st, steps[0]);
      OnceStep(st, steps[0]);
      OnceKept(Next(st, steps[0]), steps[1..]);
    }
  }

  lemma OnceStep(st: State, step: Step)
    requires Inv(st) && OnceOk(st) && Enabled(st, step)
    ensures OnceOk(Next(st, step)) && Next(st, step).once == st.once
  {
    hide Winners, CallOk;
  }

  /** The callback of a one-shot timer begins at most once, whatever cancels run beside the scheduler. */
  lemma OneShot(st0: State, steps: seq<Step>)
    requires Init(st0) && st0.once && CanRun(st0, steps)
    ensures Run(st0, steps).starts <= 1
  {
    OnceKept(st0, steps);
  }

  /**
   * After a cancel has returned anything but invaild_timer, no callback begins if
   * the call was made on the scheduler's thread, or returned anything but
   * doing_callback_in_other_thread; and in any case none but one that was claimed
   * and not yet begun when it returned.
   */
  lemma CancelStops(st0: State, steps: seq<Step>, i: nat)
    requires Init(st0) && CanRun(st0, steps) && i < |Run(st0, steps).calls|
    requires Run(st0, steps).calls[i].pc.Done? && Run(st0, steps).calls[i].pc.result != InvalidTimer
    ensures var st := Run(st0, steps);
            var d := st.calls[i].pc;
            && (st.calls[i].inside ==> d.result != InOtherThread)
            && (d.result != InOtherThread ==> st.starts == d.starts)
            && d.starts <= st.starts <= d.starts + (if d.pending then 1 else 0)
            && (d.pending && st.starts == d.starts ==> Pending(st))
  {
    RunKept(st0, steps);
    assert CallOk(Run(st0, steps), Run(st0, steps).calls[i]);
  }

  /** The claimed callback does begin, whatever the cancel returned. */
  lemma PendingBegins(st: State)
    requires Pending(st)
    ensures var steps := if st.phase.Claimed? then [Pop, Begin] else [Begin];
            CanRun(st, steps) && Run(st, steps) == st.(inHeap := Run(st, steps).inHeap, mgr := Run(st, steps).mgr,
                                                       phase := Running, starts := st.starts + 1)
  {
    if st.phase.Claimed? {
      assert [Pop, Begin][1..] == [Begin];
      assert CanRun(Next(st, Pop), [Begin]);
    }
    assert [Begin][1..] == [];
  }

  /** The steps of a cancel call that meets a claimed callback. */
  const MEETING: seq<Step> := [CasIdle(0), CasInCallback(0), LoadStatus(0), CompareThread(0)]

  lemma Meets(st: State)
    requires st.status == Status(false, true) && Pending(st) && st.calls == [Cancel(false, FirstCas)]
    ensures CanRun(st, MEETING)
    ensures Run(st, MEETING) ==
            st.(status := Status(true, true), calls := [Cancel(false, Done(InOtherThread, st.starts, true))])
  {
    hide CanRun, Run;
    var st1 := st.(calls := [Cancel(false, SecondCas)]);
    var st2 := st.(calls := [Cancel(false, Load)], status := Status(true, true));
    var st3 := st2.(calls := [Cancel(false, Comparing)]);
    var last := [CompareThread(0)];
    Unroll(st, CasIdle(0), st1, [CasInCallback(0)] + ([LoadStatus(0)] + last));
    Unroll(st1, CasInCallback(0), st2, [LoadStatus(0)] + last);
    Unroll(st2, LoadStatus(0), st3, last);
    LastCompare(st3, st2.(calls := [Cancel(false, Done(InOtherThread, st.starts, true))]));
    assert [CasIdle(0)] + ([CasInCallback(0)] + ([LoadStatus(0)] + last)) == MEETING;
  }

  /** The steps of the scheduler up to a claimed callback, and of a cancel call from elsewhere that meets it. */
  const TOO_LATE: seq<Step> := [Claim] + ([Pop] + ([Call(false)] + MEETING))

  /** A run in which a callback begins after the cancel of its timer returned doing_callback_in_other_thread. */
  lemma CancelTooLate(st0: State)
    requires Init(st0)
    ensures CanRun(st0, TOO_LATE)
    ensures Run(st0, TOO_LATE).calls == [Cancel(false, Done(InOtherThread, 0, true))]
    ensures CanRun(Run(st0, TOO_LATE), [Begin])
    ensures var st := Run(Run(st0, TOO_LATE), [Begin]);
            st.calls == [Cancel(false, Done(InOtherThread, 0, true))] && st.starts == 1
  {
    hide CanRun, Run, MEETING;
    var st1 := st0.(status := Status(false, true), tid := true, phase := Claimed(true));
    var st2 := st1.(inHeap := false, mgr := false, phase := Popped(true));
    var st3 := st2.(calls := [Cancel(false, FirstCas)]);
    Unroll(st0, Claim, st1, [Pop] + ([Call(false)] + MEETING));
    Unroll(st1, Pop, st2, [Call(false)] + MEETING);
    Unroll(st2, Call(false), st3, MEETING);
    Meets(st3);
    PendingBegins(Run(st3, MEETING));
  }

  /** No callback has begun since call i returned, if it changed the status. */
  predicate Stopped(st: State, i: nat) {
    i < |st.calls| && st.calls[i].pc.Done? && st.calls[i].pc.result != InvalidTimer ==>
      st.starts == st.calls[i].pc.starts
  }

  predicate MadeBy(st: State, i: nat, inside: bool) {
    i < |st.calls| && st.calls[i].inside == inside
  }

  /** In every run, a cancel made on the scheduler's thread, or elsewhere, stops its timer. */
  ghost predicate AlwaysStops(once: bool, inside: bool) {
    forall st0, steps, i: nat ::
      Init(st0) && st0.once == once && CanRun(st0, steps) && MadeBy(Run(st0, steps), i, inside) ==>
        Stopped(Run(st0, steps), i)
  }

  /**
   * A cancel is sure to stop its timer, of either kind, if and only if it is called
   * on the scheduler's thread.
   */
  lemma CancelStopsExactly(once: bool, inside: bool)
    ensures AlwaysStops(once, inside) <==> inside
  {
    if inside {
      forall st0, steps, i: nat | Init(st0) && CanRun(st0, steps) && MadeBy(Run(st0, steps), i, true)
        ensures Stopped(Run(st0, steps), i)
      {
        var c := Run(st0, steps).calls[i];
        if c.pc.Done? && c.pc.result != InvalidTimer {
          CancelStops(st0, steps, i);
        }
      }
    } else {
      hide CanRun, Run;
      var st0 := State(once, IDLE, true, false, true, Elsewhere, 0, []);
      CancelTooLate(st0);
      RunConcat(st0, TOO_LATE, [Begin]);
      var st := Run(st0, TOO_LATE + [Begin]);
      assert MadeBy(st, 0, false) && !Stopped(st, 0);
    }
  }

  lemma {:induction false} RunConcat(st: State, a: seq<Step>, b: seq<Step>)
    requires CanRun(st, a) && CanRun(Run(st, a), b)
    ensures CanRun(st, a + b) && Run(st, a + b) == Run(Run(st, a), b)
    decreases |a|
  {
    if a == [] {
      assert a + b == b;
    } else {
      RunConcat(Next(st, a[0]), a[1..], b);
      assert (a + b)[1..] == a[1..] + b;
    }
  }

  // ----- The manager that cancel removes the timer from -----

  /** The manager of a canceled timer is set until the timer is popped, and in the re-arm window once it is inserted. */
  lemma {:induction false} ManagerLost(st: State, steps: seq<Step>)
    requires st.status == Status(true, false) && CanRun(st, steps) && (st.phase.Rearming? ==> !st.mgr)
    ensures Run(st, steps).status == st.status
    ensures Run(st, steps).mgr <==> (st.mgr || (st.phase.Rearming? && Insert in steps)) && Pop !in steps
    decreases |steps|
  {
    if steps != [] {
      ManagerLost(Next(st, steps[0]), steps[1..]);
      assert steps == [steps[0]] + steps[1..];
    }
  }

  /**
   * A cancel whose first compare-and-swap succeeds meets a null manager exactly if
   * the scheduler pops the timer between that and the read of the manager, or the
   * swap falls into the window in which the timer is re-armed, and the read too.
   */
  lemma ManagerMetNull(st0: State, before: seq<Step>, i: nat, between: seq<Step>)
    requires Init(st0) && CanRun(st0, before)
    requires Enabled(Run(st0, before), CasIdle(i)) && Run(st0, before).status == IDLE
    requires CanRun(Next(Run(st0, before), CasIdle(i)), between)
    requires Enabled(Run(Next(Run(st0, before), CasIdle(i)), between), ReadManager(i))
    ensures var st := Next(Run(Next(Run(st0, before), CasIdle(i)), between), ReadManager(i));
            st.calls[i].pc.NullManager? <==>
            Pop in between || (Run(st0, before).phase.Rearming? && Insert !in between)
  {
    RunKept(st0, before);
    ManagerLost(Next(Run(st0, before), CasIdle(i)), between);
  }

  /** The steps of a cancel call from elsewhere that the scheduler overtakes. */
  const OVERTAKEN: seq<Step> :=
    [Call(false)] + ([CasIdle(0)] + ([Claim] + ([Pop] + ([LoadStatus(0)] + [ReadManager(0)]))))

  /** A run in which a cancel meets a null manager because the timer is popped. */
  lemma CancelOvertaken(st0: State)
    requires Init(st0)
    ensures CanRun(st0, OVERTAKEN) && Run(st0, OVERTAKEN).calls == [Cancel(false, NullManager)]
  {
    hide CanRun, Run;
    var st1 := st0.(calls := [Cancel(false, FirstCas)]);
    var st2 := st1.(status := Status(true, false), calls := [Cancel(false, Load)]);
    var st3 := st2.(tid := true, phase := Claimed(false));
    var st4 := st3.(inHeap := false, mgr := false, phase := Popped(false));
    Unroll(st0, Call(false), st1, [CasIdle(0)] + ([Claim] + ([Pop] + ([LoadStatus(0)] + [ReadManager(0)]))));
    Unroll(st1, CasIdle(0), st2, [Claim] + ([Pop] + ([LoadStatus(0)] + [ReadManager(0)])));
    Unroll(st2, Claim, st3, [Pop] + ([LoadStatus(0)] + [ReadManager(0)]));
    Unroll(st3, Pop, st4, [LoadStatus(0)] + [ReadManager(0)]);
    ReadsNull(st4);
  }

  /** The steps of a cancel call in the re-arm window of a periodic timer; the only pop came before it. */
  const IN_WINDOW: seq<Step> :=
    [Claim] + ([Pop] + ([Begin] + ([End] + ([Reset] + ([Call(false)] + ([CasIdle(0)] +
    ([LoadStatus(0)] + [ReadManager(0)])))))))

  /** A run in which a cancel meets a null manager because the timer is not inserted again yet. */
  lemma CancelInWindow(st0: State)
    requires Init(st0) && !st0.once
    ensures CanRun(st0, IN_WINDOW) && Run(st0, IN_WINDOW).calls == [Cancel(false, NullManager)]
  {
    hide CanRun, Run;
    var st1 := st0.(status := Status(false, true), tid := true, phase := Claimed(true));
    var st2 := st1.(inHeap := false, mgr := false, phase := Popped(true));
    var st3 := st2.(phase := Running, starts := 1);
    var st5 := st3.(phase := Rearming, status := IDLE);
    var last := [LoadStatus(0)] + [ReadManager(0)];
    var call := [Call(false)] + ([CasIdle(0)] + last);
    var st6 := st5.(calls := [Cancel(false, FirstCas)]);
    var st7 := st5.(status := Status(true, false), calls := [Cancel(false, Load)]);
    Unroll(st0, Claim, st1, [Pop] + ([Begin] + ([End] + ([Reset] + call))));
    Unroll(st1, Pop, st2, [Begin] + ([End] + ([Reset] + call)));
    Unroll(st2, Begin, st3, [End] + ([Reset] + call));
    Unroll(st3, End, st3.(phase := Back(true)), [Reset] + call);
    Unroll(st3.(phase := Back(true)), Reset, st5, call);
    Unroll(st5, Call(false), st6, [CasIdle(0)] + last);
    Unroll(st6, CasIdle(0), st7, last);
    ReadsNull(st7);
  }

  lemma ReadsNull(st: State)
    requires st.calls == [Cancel(false, Load)] && !st.status.incallback && !st.mgr
    ensures CanRun(st, [LoadStatus(0)] + [ReadManager(0)])
    ensures Run(st, [LoadStatus(0)] + [ReadManager(0)]).calls == [Cancel(false, NullManager)]
  {
    hide CanRun, Run;
    var st1 := st.(calls := [Cancel(false, Removing)]);
    Unroll(st, LoadStatus(0), st1, [ReadManager(0)]);
    RunOne(st1, ReadManager(0), st.(calls := [Cancel(false, NullManager)]));
  }

  lemma RunOne(st: State, step: Step, st': State)
    requires Enabled(st, step) && Next(st, step) == st'
    ensures CanRun(st, [step]) && Run(st, [step]) == st'
  {
    assert [step][1..] == [];
  }

  predicate FindsManager(st: State, i: nat) {
    i < |st.calls| ==> !st.calls[i].pc.NullManager?
  }

  ghost predicate AlwaysFindsManager(once: bool, inside: bool) {
    forall st0, steps, i: nat ::
      Init(st0) && st0.once == once && CanRun(st0, steps) && MadeBy(Run(st0, steps), i, inside) ==>
        FindsManager(Run(st0, steps), i)
  }

  /** A cancel is sure to find its manager if and only if it is called on the scheduler's thread. */
  lemma ManagerFoundExactly(once: bool, inside: bool)
    ensures AlwaysFindsManager(once, inside) <==> inside
  {
    if inside {
      forall st0, steps, i: nat | Init(st0) && CanRun(st0, steps) && MadeBy(Run(st0, steps), i, true)
        ensures FindsManager(Run(st0, steps), i)
      {
        RunKept(st0, steps);
        assert CallOk(Run(st0, steps), Run(st0, steps).calls[i]);
      }
    } else {
      hide CanRun, Run;
      var st0 := State(once, IDLE, true, false, true, Elsewhere, 0, []);
      CancelOvertaken(st0);
      assert MadeBy(Run(st0, OVERTAKEN), 0, false) && !FindsManager(Run(st0, OVERTAKEN), 0);
    }
  }

  lemma LastCompare(st: State, st': State)
    requires |st.calls| == 1 && st.calls[0] == Cancel(false, Comparing) && Pending(st)
    requires st' == st.(calls := [Cancel(false, Done(InOtherThread, st.starts, true))])
    ensures CanRun(st, [CompareThread(0)]) && Run(st, [CompareThread(0)]) == st' && Pending(st')
  {
    assert [CompareThread(0)][1..] == [];
    assert Next(st, CompareThread(0)) == st';
  }

  lemma Unroll(st: State, step: Step, st': State, rest: seq<Step>)
    requires Enabled(st, step) && Next(st, step) == st'
    ensures CanRun(st, [step] + rest) <==> CanRun(st', rest)
    ensures CanRun(st', rest) ==> Run(st, [step] + rest) == Run(st', rest)
  {
    assert ([step] + rest)[1..] == rest;
  }
}
