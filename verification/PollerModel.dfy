/**
 * Poller with epoll: channels are added and removed by any threads while one
 * thread waits for events and dispatches them through raw pointers.
 */
module PollerModel {

  /** A channel object, and its file descriptor. */
  datatype Channel = Channel(fd: int, id: int)

  /** A returned event: for a channel, or for the poller's own pipe. */
  datatype Ready = ForChannel(c: Channel) | ForPipe

  /** Who holds the mutex, and how far it is. */
  datatype Holder =
    | Nobody
    | Adding(c: Channel)
    | Added(c: Channel)
    | Removing(c: Channel)
    | Removed(c: Channel)

  /**
   * The thread in Run: in epoll_wait; in the loop over a batch, with OnActive begun
   * for the first of it; after the loop; about to clear.
   */
  datatype RunPc = Waiting | Dispatching(batch: seq<Ready>, begun: nat) | Checking | Clearing

  /**
   * registered is epoll's interest list, by descriptor; count is clearWaitRemove;
   * owed counts calls of Remove that still have to notify; pipe: something is in the pipe.
   */
  datatype State = State(
    channels: map<int, Channel>, waitRemove: seq<Channel>, count: nat, registered: map<int, Channel>,
    holder: Holder, run: RunPc, owed: nat, pipe: bool)

  const START := State(map[], [], 0, map[], Nobody, Waiting, 0, false)

  predicate Init(st: State) {
    st == START
  }

  datatype Step =
    | AddBegin(c: Channel) | AddEpoll(ok: bool) | AddEnd
    | RemoveBegin(c: Channel) | RemoveEpoll | RemoveEnd | Notify
    | Modify(c: Channel)
    | Wait(batch: seq<Ready>) | Dispatch | Check | Clear

  /** epoll_wait may return any of the registered channels, and the pipe if there is something in it. */
  predicate CanReturn(st: State, batch: seq<Ready>) {
    && batch != []
    && forall r <- batch ::
         match r
         case ForChannel(c) => c.fd in st.registered && st.registered[c.fd] == c
         case ForPipe => st.pipe
  }

  /** Remove, Enable and Disable are called with the channel that is registered under its descriptor, if any. */
  predicate Proper(st: State, c: Channel) {
    c.fd in st.channels ==> st.channels[c.fd] == c
  }

  predicate Enabled(st: State, step: Step) {
    match step
    case AddBegin(c) => st.holder.Nobody? && c.fd !in st.channels
    case AddEpoll(_) => st.holder.Adding?
    case AddEnd => st.holder.Added?
    case RemoveBegin(c) => st.holder.Nobody? && c.fd in st.channels && Proper(st, c)
    case RemoveEpoll => st.holder.Removing?
    case RemoveEnd => st.holder.Removed?
    case Notify => st.owed > 0
    case Modify(c) => st.holder.Nobody? && c.fd in st.channels && Proper(st, c)
    case Wait(batch) => st.run.Waiting? && CanReturn(st, batch)
    case Dispatch => st.run.Dispatching? && st.run.begun <= |st.run.batch|
    case Check => st.run.Checking?
    case Clear => st.run.Clearing? && st.holder.Nobody?
  }

  function Next(st: State, step: Step): State
    requires Enabled(st, step)
  {
    match step
    case AddBegin(c) => st.(holder := Adding(c))
    case AddEpoll(ok) =>
      var c := st.holder.c;
      if ok then st.(registered := st.registered[c.fd := c], holder := Added(c)) else st.(holder := Nobody)
    case AddEnd => st.(channels := st.channels[st.holder.c.fd := st.holder.c], holder := Nobody)
    case RemoveBegin(c) =>
      st.(waitRemove := st.waitRemove + [c], channels := st.channels - {c.fd}, holder := Removing(c))
    case RemoveEpoll => st.(registered := st.registered - {st.holder.c.fd}, holder := Removed(st.holder.c))
    case RemoveEnd =>
      st.(count := st.count + 1, owed := if st.count == 0 then st.owed + 1 else st.owed, holder := Nobody)
    case Notify => st.(owed := st.owed - 1, pipe := true)
    case Modify(c) => Modified(st, c)
    case Wait(batch) => st.(run := Dispatching(batch, 0))
    case Dispatch =>
      var batch, i := st.run.batch, st.run.begun;
      if i == |batch| then st.(run := Checking)
      else st.(pipe := if batch[i].ForPipe? then false else st.pipe, run := Dispatching(batch, i + 1))
    case Check => st.(run := if st.count != 0 then Clearing else Waiting)
    case Clear => st.(count := 0, waitRemove := [], run := Waiting)
  }

  /** Enable and Disable: EPOLL_CTL_MOD, with a pointer to the channel of the call. */
  function Modified(st: State, c: Channel): State {
    if c.fd in st.channels && c.fd in st.registered then st.(registered := st.registered[c.fd := c]) else st
  }

  predicate CanRun(st: State, steps: seq<Step>)
    decreases |steps|
  {
    steps == [] || (Enabled(st, steps[0]) && CanRun(Next(st, steps[0]), steps[1..]))
  }

  function Run(st: State, steps: seq<Step>): State
    requires CanRun(st, steps)
    decreases |steps|
  {
    if steps == [] then st else Run(Next(st, steps[0]), steps[1..])
  }

  // ----- What every step keeps -----

  /** Something owns c: the map, the list of channels to release, or the caller of an Add in progress. */
  predicate Held(st: State, c: Channel) {
    || (c.fd in st.channels && st.channels[c.fd] == c)
    || c in st.waitRemove
    || st.holder == Added(c)
  }

  /** What epoll points to is in the map, or on its way into it or out of it. */
  predicate RegisteredOk(st: State) {
    && (forall fd <- st.channels :: st.channels[fd].fd == fd)
    && (forall fd <- st.registered ::
          && st.registered[fd].fd == fd
          && (|| (fd in st.channels && st.channels[fd] == st.registered[fd])
              || st.holder == Added(st.registered[fd])
              || st.holder == Removing(st.registered[fd])))
    && (st.holder.Adding? || st.holder.Added? ==> st.holder.c.fd !in st.channels)
    && (st.holder.Removing? || st.holder.Removed? ==> st.holder.c in st.waitRemove && st.holder.c.fd !in st.channels)
  }

  predicate BatchOk(st: State) {
    st.run.Dispatching? ==>
      st.run.begun <= |st.run.batch| && forall r <- st.run.batch :: r.ForChannel? ==> Held(st, r.c)
  }

  predicate CountOk(st: State) {
    && (st.waitRemove != [] <==> st.count != 0 || st.holder.Removing? || st.holder.Removed?)
    && (st.run.Waiting? && st.count != 0 ==> st.pipe || st.owed > 0)
    && (st.run.Clearing? ==> st.count != 0)
  }

  predicate Inv(st: State) {
    RegisteredOk(st) && BatchOk(st) && CountOk(st)
  }

  lemma AddKept(st: State, step: Step)
    requires Inv(st) && Enabled(st, step) && (step.AddBegin? || step.AddEpoll? || step.AddEnd?)
    ensures Inv(Next(st, step))
  {
  }

  lemma RemoveKept(st: State, step: Step)
    requires Inv(st) && Enabled(st, step) && (step.RemoveBegin? || step.RemoveEpoll? || step.RemoveEnd?)
    ensures Inv(Next(st, step))
  {
  }

  lemma WaitKept(st: State, batch: seq<Ready>)
    requires Inv(st) && Enabled(st, Wait(batch))
    ensures Inv(Next(st, Wait(batch)))
  {
  }

  lemma OtherKept(st: State, step: Step)
    requires Inv(st) && Enabled(st, step)
    requires step.Notify? || step.Modify? || step.Dispatch? || step.Check? || step.Clear?
    ensures Inv(Next(st, step))
  {
  }

  lemma StepKept(st: State, step: Step)
    requires Inv(st) && Enabled(st, step)
    ensures Inv(Next(st, step))
  {
    hide Inv, Next, Enabled;
    match step
    case AddBegin(_) => AddKept(st, step);
    case AddEpoll(_) => AddKept(st, step);
    case AddEnd => AddKept(st, step);
    case RemoveBegin(_) => RemoveKept(st, step);
    case RemoveEpoll => RemoveKept(st, step);
    case RemoveEnd => RemoveKept(st, step);
    case Wait(batch) => WaitKept(st, batch);
    case _ => OtherKept(st, step);
  }

  lemma {:induction false} RunKept(st: State, steps: seq<Step>)
    requires Inv(st) && CanRun(st, steps)
    ensures Inv(Run(st, steps))
    decreases |steps|
  {
    if steps != [] {
      StepKept(st, steps[0]);
      RunKept(Next(st, steps[0]), steps[1..]);
    }
  }

  // ----- Main results, for every run -----

  /** epoll knows the channels of the map, and the one that is on its way into it or out of it. */
  predicate Synced(st: State) {
    st.registered == st.channels + match st.holder
                                   case Added(c) => map[c.fd := c]
                                   case Removing(c) => map[c.fd := c]
                                   case _ => map[]
  }

  lemma SyncedStep(st: State, step: Step)
    requires Inv(st) && Synced(st) && Enabled(st, step)
    ensures Synced(Next(st, step))
  {
    hide BatchOk, CountOk;
  }

  lemma {:induction false} SyncedKept(st: State, steps: seq<Step>)
    requires Inv(st) && Synced(st) && CanRun(st, steps)
    ensures Synced(Run(st, steps))
    decreases |steps|
  {
    hide Inv, Synced, Next, Enabled;
    if steps != [] {
      StepKept(st, steps[0]);
      SyncedStep(st, steps[0]);
      SyncedKept(Next(st, steps[0]), steps[1..]);
    }
  }

  /** Between calls, epoll knows exactly the channels of the map, even after a call of epoll_ctl that failed. */
  lemma MapIsRegistered(st0: State, steps: seq<Step>)
    requires Init(st0) && CanRun(st0, steps) && Run(st0, steps).holder.Nobody?
    ensures Run(st0, steps).registered == Run(st0, steps).channels
  {
    SyncedKept(st0, steps);
  }

  /**
   * Until the whole batch is done with, every channel in it, the one that is in
   * OnActive as well, is held by the map, by waitRemove, or by an Add in progress.
   */
  lemma DeferredRelease(st0: State, steps: seq<Step>, i: nat)
    requires Init(st0) && CanRun(st0, steps)
    requires Run(st0, steps).run.Dispatching? && i < |Run(st0, steps).run.batch|
    requires Run(st0, steps).run.batch[i].ForChannel?
    ensures Held(Run(st0, steps), Run(st0, steps).run.batch[i].c)
  {
    RunKept(st0, steps);
  }

  /**
   * Channels wait for their release exactly while clearWaitRemove counts them, but
   * for a Remove in progress; and if the thread in Run sleeps then, a byte in the
   * pipe, or a notify on its way, will wake it.
   */
  lemma ReleaseComes(st0: State, steps: seq<Step>)
    requires Init(st0) && CanRun(st0, steps)
    ensures var st := Run(st0, steps);
            && (st.holder.Nobody? ==> (st.waitRemove != [] <==> st.count != 0))
            && (st.holder.Nobody? && st.waitRemove != [] && st.run.Waiting? ==> st.pipe || st.owed > 0)
  {
    RunKept(st0, steps);
  }

  // ----- Calls with another channel than the registered one -----

  lemma {:induction false} RunConcat(st: State, a: seq<Step>, b: seq<Step>)
    requires CanRun(st, a) && CanRun(Run(st, a), b)
    ensures CanRun(st, a + b) && Run(st, a + b) == Run(Run(st, a), b)
    decreases |a|
  {
    if a == [] {
      assert a + b == b;
    } else {
      RunConcat(Next(st, a[0]), a[1..], b);
      assert (a + b)[1..] == a[1..] + b;
    }
  }

  lemma RunOne(st: State, step: Step)
    requires Enabled(st, step)
    ensures CanRun(st, [step]) && Run(st, [step]) == Next(st, step)
  {
    assert [step][1..] == [];
  }

  lemma RunFirst(st: State, step: Step, rest: seq<Step>)
    requires Enabled(st, step) && CanRun(Next(st, step), rest)
    ensures CanRun(st, [step] + rest) && Run(st, [step] + rest) == Run(Next(st, step), rest)
  {
    assert ([step] + rest)[1..] == rest;
  }

  /** The thread in Run goes through with what it is in, clears what waits, and sleeps again. */
  lemma Finishes(st: State) returns (steps: seq<Step>)
    requires st.holder.Nobody? && (st.run.Clearing? ==> st.count != 0)
    requires st.run.Dispatching? ==> st.run.begun <= |st.run.batch|
    requires st.waitRemove != [] ==> st.count != 0
    ensures CanRun(st, steps)
    ensures var t := Run(st, steps);
            && t.run.Waiting? && t.registered == st.registered && t.channels == st.channels && t.holder.Nobody?
            && (st.run.Waiting? ==> t == st) && (!st.run.Waiting? ==> t.waitRemove == [])
    decreases match st.run
              case Waiting => 0
              case Clearing => 1
              case Checking => 2
              case Dispatching(batch, begun) => 3 + |batch| - begun
  {
    hide CanRun, Run;
    if st.run.Waiting? {
      steps := [];
      RunNone(st);
    } else {
      var step := if st.run.Clearing? then Clear else if st.run.Checking? then Check else Dispatch;
      var rest := Finishes(Next(st, step));
      RunFirst(st, step, rest);
      steps := [step] + rest;
    }
  }

  lemma RunNone(st: State)
    ensures CanRun(st, []) && Run(st, []) == st
  {
  }

  /** Whatever happens from here on, epoll returns c only while it is held. */
  ghost predicate NeverDangles(st: State, c: Channel) {
    forall steps ::
      CanRun(st, steps) && Run(st, steps).run.Waiting? && CanReturn(Run(st, steps), [ForChannel(c)]) ==>
        Held(Run(st, steps), c)
  }

  lemma Returnable(st: State, c: Channel)
    requires c.fd in st.registered && st.registered[c.fd] == c
    ensures CanReturn(st, [ForChannel(c)])
  {
  }

  lemma ReturnedHeld(st: State, c: Channel)
    requires Inv(st) && CanReturn(st, [ForChannel(c)])
    ensures Held(st, c)
  {
    assert ForChannel(c) in [ForChannel(c)];
  }

  /** A channel registered in another's place is returned when nothing holds it: at once, or after one more batch. */
  lemma StaleDangles(st: State, c: Channel)
    requires st.holder.Nobody? && CountOk(st) && c.fd in st.registered && st.registered[c.fd] == c
    requires st.run.Dispatching? ==> st.run.begun <= |st.run.batch|
    requires c.fd in st.channels && st.channels[c.fd] != c
    ensures !NeverDangles(st, c)
  {
    hide CanRun, Run;
    var steps := Finishes(st);
    var t := Run(st, steps);
    Returnable(t, c);
    if Held(t, c) {
      var more := Finishes(Next(t, Wait([ForChannel(c)])));
      RunFirst(t, Wait([ForChannel(c)]), more);
      RunConcat(st, steps, [Wait([ForChannel(c)])] + more);
      Returnable(Run(st, steps + ([Wait([ForChannel(c)])] + more)), c);
    }
  }

  /**
   * Enable and Disable look up the descriptor, not the channel.  After such a call,
   * in whatever state, epoll never returns the channel of the call unheld if and
   * only if that channel is the one registered under its descriptor.
   */
  lemma StaleModify(st: State, c: Channel)
    requires Inv(st) && st.holder.Nobody? && c.fd in st.channels && c.fd in st.registered
    ensures NeverDangles(Modified(st, c), c) <==> Proper(st, c)
  {
    hide CanRun, Run, Held;
    if Proper(st, c) {
      assert Modified(st, c) == Next(st, Modify(c)) && Enabled(st, Modify(c));
      StepKept(st, Modify(c));
      forall steps | CanRun(Modified(st, c), steps) && Run(Modified(st, c), steps).run.Waiting?
                     && CanReturn(Run(Modified(st, c), steps), [ForChannel(c)])
        ensures Held(Run(Modified(st, c), steps), c)
      {
        RunKept(Modified(st, c), steps);
        ReturnedHeld(Run(Modified(st, c), steps), c);
      }
    } else {
      StaleDangles(Modified(st, c), c);
    }
  }

  /** A state reached from the start, and a channel whose descriptor belongs to another channel by now. */
  lemma StaleCall()
    ensures var added := [AddBegin(Channel(5, 1)), AddEpoll(true), AddEnd];
            && CanRun(START, added) && Init(START)
            && var st := Run(START, added);
               && Inv(st) && st.holder.Nobody? && !Proper(st, Channel(5, 2))
               && !NeverDangles(Modified(st, Channel(5, 2)), Channel(5, 2))
  {
    hide CanRun, Run, NeverDangles;
    var c := Channel(5, 1);
    var st1 := START.(holder := Adding(c));
    var st2 := st1.(registered := map[5 := c], holder := Added(c));
    var st3 := st2.(channels := map[5 := c], holder := Nobody);
    RunOne(st2, AddEnd);
    RunFirst(st1, AddEpoll(true), [AddEnd]);
    RunFirst(START, AddBegin(c), [AddEpoll(true)] + [AddEnd]);
    assert [AddBegin(c)] + ([AddEpoll(true)] + [AddEnd]) == [AddBegin(c), AddEpoll(true), AddEnd];
    StaleModify(st3, Channel(5, 2));
  }
}
