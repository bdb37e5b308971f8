/**
 * The TCPSocket protocol as interleaved atomic steps: user threads, one poller
 * thread and the pool tasks that run Do.  Each critical section, system call and
 * poller call is one step.
 */
module SocketModel {
  import opened Bytes

  /** The unsent bytes of one send context; never empty. */
  type Chunk = c: bytes | |c| > 0 witness ['\0']

  function Flat(l: seq<Chunk>): bytes {
    if l == [] then [] else l[0] + Flat(l[1..])
  }

  lemma {:induction false} FlatConcat(a: seq<Chunk>, b: seq<Chunk>)
    ensures Flat(a + b) == Flat(a) + Flat(b)
  {
    if a == [] {
      assert a + b == b;
    } else {
      assert (a + b)[1..] == a[1..] + b;
      FlatConcat(a[1..], b);
    }
  }

  /** The list after its first n bytes have been sent. */
  function Advance(l: seq<Chunk>, n: nat): (r: seq<Chunk>)
    requires n < |Flat(l)|
    ensures 0 < |r| <= |l|
  {
    if n >= |l[0]| then Advance(l[1..], n - |l[0]|)
    else [l[0][n..]] + l[1..]
  }

  lemma {:induction false} AdvanceFlat(l: seq<Chunk>, n: nat)
    requires n < |Flat(l)|
    ensures Flat(Advance(l, n)) == Flat(l)[n..]
  {
    if n >= |l[0]| {
      AdvanceFlat(l[1..], n - |l[0]|);
    } else {
      var r := [l[0][n..]] + l[1..];
      assert r[1..] == l[1..];
    }
  }

  const MAX_IOVEC: nat := 128
  const MAX_LOOP: nat := 10

  /** The contexts handed to one writev. */
  function Iovec(l: seq<Chunk>): seq<Chunk> {
    if |l| <= MAX_IOVEC then l else l[..MAX_IOVEC]
  }

  // ----- State -----

  /** What events report and system calls take back; the versions count events. */
  datatype Ready = Ready(readable: bool, readableVer: nat, writeable: bool, writeableVer: nat, socketError: bool)

  /** Which callbacks are set, and the high-water mark (0: none). */
  datatype Config = Config(recvCb: bool, flushCb: bool, errorCb: bool, closeCb: bool, highWaterSize: nat)

  /** The fields that the socket's mutex guards. */
  datatype Sock = Sock(
    r: Ready, closed: bool, closedOnFlush: bool, shutdown: bool, doing: bool,
    recvList: seq<nat>,
    sendLists: (seq<Chunk>, seq<Chunk>), slistIdx: bool, bytes4Send: nat,
    cfg: Config)
  {
    /** The list that ptrSendlist designates, and the other one. */
    function Queue(): seq<Chunk> {
      if slistIdx then sendLists.1 else sendLists.0
    }

    function Other(): seq<Chunk> {
      if slistIdx then sendLists.0 else sendLists.1
    }

    function WithLists(queue: seq<Chunk>, other: seq<Chunk>): (t: Sock)
      ensures t.Queue() == queue && t.Other() == other
    {
      this.(sendLists := if slistIdx then (other, queue) else (queue, other))
    }

    predicate HighWater() {
      cfg.highWaterSize > 0 && bytes4Send > cfg.highWaterSize
    }

    predicate CanRead() {
      (r.readable && recvList != []) || r.socketError
    }

    predicate CanWrite() {
      !shutdown && !closed && !r.socketError && ((r.writeable && Queue() != []) || HighWater())
    }
  }

  datatype Event = Event(read: bool, write: bool, error: bool)

  /** Fetched: returned by epoll_wait.  Disabled: write interest removed, the lock not yet taken. */
  datatype PollerPc = Polling | Fetched(ev: Event) | Disabled(ev: Event)

  datatype ReadOutcome = Got(n: nat) | ReadAgain | ReadFailed
  datatype WriteOutcome = Wrote(n: nat, all: bool) | WriteAgain | WriteFailed

  /** Where a running Do is, once it has passed the check at the top of its loop; i counts the rounds. */
  datatype Pc =
    | Receiving(i: nat, write: bool)
    | Reading(i: nat, write: bool, buf: nat, ver: nat)
    | ReadDone(i: nat, write: bool, buf: nat, ver: nat, got: ReadOutcome)
    | RecvFailed(i: nat, write: bool, callback: bool)
    | SendReady(i: nat)
    | Sending(i: nat, ver: nat)
    | Written(i: nat, ver: nat, out: WriteOutcome)
    | Enabling(i: nat)
    | Flushing(i: nat, close: bool)
    | SendFailed(i: nat, callback: bool)
    | Choked(i: nat)

  /** The socket inside the kernel and its epoll registration (edge triggered for reads). */
  datatype Kernel = Kernel(written: bytes, unread: nat, readEdge: bool, registered: bool, writeArmed: bool)

  /**
   * tops: the Do tasks at the top of their loop, by round; active: those past it;
   * closing: those inside doClose; owed: posts decided under the lock and not yet
   * made; queued: tasks in the pool.  accepted and lost are history.
   */
  datatype State = State(
    s: Sock, tops: multiset<nat>, active: seq<Pc>, closing: nat, owed: nat, queued: nat,
    poller: PollerPc, k: Kernel, started: bool, accepted: bytes, lost: bool)

  predicate Init(st: State) {
    && st.s.r == Ready(false, 0, false, 0, false)
    && !st.s.closed && !st.s.closedOnFlush && !st.s.shutdown && !st.s.doing
    && st.s.recvList == [] && st.s.sendLists == ([], []) && st.s.bytes4Send == 0
    && st.tops == multiset{} && st.active == [] && st.closing == st.owed == st.queued == 0
    && st.poller == Polling && !st.started && !st.k.registered && !st.k.writeArmed
    && st.k.written == [] && st.accepted == [] && !st.lost
  }

  // ----- Critical sections -----

  /** Claims the right to run Do when there is something to do; the flag says whether the caller posts a task. */
  function PostIf(s: Sock, work: bool): (r: (Sock, bool))
    ensures r.0 == s.(doing := s.doing || work) && r.1 == (work && !s.doing)
  {
    if !s.doing && work then (s.(doing := true), true) else (s, false)
  }

  /** The accepting part of _send. */
  function Enqueue(s: Sock, data: Chunk, closeOnFlush: bool): (t: Sock)
    ensures t.Queue() == s.Queue() + [data] && t.Other() == s.Other()
  {
    s.WithLists(s.Queue() + [data], s.Other()).(closedOnFlush := closeOnFlush, bytes4Send := s.bytes4Send + |data|)
  }

  predicate Refuses(s: Sock) {
    s.closed || s.shutdown || s.closedOnFlush
  }

  /** _send under the lock. */
  function LockedSend(s: Sock, data: Chunk, closeOnFlush: bool): (Sock, bool) {
    if Refuses(s) then (s, false)
    else
      var t := Enqueue(s, data, closeOnFlush);
      PostIf(t, t.r.writeable || t.HighWater())
  }

  /** _recv under the lock. */
  function LockedRecv(s: Sock, buf: nat): (Sock, bool) {
    if s.closed || !s.cfg.recvCb then (s, false)
    else PostIf(s.(recvList := s.recvList + [buf]), s.r.readable)
  }

  /** The flags that an event sets. */
  function Mark(r: Ready, ev: Event): Ready {
    Ready(r.readable || ev.read, if ev.read then r.readableVer + 1 else r.readableVer,
          r.writeable || ev.write, if ev.write then r.writeableVer + 1 else r.writeableVer,
          r.socketError || ev.error)
  }

  /** The locked part of OnActive. */
  function LockedActive(s: Sock, ev: Event): (Sock, bool) {
    var t := s.(r := Mark(s.r, ev));
    PostIf(t, t.CanRead() || t.CanWrite())
  }

  /** Close under the lock. */
  function LockedClose(s: Sock): (Sock, bool) {
    if s.closed then (s, false) else (s.(closed := true), s.cfg.closeCb && !s.doing)
  }

  /**
   * The first critical section of sendInWorker: nothing to write, the high-water
   * callback, or the queue detached for writing.
   */
  function LockedBegin(s: Sock, i: nat): (r: (Sock, Option<Pc>))
    ensures r.1.Some? && r.1.value.Sending? ==> r.0.Queue() == s.Other() && r.0.Other() == s.Queue()
  {
    if !s.CanWrite() then (s, None)
    else if !s.r.writeable && s.HighWater() then (s, Some(Choked(i)))
    else (s.(slistIdx := !s.slistIdx), Some(Sending(i, s.r.writeableVer)))
  }

  /** sendInWorker after writev, under the lock: the new fields and what the worker does next. */
  function LockedSent(s: Sock, i: nat, ver: nat, out: WriteOutcome): (Sock, Option<Pc>)
    requires out.Wrote? ==> out.n <= s.bytes4Send && (out.all || out.n < |Flat(s.Other())|)
  {
    match out
    case Wrote(n, all) =>
      var t := if all then s else s.WithLists(Advance(s.Other(), n) + s.Queue(), []);
      var u := t.(bytes4Send := s.bytes4Send - n);
      (u, if u.Queue() == [] && u.cfg.flushCb then Some(Flushing(i, s.closedOnFlush)) else None)
    case WriteAgain =>
      var t := s.WithLists(s.Other() + s.Queue(), []);
      if s.r.writeableVer == ver then (t.(r := s.r.(writeable := false)), Some(Enabling(i))) else (t, None)
    case WriteFailed =>
      if s.closed then (s, None) else (s.(r := s.r.(socketError := true)), Some(SendFailed(i, s.cfg.errorCb)))
  }

  // ----- Steps -----

  datatype Step =
    | UserSend(data: Chunk, closeOnFlush: bool)
    | UserRecv(buf: nat)
    | UserShutdown
    | UserClose
    | UserCallbacks(recvCb: bool, flushCb: bool, errorCb: bool, closeCb: bool)
    | UserStart
    | Post
    | StartTask
    | Check(i: nat)
    | Finish
    | RecvBegin(w: nat)
    | ReadCall(w: nat, got: ReadOutcome)
    | RecvEnd(w: nat)
    | RecvError(w: nat)
    | SendBegin(w: nat)
    | WriteCall(w: nat, out: WriteOutcome)
    | SendEnd(w: nat)
    | AfterSend(w: nat)
    | Fetch(ev: Event)
    | Disable
    | OnActive
    | DataArrives(n: nat)
    | SpuriousEdge

  function Remove(active: seq<Pc>, w: nat): seq<Pc>
    requires w < |active|
  {
    active[..w] + active[w + 1..]
  }

  /** Worker w starts its next round. */
  function BackToTop(st: State, w: nat): State
    requires w < |st.active|
  {
    var i := st.active[w].i + 1;
    st.(active := Remove(st.active, w), tops := st.tops[i := st.tops[i] + 1])
  }

  /** Worker w leaves recvInWorker. */
  function AfterRecv(st: State, w: nat): State
    requires w < |st.active|
    requires st.active[w].Receiving? || st.active[w].ReadDone? || st.active[w].RecvFailed?
  {
    if st.active[w].write then st.(active := st.active[w := SendReady(st.active[w].i)]) else BackToTop(st, w)
  }

  function WithPost(st: State, r: (Sock, bool)): State {
    st.(s := r.0, owed := if r.1 then st.owed + 1 else st.owed)
  }

  function CloseSocket(st: State): State {
    var st1 := WithPost(st, LockedClose(st.s));
    if st.s.closed then st1 else st1.(k := st.k.(registered := false))
  }

  function DoUserSend(st: State, data: Chunk, closeOnFlush: bool): State {
    var st1 := WithPost(st, LockedSend(st.s, data, closeOnFlush));
    if Refuses(st.s) then st1 else st1.(accepted := st.accepted + data)
  }

  /** Start: registration with epoll reports bytes that are already there. */
  function DoStart(st: State): State {
    st.(started := true,
        k := st.k.(registered := true, writeArmed := true, readEdge := st.k.readEdge || st.k.unread > 0))
  }

  /** The check at the top of the loop of Do, by a task in round i. */
  function DoCheck(st: State, i: nat): State
    requires i in st.tops
  {
    var st1 := st.(tops := st.tops[i := st.tops[i] - 1]);
    var r, w := st.s.CanRead(), st.s.CanWrite();
    if !(r || w) || st.s.closed then
      if !st.s.closed then st1.(s := st.s.(doing := false)) else st1.(closing := st.closing + 1)
    else if i >= MAX_LOOP then st1.(owed := st.owed + 1)
    else st1.(active := st.active + [if r then Receiving(i, w) else SendReady(i)])
  }

  /** doClose discards both send lists. */
  function DoFinish(st: State): State
    requires st.closing > 0
  {
    st.(closing := st.closing - 1, s := st.s.(sendLists := ([], [])), lost := true)
  }

  function DoRecvBegin(st: State, w: nat): State
    requires w < |st.active| && st.active[w].Receiving?
  {
    var pc := st.active[w];
    if !st.s.CanRead() then AfterRecv(st, w)
    else if st.s.r.socketError then st.(active := st.active[w := RecvFailed(pc.i, pc.write, st.s.cfg.errorCb)])
    else
      st.(s := st.s.(recvList := st.s.recvList[1..]),
          active := st.active[w := Reading(pc.i, pc.write, st.s.recvList[0], st.s.r.readableVer)])
  }

  predicate CanReadCall(st: State, w: nat, got: ReadOutcome) {
    && w < |st.active| && st.active[w].Reading?
    && (got.Got? ==> 0 < got.n <= st.active[w].buf && got.n <= st.k.unread)
    && (got.ReadAgain? ==> st.k.unread == 0)
  }

  function DoReadCall(st: State, w: nat, got: ReadOutcome): State
    requires CanReadCall(st, w, got)
  {
    var pc := st.active[w];
    var st1 := st.(active := st.active[w := ReadDone(pc.i, pc.write, pc.buf, pc.ver, got)]);
    if got.Got? then st1.(k := st.k.(unread := st.k.unread - got.n)) else st1
  }

  function DoRecvEnd(st: State, w: nat): State
    requires w < |st.active| && st.active[w].ReadDone?
  {
    var pc := st.active[w];
    match pc.got
    case Got(_) => AfterRecv(st, w)
    case ReadAgain =>
      var t := st.s.(recvList := [pc.buf] + st.s.recvList);
      AfterRecv(st.(s := if pc.ver == t.r.readableVer then t.(r := t.r.(readable := false)) else t), w)
    case ReadFailed =>
      st.(s := st.s.(r := st.s.r.(socketError := true)),
          active := st.active[w := RecvFailed(pc.i, pc.write, st.s.cfg.errorCb)])
  }

  function DoRecvError(st: State, w: nat): State
    requires w < |st.active| && st.active[w].RecvFailed?
  {
    AfterRecv(if st.active[w].callback then st else CloseSocket(st), w)
  }

  function DoSendBegin(st: State, w: nat): State
    requires w < |st.active| && st.active[w].SendReady?
  {
    var (t, next) := LockedBegin(st.s, st.active[w].i);
    var st1 := st.(s := t);
    if next.Some? then st1.(active := st.active[w := next.value]) else BackToTop(st1, w)
  }

  /** writev takes part of the vector, or reports an error; a list written to its end is cleared. */
  predicate CanWriteCall(st: State, w: nat, out: WriteOutcome) {
    && w < |st.active| && st.active[w].Sending?
    && (out.Wrote? ==>
          var total := |Flat(Iovec(st.s.Other()))|;
          && 0 < out.n <= total
          && out.all == (out.n == total && |st.s.Other()| <= MAX_IOVEC))
  }

  function DoWriteCall(st: State, w: nat, out: WriteOutcome): State
    requires CanWriteCall(st, w, out)
  {
    var pc := st.active[w];
    var st1 := st.(active := st.active[w := Written(pc.i, pc.ver, out)]);
    if out.Wrote? then
      var sent := Flat(Iovec(st.s.Other()))[..out.n];
      st1.(k := st.k.(written := st.k.written + sent),
           s := if out.all then st.s.WithLists(st.s.Queue(), []) else st.s)
    else st1
  }

  /** The counters that sendInWorker takes bytes off must hold them. */
  predicate CanSendEnd(st: State, w: nat) {
    && w < |st.active| && st.active[w].Written?
    && (st.active[w].out.Wrote? ==>
          st.active[w].out.n <= st.s.bytes4Send
          && (st.active[w].out.all || st.active[w].out.n < |Flat(st.s.Other())|))
  }

  function DoSendEnd(st: State, w: nat): State
    requires CanSendEnd(st, w)
  {
    var pc := st.active[w];
    var (t, next) := LockedSent(st.s, pc.i, pc.ver, pc.out);
    var st1 := st.(s := t, lost := st.lost || pc.out.WriteFailed?);
    if next.Some? then st1.(active := st.active[w := next.value]) else BackToTop(st1, w)
  }

  /** What sendInWorker does outside the lock at its end: Enable, a callback, or Close. */
  predicate CanAfterSend(st: State, w: nat) {
    && w < |st.active|
    && (st.active[w].Enabling? || st.active[w].Flushing? || st.active[w].SendFailed? || st.active[w].Choked?)
  }

  function DoAfterSend(st: State, w: nat): State
    requires CanAfterSend(st, w)
  {
    match st.active[w]
    case Enabling(_) => BackToTop(if st.k.registered then st.(k := st.k.(writeArmed := true)) else st, w)
    case Flushing(_, close) => BackToTop(if close then CloseSocket(st) else st, w)
    case SendFailed(_, callback) => BackToTop(if callback then st else CloseSocket(st), w)
    case _ => BackToTop(st, w)
  }

  /** epoll_wait: write events only while armed; a pending edge with bytes behind it is reported. */
  predicate CanFetch(st: State, ev: Event) {
    && st.poller == Polling && st.k.registered
    && (ev.write ==> st.k.writeArmed)
    && (st.k.readEdge && st.k.unread > 0 ==> ev.read)
  }

  function DoOnActive(st: State): State
    requires !st.poller.Polling?
  {
    WithPost(st, LockedActive(st.s, st.poller.ev)).(poller := Polling)
  }

  predicate Enabled(st: State, step: Step) {
    match step
    case UserSend(_, _) => true
    case UserRecv(buf) => buf > 0
    case UserShutdown => true
    case UserClose => true
    case UserCallbacks(_, _, _, _) => true
    case UserStart => !st.started
    case Post => st.owed > 0
    case StartTask => st.queued > 0
    case Check(i) => i in st.tops
    case Finish => st.closing > 0
    case RecvBegin(w) => w < |st.active| && st.active[w].Receiving?
    case ReadCall(w, got) => CanReadCall(st, w, got)
    case RecvEnd(w) => w < |st.active| && st.active[w].ReadDone?
    case RecvError(w) => w < |st.active| && st.active[w].RecvFailed?
    case SendBegin(w) => w < |st.active| && st.active[w].SendReady?
    case WriteCall(w, out) => CanWriteCall(st, w, out)
    case SendEnd(w) => CanSendEnd(st, w)
    case AfterSend(w) => CanAfterSend(st, w)
    case Fetch(ev) => CanFetch(st, ev)
    case Disable => st.poller.Fetched? && st.poller.ev.write
    case OnActive => st.poller.Disabled? || (st.poller.Fetched? && !st.poller.ev.write)
    case DataArrives(n) => n > 0
    case SpuriousEdge => true
  }

  function Next(st: State, step: Step): State
    requires Enabled(st, step)
  {
    match step
    case UserSend(data, closeOnFlush) => DoUserSend(st, data, closeOnFlush)
    case UserRecv(buf) => WithPost(st, LockedRecv(st.s, buf))
    case UserShutdown => if st.s.closed then st else st.(s := st.s.(shutdown := true))
    case UserClose => CloseSocket(st)
    case UserCallbacks(r, f, e, c) => st.(s := st.s.(cfg := Config(r, f, e, c, st.s.cfg.highWaterSize)))
    case UserStart => DoStart(st)
    case Post => st.(owed := st.owed - 1, queued := st.queued + 1)
    case StartTask => st.(queued := st.queued - 1, tops := st.tops[0 := st.tops[0] + 1])
    case Check(i) => DoCheck(st, i)
    case Finish => DoFinish(st)
    case RecvBegin(w) => DoRecvBegin(st, w)
    case ReadCall(w, got) => DoReadCall(st, w, got)
    case RecvEnd(w) => DoRecvEnd(st, w)
    case RecvError(w) => DoRecvError(st, w)
    case SendBegin(w) => DoSendBegin(st, w)
    case WriteCall(w, out) => DoWriteCall(st, w, out)
    case SendEnd(w) => DoSendEnd(st, w)
    case AfterSend(w) => DoAfterSend(st, w)
    case Fetch(ev) => st.(poller := Fetched(ev), k := st.k.(readEdge := false))
    case Disable =>
      st.(poller := Disabled(st.poller.ev),
          k := if st.k.registered then st.k.(writeArmed := false) else st.k)
    case OnActive => DoOnActive(st)
    case DataArrives(n) => st.(k := st.k.(unread := st.k.unread + n, readEdge := true))
    case SpuriousEdge => st.(k := st.k.(readEdge := true))
  }

  /** A run: a sequence of enabled steps from st. */
  predicate CanRun(st: State, steps: seq<Step>)
    decreases |steps|
  {
    steps == [] || (Enabled(st, steps[0]) && CanRun(Next(st, steps[0]), steps[1..]))
  }

  function Run(st: State, steps: seq<Step>): State
    requires CanRun(st, steps)
    decreases |steps|
  {
    if steps == [] then st else Run(Next(st, steps[0]), steps[1..])
  }
}
