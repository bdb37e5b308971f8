/** http_parser_execute: the loop over a buffer, with marks and callbacks. */
module HttpExecute {
  import opened Bytes
  import opened HttpSyntax
  import opened HttpMachine

  /** The callbacks, in order. */
  datatype Event = Data(part: Part, bytes: bytes) | Note(notice: Notice)

  type Marks = map<Part, nat>

  /** A call in progress: registers, marks, callbacks made so far. */
  datatype Call = Call(p: Parser, marks: Marks, events: seq<Event>)

  /** Ran: the whole buffer was taken.  Left: the call ended early, for another protocol. */
  datatype Stop = Ran | Left | Failed(errno: Errno)

  /** The registers and callbacks at the end of a call, its return value, and why it ended. */
  datatype Returned = Returned(p: Parser, events: seq<Event>, n: nat, stop: Stop)

  /** The part whose data the parser is in the middle of, by state. */
  function PartOf(s: State): Option<Part> {
    if s.HeaderField? then Some(Field)
    else if s.HeaderValue? then Some(Value)
    else if s.ResStatus? then Some(Status)
    else if UrlState(s) then Some(Url)
    else None
  }

  function StartMarks(s: State): Marks {
    if PartOf(s).Some? then map[PartOf(s).value := 0] else map[]
  }

  predicate MarksOk(marks: Marks, i: nat) {
    forall k <- marks :: marks[k] <= i
  }

  /** The data callback for a mark that is set, up to position end. */
  function Delivery(data: bytes, marks: Marks, part: Part, end: nat): seq<Event>
    requires end <= |data| && MarksOk(marks, end)
  {
    if part in marks then [Data(part, data[marks[part]..end])] else []
  }

  function WithMark(marks: Marks, part: Option<Part>, i: nat): Marks {
    if part.Some? && part.value !in marks then marks[part.value := i] else marks
  }

  /** Counts a header byte. */
  function Counted(p: Parser): Parser {
    if ParsingHeader(p.state) then p.(nread := p.nread + 1) else p
  }

  predicate Overflows(p: Parser) {
    ParsingHeader(p.state) && p.nread > MAX_HEADER_SIZE
  }

  /** Where a flush at position i ends. */
  function FlushEnd(p: Parser, i: nat, avail: nat): (e: nat)
    requires avail > 0
    ensures i <= e <= i + avail
  {
    if Inclusive(p) then i + Taken(p, avail) else i + Taken(p, avail) - 1
  }

  /** Marks and callbacks of arm a at position i; a flush ends at end. */
  function AfterArm(data: bytes, i: nat, end: nat, c: Call, a: Arm): (r: Call)
    requires i <= end <= |data| && MarksOk(c.marks, i)
    ensures MarksOk(r.marks, i)
  {
    var marks := WithMark(c.marks, a.mark, i);
    var flushed := if a.flush.Some? then Delivery(data, marks, a.flush.value, end) else [];
    var noted := if a.notice.Some? then [Note(a.notice.value)] else [];
    Call(a.p, if a.flush.Some? then marks - {a.flush.value} else marks, c.events + flushed + noted)
  }

  /** One pass at position i, up to its control. */
  function AfterPass(data: bytes, i: nat, c: Call): (r: Call)
    requires i < |data| && MarksOk(c.marks, i)
    ensures MarksOk(r.marks, i)
  {
    AfterArm(data, i, FlushEnd(c.p, i, |data| - i), c, Pass(c.p, data[i], |data| - i))
  }

  /** The leftover mark at the end of the buffer. */
  function Leftovers(data: bytes, marks: Marks): seq<Event>
    requires MarksOk(marks, |data|)
  {
    Delivery(data, marks, Field, |data|) + Delivery(data, marks, Value, |data|) + Delivery(data, marks, Url, |data|)
    + Delivery(data, marks, Body, |data|) + Delivery(data, marks, Status, |data|)
  }

  /** The loop from position i on. */
  function Loop(data: bytes, i: nat, c: Call): Returned
    requires i <= |data| && MarksOk(c.marks, i)
    decreases |data| - i, 4
  {
    if i == |data| then
      if |c.marks| > 1 then Returned(c.p, c.events, |data|, Failed(AssertionFailed))
      else Returned(c.p, c.events + Leftovers(data, c.marks), |data|, Ran)
    else
      var p := Counted(c.p);
      if Overflows(p) then Returned(p, c.events, i, Failed(HeaderOverflow))
      else Switch(data, i, c.(p := p))
  }

  /** The switch, reexecuted for the same byte as often as it asks for. */
  function Switch(data: bytes, i: nat, c: Call): Returned
    requires i < |data| && MarksOk(c.marks, i)
    decreases |data| - i, Rank(c.p.state)
  {
    var a := Pass(c.p, data[i], |data| - i);
    var r := AfterPass(data, i, c);
    var j := i + Taken(c.p, |data| - i) - 1;
    match a.control
    case Break => Loop(data, j + 1, r)
    case Again => Switch(data, j, r)
    case Exit => Returned(r.p, r.events, j + 1, Left)
    case Fail(e) => Returned(r.p, r.events, j, Failed(e))
  }

  /** A call with a non-empty buffer and a parser that has not failed. */
  function Run(p: Parser, data: bytes): Returned {
    Loop(data, 0, Call(p, StartMarks(p.state), []))
  }

  /** Between messages: the stream may end here. */
  predicate AtMessageStart(s: State) {
    s.Dead? || s.StartReqOrRes? || s.StartRes? || s.StartReq?
  }

  /** The call with an empty buffer: the end of the stream. */
  function AtEof(p: Parser): Returned {
    if p.state.BodyIdentityEof? then Returned(p, [Note(MessageComplete)], 0, Ran)
    else if AtMessageStart(p.state) then Returned(p, [], 0, Ran)
    else Returned(p, [], 1, Failed(InvalidEofState))
  }

  function ExecuteSpec(p: Parser, data: bytes): Returned {
    if data == [] then AtEof(p) else Run(p, data)
  }

  class HttpParser {
    var p: Parser
    var errno: Option<Errno>

    constructor (kind: Kind)
      ensures p == Fresh(kind) && errno == None
    {
      p, errno := Fresh(kind), None;
    }

    /** One pass through the switch, with its marks and callbacks. */
    method OnePass(data: bytes, i: nat, marks: Marks, events: seq<Event>)
      returns (j: nat, marks': Marks, events': seq<Event>, control: Control)
      requires i < |data| && MarksOk(marks, i)
      modifies this`p
      ensures var a := Pass(old(p), data[i], |data| - i);
              j == i + Taken(old(p), |data| - i) - 1 && control == a.control && p == a.p
      ensures Call(p, marks', events') == AfterPass(data, i, Call(old(p), marks, events))
    {
      hide Pass;
      var a := Pass(p, data[i], |data| - i);
      marks', events', control := WithMark(marks, a.mark, i), events, a.control;
      j := i + Taken(p, |data| - i) - 1;
      var end := FlushEnd(p, i, |data| - i);
      p := a.p;
      if a.flush.Some? {
        if a.flush.value in marks' {
          events' := events' + [Data(a.flush.value, data[marks'[a.flush.value]..end])];
        }
        marks' := marks' - {a.flush.value};
      }
      if a.notice.Some? {
        events' := events' + [Note(a.notice.value)];
      }
    }

    /** Passes over one byte until it is consumed. */
    method ReexecuteByte(data: bytes, i: nat, marks: Marks, events: seq<Event>)
      returns (j: nat, marks': Marks, events': seq<Event>, control: Control)
      requires i < |data| && MarksOk(marks, i)
      modifies this`p
      ensures i <= j < |data| && MarksOk(marks', j + 1) && control != Again
      ensures Switch(data, i, Call(old(p), marks, events)) ==
              match control
              case Break => Loop(data, j + 1, Call(p, marks', events'))
              case Exit => Returned(p, events', j + 1, Left)
              case Fail(e) => Returned(p, events', j, Failed(e))
    {
      hide Pass, Taken, Loop, AfterPass;
      j, marks', events', control := i, marks, events, Again;
      while control == Again
        invariant i <= j < |data| && MarksOk(marks', if control == Again then j else j + 1)
        invariant Switch(data, i, Call(old(p), marks, events)) ==
                  match control
                  case Again => Switch(data, j, Call(p, marks', events'))
                  case Break => Loop(data, j + 1, Call(p, marks', events'))
                  case Exit => Returned(p, events', j + 1, Left)
                  case Fail(e) => Returned(p, events', j, Failed(e))
        decreases control == Again, |data| - j, Rank(p.state)
      {
        j, marks', events', control := OnePass(data, j, marks', events');
      }
    }

    /** http_parser_execute; events stands for the callbacks made. */
    method Execute(data: bytes) returns (n: nat, events: seq<Event>, ghost stop: Stop)
      modifies this
      ensures old(errno).Some? ==> p == old(p) && errno == old(errno) && n == 0 && events == []
      ensures old(errno).None? ==>
                && Returned(p, events, n, stop) == ExecuteSpec(old(p), data)
                && errno == if stop.Failed? then Some(stop.errno) else None
    {
      n, events, stop := 0, [], Ran;
      if errno.Some? {
        return;
      }
      if |data| == 0 {
        if p.state.BodyIdentityEof? {
          events := [Note(MessageComplete)];
        } else if !AtMessageStart(p.state) {
          errno := Some(InvalidEofState);
          stop := Failed(InvalidEofState);
          n := 1;
        }
      } else {
        n, events, stop := ExecuteBuffer(data);
      }
    }

    /** Counts header bytes; true beyond the limit. */
    method CountByte() returns (over: bool)
      modifies this`p
      ensures p == Counted(old(p)) && over == Overflows(p)
    {
      over := false;
      if ParsingHeader(p.state) {
        p := p.(nread := p.nread + 1);
        over := p.nread > MAX_HEADER_SIZE;
      }
    }

    method ExecuteBuffer(data: bytes) returns (n: nat, events: seq<Event>, ghost stop: Stop)
      requires errno == None
      modifies this
      ensures Returned(p, events, n, stop) == Run(old(p), data)
      ensures errno == if stop.Failed? then Some(stop.errno) else None
    {
      hide Pass, Switch, Leftovers, Counted, Overflows;
      n, events, stop := 0, [], Ran;
      var marks: Marks := StartMarks(p.state);
      var i := 0;
      ghost var spec := Run(p, data);
      while i != |data|
        invariant 0 <= i <= |data| && MarksOk(marks, i) && errno == None
        invariant spec == Loop(data, i, Call(p, marks, events))
        decreases |data| - i
      {
        var over := CountByte();
        if over {
          errno := Some(HeaderOverflow);
          n, stop := i, Failed(HeaderOverflow);
          return;
        }
        var control;
        i, marks, events, control := ReexecuteByte(data, i, marks, events);
        if control == Exit {
          n, stop := i + 1, Left;
          return;
        }
        if control.Fail? {
          errno := Some(control.errno);
          n, stop := i, Failed(control.errno);
          return;
        }
        i := i + 1;
      }
      n := |data|;
      if |marks| > 1 {
        errno := Some(AssertionFailed);
        stop := Failed(AssertionFailed);
      } else {
        events := events + Leftovers(data, marks);
      }
    }
  }
}
