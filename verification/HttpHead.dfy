/**
 * The header of a printed message, parsed in one call.  What frames the body, and
 * whether another message may follow, are read off the text of the header lines.
 */
module HttpHead {
  import opened Bytes
  import opened HttpSyntax
  import opened HttpMachine
  import opened HttpExecute
  import opened HttpSplit
  import opened HttpBatch
  import opened HttpRequestLine
  import opened HttpStatusLine
  import opened HttpHeaders
  import opened HttpUrl

  datatype Start =
    | RequestStart(verb: Method, url: bytes, major: nat, minor: nat)
    | ResponseStart(major: nat, minor: nat, code: nat, reason: bytes)

  datatype Head = Head(start: Start, lines: seq<Header>)

  // ----- The text of a header -----

  function StartText(s: Start): bytes {
    match s
    case RequestStart(verb, url, major, minor) => RequestLine(verb, url, major, minor)
    case ResponseStart(major, minor, code, reason) => StatusText(major, minor, code, reason)
  }

  function LinesText(hs: seq<Header>): bytes {
    if hs == [] then [] else LineText(hs[0]) + LinesText(hs[1..])
  }

  function HeadText(h: Head): bytes {
    StartText(h.start) + (LinesText(h.lines) + CRLF)
  }

  predicate StartOk(s: Start) {
    match s
    case RequestStart(verb, url, major, minor) => UrlForm(url, verb == CONNECT) && 1 <= major <= 999 && minor <= 999
    case ResponseStart(major, minor, code, reason) => major <= 999 && minor <= 999 && code <= 999 && ReasonOk(reason)
  }

  predicate LinesOk(hs: seq<Header>) {
    forall h <- hs :: HeaderOk(h)
  }

  predicate HeadOk(h: Head) {
    StartOk(h.start) && LinesOk(h.lines)
  }

  // ----- What the header lines say -----

  predicate Chunked(hs: seq<Header>) {
    exists h <- hs :: Lowered(h.name) == "transfer-encoding" && Word(h.value, "chunked")
  }

  predicate Keeps(hs: seq<Header>) {
    exists h <- hs :: IsConnection(h.name) && Word(h.value, "keep-alive")
  }

  predicate Closes(hs: seq<Header>) {
    exists h <- hs :: IsConnection(h.name) && Word(h.value, "close")
  }

  predicate Upgrades(hs: seq<Header>) {
    exists h <- hs :: Lowered(h.name) == "upgrade" && h.value != []
  }

  /** The last Content-Length. */
  function LastLength(hs: seq<Header>): Option<nat>
    requires LinesOk(hs)
  {
    if hs == [] then None
    else
      var h := hs[|hs| - 1];
      if IsLength(h.name) then Some(LengthSet(0, h)) else LastLength(hs[..|hs| - 1])
  }

  datatype Framing = NoBody | Measured(n: nat) | Coded | ToEof

  /** How the end of the body is found. */
  function FramingOf(h: Head): Framing
    requires HeadOk(h)
  {
    if Chunked(h.lines) then Coded
    else
      match LastLength(h.lines)
      case Some(n) => if n == 0 then NoBody else Measured(n)
      case None =>
        if h.start.RequestStart? || h.start.code / 100 == 1 || h.start.code == 204 || h.start.code == 304 then NoBody
        else ToEof
  }

  /** Another message may follow on the same connection. */
  predicate KeepsOpen(h: Head)
    requires HeadOk(h)
  {
    && FramingOf(h) != ToEof
    && if h.start.major > 0 && h.start.minor > 0 then !Closes(h.lines) else Keeps(h.lines)
  }

  /** The state in which the next message is expected. */
  function NextState(h: Head): State
    requires HeadOk(h)
  {
    if !KeepsOpen(h) then Dead else if h.start.RequestStart? then StartReq else StartRes
  }

  /** What follows is for another protocol. */
  predicate Switches(h: Head) {
    Upgrades(h.lines) || (h.start.RequestStart? && h.start.verb == CONNECT)
  }

  /** Nothing is read behind the header. */
  predicate EndsThere(h: Head)
    requires HeadOk(h)
  {
    Switches(h) || FramingOf(h).NoBody?
  }

  // ----- The callbacks of a header -----

  function StartEvents(s: Start): seq<Event> {
    [Note(MessageBegin)] + if s.RequestStart? then [Data(Url, s.url)] else ReasonEvents(s.reason)
  }

  function LineEvents(hs: seq<Header>): seq<Event> {
    if hs == [] then [] else [Data(Field, hs[0].name)] + [Data(Value, hs[0].value)] + LineEvents(hs[1..])
  }

  function EndEvents(h: Head): seq<Event>
    requires HeadOk(h)
  {
    [Note(HeadersComplete)] + if EndsThere(h) then [Note(MessageComplete)] else []
  }

  function HeadEvents(h: Head): seq<Event>
    requires HeadOk(h)
  {
    StartEvents(h.start) + LineEvents(h.lines) + EndEvents(h)
  }

  // ----- Header lines -----

  function FlaggedAll(fl: Flags, hs: seq<Header>): Flags
    decreases |hs|
  {
    if hs == [] then fl else FlaggedAll(Flagged(fl, hs[0]), hs[1..])
  }

  function LengthAll(n: uint64, hs: seq<Header>): uint64
    requires LinesOk(hs)
    decreases |hs|
  {
    if hs == [] then n else LengthAll(LengthSet(n, hs[0]), hs[1..])
  }

  /** The registers after header lines. */
  predicate PastAll(p: Parser, q: Parser, hs: seq<Header>)
    requires LinesOk(hs)
  {
    q == p.(nread := p.nread + |LinesText(hs)|, flags := FlaggedAll(p.flags, hs),
            contentLength := LengthAll(p.contentLength, hs), state := HeaderFieldStart,
            header := q.header, index := q.index)
  }

  lemma PastMore(p: Parser, q: Parser, r: Parser, hs: seq<Header>)
    requires LinesOk(hs) && hs != [] && LinesOk(hs[1..]) && HeaderOk(hs[0])
    requires Past(p, q, hs[0]) && PastAll(q, r, hs[1..])
    ensures PastAll(p, r, hs)
  {
    hide Flagged, LengthSet, HeaderOk, LinesOk;
  }

  /** What may follow a header line: not a continuation of it. */
  predicate TailOk(tail: bytes) {
    tail != [] && tail[0] != ' ' && tail[0] != '\t'
  }

  lemma NextNotBlank(hs: seq<Header>, tail: bytes)
    requires LinesOk(hs) && TailOk(tail)
    ensures TailOk(LinesText(hs) + tail)
  {
    hide IsLength, LengthOk, ValueOk;
    if hs == [] {
      assert LinesText(hs) + tail == tail;
    } else {
      assert HeaderOk(hs[0]);
      TokenNotBlank(hs[0].name[0]);
    }
  }

  lemma TailFits(data: bytes, i: nat, w: bytes)
    requires Holds(data, i, w) && TailOk(w)
    ensures i < |data| && data[i] == w[0] && i + |w| <= |data| && data[i] != ' ' && data[i] != '\t'
  {
  }

  lemma TailOfLines(hs: seq<Header>, tail: bytes)
    requires hs != []
    ensures LinesText(hs) + tail == LineText(hs[0]) + (LinesText(hs[1..]) + tail)
    ensures |LineText(hs[0])| == |hs[0].name| + |hs[0].value| + 3
  {
  }

  lemma FirstOk(hs: seq<Header>)
    requires LinesOk(hs) && hs != []
    ensures HeaderOk(hs[0]) && LinesOk(hs[1..])
  {
    hide HeaderOk;
  }

  /** Header lines, and the position behind them, where tail follows. */
  lemma {:induction false} LinesLoop(data: bytes, i: nat, c: Call, hs: seq<Header>, tail: bytes) returns (q: Parser)
    requires LinesOk(hs) && TailOk(tail) && c.p.state.HeaderFieldStart? && c.marks == map[]
    requires i < |data| && Holds(data, i, LinesText(hs) + tail)
    requires c.p.nread + |LinesText(hs)| <= MAX_HEADER_SIZE
    ensures PastAll(c.p, q, hs)
    ensures var j := i + |LinesText(hs)|;
            && j < |data| && Holds(data, j, tail)
            && Switch(data, i, c) == Switch(data, j, Call(q, map[], c.events + LineEvents(hs)))
    decreases |hs|
  {
    hide Switch, Holds, TailOk, LinesOk, HeaderOk, LineText, LinesText, LineEvents, Flagged, LengthSet;
    if hs == [] {
      q := c.p;
      NoLines(hs);
      assert [] + tail == tail && c.events + [] == c.events;
      TailFits(data, i, tail);
    } else {
      var h := hs[0];
      var rest := LinesText(hs[1..]) + tail;
      FirstOk(hs);
      TailOfLines(hs, tail);
      HoldsSplit(data, i, LineText(h), rest);
      NextNotBlank(hs[1..], tail);
      var j := i + |LineText(h)|;
      TailFits(data, j, rest);
      LinesGrow(hs, c.events);
      var p := HeaderLine(data, i, c, h);
      PastCount(c.p, p, h);
      var c' := Call(p, map[], c.events + [Data(Field, h.name)] + [Data(Value, h.value)]);
      q := LinesLoop(data, j, c', hs[1..], tail);
      PastMore(c.p, p, q, hs);
    }
  }

  lemma NoLines(hs: seq<Header>)
    requires hs == []
    ensures LinesText(hs) == [] && LineEvents(hs) == []
  {
  }

  lemma LinesGrow(hs: seq<Header>, events: seq<Event>)
    requires hs != []
    ensures |LinesText(hs)| == |LineText(hs[0])| + |LinesText(hs[1..])|
    ensures events + [Data(Field, hs[0].name)] + [Data(Value, hs[0].value)] + LineEvents(hs[1..]) ==
            events + LineEvents(hs)
  {
    var f, v, more := [Data(Field, hs[0].name)], [Data(Value, hs[0].value)], LineEvents(hs[1..]);
    assert LineEvents(hs) == f + v + more;
    hide LineEvents, LinesText, LineText;
    Regrouped(events, f, v, more);
  }

  lemma Regrouped(e: seq<Event>, a: seq<Event>, b: seq<Event>, c: seq<Event>)
    ensures e + a + b + c == e + (a + b + c)
  {
  }

  lemma PastCount(p: Parser, q: Parser, h: Header)
    requires HeaderOk(h) && Past(p, q, h)
    ensures q.nread == p.nread + |LineText(h)| && q.state.HeaderFieldStart?
  {
    hide Flagged, LengthSet, HeaderOk;
  }

  // ----- Flags and length are what the text says -----

  lemma {:induction false} FlagsText(fl: Flags, hs: seq<Header>)
    ensures FlaggedAll(fl, hs) ==
            Flags(fl.chunked || Chunked(hs), fl.keepAlive || Keeps(hs), fl.close || Closes(hs),
                  fl.trailing, fl.upgrade || Upgrades(hs))
    decreases |hs|
  {
    hide Lowered, Word, IsConnection;
    if hs != [] {
      FlagsText(Flagged(fl, hs[0]), hs[1..]);
      assert forall h :: h in hs <==> h == hs[0] || h in hs[1..];
    }
  }

  lemma {:induction false} LengthText(n: uint64, hs: seq<Header>)
    requires LinesOk(hs)
    ensures LengthAll(n, hs) == if LastLength(hs).Some? then LastLength(hs).value else n
    ensures LastLength(hs).Some? ==> LastLength(hs).value < ULLONG_MAX
    decreases |hs|
  {
    hide HeaderOk, IsLength;
    if hs != [] {
      var k := |hs| - 1;
      LengthText(n, hs[..k]);
      LengthAllSnoc(n, hs);
      LengthSmall(hs[k]);
    }
  }

  lemma LengthSmall(h: Header)
    requires HeaderOk(h)
    ensures IsLength(h.name) ==> LengthSet(0, h) < ULLONG_MAX
    ensures forall n: uint64 :: LengthSet(n, h) == if IsLength(h.name) then LengthSet(0, h) else n
  {
    if IsLength(h.name) {
      LengthPrefix(h.value);
    }
  }

  lemma {:induction false} LengthAllSnoc(n: uint64, hs: seq<Header>)
    requires LinesOk(hs) && hs != []
    ensures LengthAll(n, hs) == LengthSet(LengthAll(n, hs[..|hs| - 1]), hs[|hs| - 1])
    decreases |hs|
  {
    hide HeaderOk, LengthSet;
    var k := |hs| - 1;
    if k == 0 {
      assert hs[1..] == [] && hs[..0] == [];
    } else {
      LengthAllSnoc(LengthSet(n, hs[0]), hs[1..]);
      assert hs[1..][..k - 1] == hs[..k][1..];
    }
  }

  // ----- The blank line -----

  lemma BlankCr(data: bytes, i: nat, c: Call)
    requires i < |data| && data[i] == '\r' && c.p.state.HeaderFieldStart? && c.marks == map[]
    ensures Switch(data, i, c) == Loop(data, i + 1, Call(c.p.(state := HeadersAlmostDone), map[], c.events))
  {
    hide Loop, Pass;
    var a := To(c.p, HeadersAlmostDone);
    assert Pass(c.p, data[i], |data| - i) == a by { CrPass(c.p, |data| - i); }
    PlainSwitch(data, i, c, a);
    assert c.events + [] + [] == c.events;
  }

  lemma CrPass(p: Parser, avail: nat)
    requires avail > 0 && p.state.HeaderFieldStart?
    ensures Pass(p, '\r', avail) == To(p, HeadersAlmostDone)
  {
  }

  lemma EndPasses(p: Parser, avail: nat)
    requires avail > 0
    ensures p.state.HeadersAlmostDone? && !p.flags.trailing ==>
              Pass(p, '\n', avail) ==
              Retry(p.(upgrade := p.flags.upgrade || p.line.verb == CONNECT), HeadersDone).(
                notice := Some(HeadersComplete))
    ensures p.state.HeadersDone? ==> Pass(p, '\n', avail) == ArmHeadersEnd(p, '\n')
  {
    hide ShouldKeepAlive;
  }

  function LineOf(s: Start, l: Line): Line {
    match s
    case RequestStart(verb, url, major, minor) => l.(verb := verb, major := major, minor := minor)
    case ResponseStart(major, minor, code, reason) => l.(status := code, major := major, minor := minor)
  }

  function KindOf(s: Start): Kind {
    if s.RequestStart? then Request else Response
  }

  /** p has read the lines of h. */
  predicate Read(p: Parser, h: Head)
    requires HeadOk(h)
  {
    && p.flags == Flags(Chunked(h.lines), Keeps(h.lines), Closes(h.lines), false, Upgrades(h.lines))
    && p.contentLength == (if LastLength(h.lines).Some? then LastLength(h.lines).value else ULLONG_MAX)
    && (LastLength(h.lines).Some? ==> LastLength(h.lines).value < ULLONG_MAX)
    && p.kind == KindOf(h.start)
    && p.line == LineOf(h.start, p.line)
    && (p.line.verb == CONNECT ==> h.start.RequestStart?)
  }

  /** The state behind the blank line. */
  function StateBehind(h: Head): State
    requires HeadOk(h)
  {
    if EndsThere(h) then NextState(h)
    else
      match FramingOf(h)
      case NoBody => NextState(h)
      case Measured(n) => BodyIdentity
      case Coded => ChunkSizeStart
      case ToEof => BodyIdentityEof
  }

  /** Whether the message is over is what the text says. */
  lemma NextIsText(p: Parser, h: Head)
    requires HeadOk(h) && Read(p, h)
    ensures NewMessage(p) == NextState(h)
    ensures NeedsEof(p) <==> FramingOf(h).ToEof?
  {
    hide HeadOk, Chunked, Keeps, Closes, Upgrades, LastLength;
  }

  lemma EndIsText(p: Parser, h: Head)
    requires HeadOk(h) && Read(p, h) && p.state.HeadersDone? && p.upgrade == Switches(h)
    ensures ArmHeadersEnd(p, '\n') ==
            Go(p.(nread := 0, state := StateBehind(h))).(
              notice := if EndsThere(h) then Some(MessageComplete) else None,
              control := if Switches(h) then Exit else Break)
  {
    var q := p.(nread := 0);
    NextIsText(q, h);
    hide HeadOk, Chunked, Keeps, Closes, Upgrades, LastLength, NewMessage, NeedsEof, KeepsOpen;
  }

  lemma LastByte(data: bytes, i: nat, c: Call, h: Head)
    requires i + 1 == |data| && data[i] == '\n' && c.p.state.HeadersDone? && c.marks == map[]
    requires HeadOk(h) && Read(c.p, h) && c.p.upgrade == Switches(h)
    ensures Switch(data, i, c) ==
            Returned(c.p.(nread := 0, state := StateBehind(h)),
                     c.events + (if EndsThere(h) then [Note(MessageComplete)] else []), |data|,
                     if Switches(h) then Left else Ran)
  {
    hide Loop, Pass, ArmHeadersEnd, StateBehind, EndsThere, Upgrades, Switches, Read, HeadOk;
    EndPasses(c.p, 1);
    EndIsText(c.p, h);
    var a := ArmHeadersEnd(c.p, '\n');
    PlainSwitch(data, i, c, a);
    var r := AfterArm(data, i, i, c, a);
    assert r == Call(a.p, map[], c.events + (if EndsThere(h) then [Note(MessageComplete)] else [])) by {
      assert c.events + [] == c.events;
    }
    if !Switches(h) {
      LoopEnd(data, r);
      LeftoversNone(data, r.events);
    } else {
      ExitSwitch(data, i, c, a);
    }
  }

  lemma ExitSwitch(data: bytes, i: nat, c: Call, a: Arm)
    requires i + 1 == |data| && MarksOk(c.marks, i) && !BulkState(c.p.state)
    requires a == Pass(c.p, data[i], |data| - i) && a.control.Exit?
    ensures var r := AfterArm(data, i, i, c, a);
            Switch(data, i, c) == Returned(r.p, r.events, |data|, Left)
  {
    hide Pass, Loop, AfterArm;
  }

  /** The last byte of the header, in which on_headers_complete is called. */
  lemma BlankLf(data: bytes, i: nat, c: Call, h: Head)
    requires i + 1 == |data| && data[i] == '\n' && c.p.state.HeadersAlmostDone? && c.marks == map[]
    requires HeadOk(h) && Read(c.p, h) && c.p.nread < MAX_HEADER_SIZE
    ensures Loop(data, i, c) ==
            Returned(c.p.(nread := 0, upgrade := Switches(h), state := StateBehind(h)),
                     c.events + EndEvents(h), |data|, if Switches(h) then Left else Ran)
  {
    hide Loop, Pass, Switch, Overflows, HeadOk, StateBehind, EndsThere, Upgrades, Chunked, Closes, Keeps, LastLength,
      Counted;
    CountedHere(c.p);
    CountedLoop(data, i, c);
    var p := Ahead(c.p, 1);
    EndPasses(p, 1);
    var q := p.(upgrade := Switches(h), state := HeadersDone);
    PlainSwitch(data, i, c.(p := p), Pass(p, '\n', 1));
    assert c.events + [] == c.events;
    var events := c.events + [Note(HeadersComplete)];
    LastByte(data, i, Call(q, map[], events), h);
    assert events + [] == events;
    assert c.events + [Note(HeadersComplete)] + [Note(MessageComplete)] ==
           c.events + ([Note(HeadersComplete)] + [Note(MessageComplete)]);
  }

  // ----- The whole header -----

  /** A parser that expects such a message. */
  predicate Ready(p: Parser, s: Start) {
    && p.kind == KindOf(s)
    && if s.RequestStart? then p.state.StartReq? else p.state.StartRes? && p.line.verb != CONNECT
  }

  /** The registers when the first line is read, but for those only the line itself uses. */
  predicate Started(p: Parser, q: Parser, s: Start, n: nat) {
    q == Ahead(p, n).(state := HeaderFieldStart, flags := NO_FLAGS, contentLength := ULLONG_MAX,
                      line := LineOf(s, p.line), index := q.index)
  }

  /** The first line of a message, up to the first byte behind it. */
  lemma StartLoop(p: Parser, s: Start, data: bytes) returns (q: Parser)
    requires Ready(p, s) && StartOk(s) && p.nread + |StartText(s)| < MAX_HEADER_SIZE
    requires Holds(data, 0, StartText(s)) && |StartText(s)| < |data|
    ensures Started(p, q, s, |StartText(s)| + 1)
    ensures Run(p, data) == Switch(data, |StartText(s)|, Call(q, map[], StartEvents(s)))
  {
    hide Loop, Switch, RequestLine, StatusText, UrlForm, ReasonOk, Counted, Overflows, ReasonEvents;
    var c := Call(p, map[], []);
    RunIsLoop(p, data);
    var n := |StartText(s)|;
    var r;
    match s {
      case RequestStart(verb, url, major, minor) =>
        UrlGrammar(url);
        assert TargetOk(verb, url);
        RequestLineLoop(data, c, verb, url, major, minor);
        r := AfterLine(p, verb, major, minor, n);
        assert [] + [Note(MessageBegin)] + [Data(Url, url)] == StartEvents(s);
      case ResponseStart(major, minor, code, reason) =>
        StatusLineLoop(data, c, major, minor, code, reason);
        r := AfterStatus(p, major, minor, code, reason, n);
        assert [] + [Note(MessageBegin)] + ReasonEvents(reason) == StartEvents(s);
    }
    CountedStart(r);
    CountedLoop(data, n, Call(r, map[], StartEvents(s)));
    q := Ahead(r, 1);
  }

  lemma CountedStart(p: Parser)
    requires p.state.HeaderFieldStart? && p.nread < MAX_HEADER_SIZE
    ensures Counted(p) == Ahead(p, 1) && !Overflows(Counted(p))
  {
  }

  /** The registers behind the whole header. */
  predicate Headed(p: Parser, q: Parser, h: Head)
    requires HeadOk(h)
  {
    && q == p.(nread := 0, upgrade := Switches(h), state := StateBehind(h), line := LineOf(h.start, p.line),
               flags := q.flags, contentLength := q.contentLength, header := q.header, index := q.index)
    && Read(q, h)
  }

  lemma ReadAll(p: Parser, q: Parser, r: Parser, h: Head, n: nat)
    requires HeadOk(h) && Ready(p, h.start) && Started(p, q, h.start, n) && PastAll(q, r, h.lines)
    ensures Read(r.(state := HeadersAlmostDone), h) && r.state.HeaderFieldStart?
    ensures r.nread == p.nread + n + |LinesText(h.lines)|
    ensures r == p.(nread := r.nread, state := r.state, line := LineOf(h.start, p.line),
                    flags := r.flags, contentLength := r.contentLength, header := r.header, index := r.index)
  {
    FlagsText(NO_FLAGS, h.lines);
    LengthText(ULLONG_MAX, h.lines);
    hide LinesOk, Chunked, Keeps, Closes, Upgrades, LastLength, UrlForm, ReasonOk, FlaggedAll, LengthAll;
  }

  lemma TextHolds(h: Head)
    ensures var data, n := HeadText(h), |StartText(h.start)|;
            && |data| == n + |LinesText(h.lines)| + 2
            && Holds(data, 0, StartText(h.start)) && Holds(data, n, LinesText(h.lines) + CRLF)
  {
    hide StartText, LinesText;
    var data := HeadText(h);
    assert data[0..|data|] == data;
    HoldsSplit(data, 0, StartText(h.start), LinesText(h.lines) + CRLF);
  }

  /**
   * A printed header, in one call, on any parser that expects a message of its kind:
   * exactly the callbacks of its parts, and what comes next is what its text says.
   */
  lemma HeadRuns(p: Parser, h: Head) returns (q: Parser)
    requires HeadOk(h) && Ready(p, h.start) && p.nread + |HeadText(h)| <= MAX_HEADER_SIZE
    ensures Headed(p, q, h)
    ensures Run(p, HeadText(h)) ==
            Returned(q, HeadEvents(h), |HeadText(h)|, if Switches(h) then Left else Ran)
  {
    hide Run, Loop, Switch, Holds, StartOk, LinesOk, HeadText, StartText, LinesText, StartEvents, LineEvents, EndEvents,
      Read, PastAll, Started, Ready, StateBehind, Upgrades, Switches, LineOf;
    var data := HeadText(h);
    TextHolds(h);
    var n := |StartText(h.start)|;
    var p1 := StartLoop(p, h.start, data);
    StartedAt(p, p1, h.start, n + 1);
    BlankOk();
    var c1 := Call(p1, map[], StartEvents(h.start));
    var p2 := LinesLoop(data, n, c1, h.lines, CRLF);
    var j := n + |LinesText(h.lines)|;
    HoldsByte(data, j, CRLF);
    HoldsByte(data, j + 1, CRLF[1..]);
    ReadAll(p, p1, p2, h, n + 1);
    var c2 := Call(p2, map[], c1.events + LineEvents(h.lines));
    BlankCr(data, j, c2);
    var p3 := p2.(state := HeadersAlmostDone);
    BlankLf(data, j + 1, Call(p3, map[], c2.events), h);
    q := p3.(nread := 0, upgrade := Switches(h), state := StateBehind(h));
    ReadAnywhere(p3, q, h);
  }

  lemma StartedAt(p: Parser, q: Parser, s: Start, n: nat)
    requires Started(p, q, s, n)
    ensures q.state.HeaderFieldStart? && q.nread == p.nread + n
  {
  }

  lemma BlankOk()
    ensures TailOk(CRLF)
  {
  }

  lemma ReadAnywhere(p: Parser, q: Parser, h: Head)
    requires HeadOk(h) && Read(p, h) && q == p.(nread := q.nread, upgrade := q.upgrade, state := q.state)
    ensures Read(q, h)
  {
    hide HeadOk, Chunked, Keeps, Closes, Upgrades, LastLength;
  }
}
