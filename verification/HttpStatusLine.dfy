/** The call on a printed response, position by position: the status line. */
module HttpStatusLine {
  import opened Bytes
  import opened HttpSyntax
  import opened HttpMachine
  import opened HttpExecute
  import opened HttpSplit
  import opened HttpBatch
  import opened HttpRequestLine

  /** The numbers of a status line. */
  datatype Register = Major | Minor | Code

  /** The state in which the first digit of a number is expected, and that of the others. */
  predicate AtFirst(s: State, r: Register) {
    match r
    case Major => s.ResFirstHttpMajor?
    case Minor => s.ResFirstHttpMinor?
    case Code => s.ResFirstStatusCode?
  }

  function InNumber(r: Register): State {
    match r
    case Major => ResHttpMajor
    case Minor => ResHttpMinor
    case Code => ResStatusCode
  }

  function ValueIn(l: Line, r: Register): nat {
    match r
    case Major => l.major
    case Minor => l.minor
    case Code => l.status
  }

  function With(l: Line, r: Register, n: nat): Line {
    match r
    case Major => l.(major := n)
    case Minor => l.(minor := n)
    case Code => l.(status := n)
  }

  lemma ResponsePass(p: Parser, b: byte)
    requires GroupOf(p.state) == ResponseGroup && p.nread < MAX_HEADER_SIZE
    ensures !BulkState(p.state) && !Overflows(Counted(p))
    ensures Pass(Counted(p), b, 1) == ArmResponse(Ahead(p, 1), b)
  {
    hide ArmResponse;
  }

  // ----- Numbers -----

  lemma NumberFirst(p: Parser, r: Register, d: nat)
    requires AtFirst(p.state, r) && d <= 9 && p.nread < MAX_HEADER_SIZE
    ensures Quiet(p, DigitOf(d), Ahead(p, 1).(state := InNumber(r), line := With(p.line, r, d)))
  {
    hide Pass, BulkState, Counted, Overflows;
    ResponsePass(p, DigitOf(d));
  }

  lemma NumberNext(p: Parser, r: Register, d: nat)
    requires p.state == InNumber(r) && d <= 9 && ValueIn(p.line, r) * 10 + d <= 999 && p.nread < MAX_HEADER_SIZE
    ensures Quiet(p, DigitOf(d), Ahead(p, 1).(line := With(p.line, r, ValueIn(p.line, r) * 10 + d)))
  {
    hide Pass, BulkState, Counted, Overflows;
    ResponsePass(p, DigitOf(d));
  }

  /** A printed number of at most three digits is read into its register. */
  lemma {:induction false} NumberQuiet(p: Parser, r: Register, n: nat)
    requires AtFirst(p.state, r) && n <= 999 && p.nread + |Decimal(n)| <= MAX_HEADER_SIZE
    ensures Quietly(p, Decimal(n), Ahead(p, |Decimal(n)|).(state := InNumber(r), line := With(p.line, r, n)))
  {
    hide Quietly, Quiet;
    var q := Ahead(p, |Decimal(n)|).(state := InNumber(r), line := With(p.line, r, n));
    if n < 10 {
      NumberFirst(p, r, n);
      QuietlyOne(p, DigitOf(n), q);
    } else {
      var w := Decimal(n / 10);
      var m := Ahead(p, |w|).(state := InNumber(r), line := With(p.line, r, n / 10));
      NumberQuiet(p, r, n / 10);
      NumberNext(m, r, n % 10);
      QuietlySnoc(p, w, m, DigitOf(n % 10), q);
    }
  }

  // ----- The constant -----

  lemma ConstantByte(p: Parser, b: byte)
    requires p.nread < MAX_HEADER_SIZE
    ensures p.state.ResH? && b == 'T' ==> Quiet(p, b, Ahead(p, 1).(state := ResHT))
    ensures p.state.ResHT? && b == 'T' ==> Quiet(p, b, Ahead(p, 1).(state := ResHTT))
    ensures p.state.ResHTT? && b == 'P' ==> Quiet(p, b, Ahead(p, 1).(state := ResHTTP))
    ensures p.state.ResHTTP? && b == '/' ==> Quiet(p, b, Ahead(p, 1).(state := ResFirstHttpMajor))
    ensures p.state.ResHttpMajor? && b == '.' ==> Quiet(p, b, Ahead(p, 1).(state := ResFirstHttpMinor))
    ensures p.state.ResHttpMinor? && b == ' ' ==> Quiet(p, b, Ahead(p, 1).(state := ResFirstStatusCode))
    ensures p.state.ResStatusCode? && b == ' ' ==> Quiet(p, b, Ahead(p, 1).(state := ResStatusStart))
    ensures p.state.ResStatusStart? && b == '\r' ==> Quiet(p, b, Ahead(p, 1).(state := ResLineAlmostDone))
    ensures p.state.ResLineAlmostDone? && b == '\n' ==> Quiet(p, b, Ahead(p, 1).(state := HeaderFieldStart))
  {
    hide Pass, BulkState, Counted, Overflows;
    if GroupOf(p.state) == ResponseGroup {
      ResponsePass(p, b);
    }
  }

  lemma ConstantQuiet(p: Parser)
    requires p.state.ResH? && p.nread + 4 <= MAX_HEADER_SIZE
    ensures Quietly(p, ['T', 'T', 'P', '/'], Ahead(p, 4).(state := ResFirstHttpMajor))
  {
    hide Quietly, Quiet;
    var p1 := Ahead(p, 1).(state := ResHT);
    var p2 := Ahead(p1, 1).(state := ResHTT);
    var p3 := Ahead(p2, 1).(state := ResHTTP);
    ConstantByte(p, 'T');
    ConstantByte(p1, 'T');
    ConstantByte(p2, 'P');
    ConstantByte(p3, '/');
    assert ['T'] + ['T'] == ['T', 'T'] && ['T', 'T'] + ['P'] == ['T', 'T', 'P'];
    assert ['T', 'T', 'P'] + ['/'] == ['T', 'T', 'P', '/'];
    QuietlyOne(p, 'T', p1);
    QuietlySnoc(p, ['T'], p1, 'T', p2);
    QuietlySnoc(p, ['T', 'T'], p2, 'P', p3);
    QuietlySnoc(p, ['T', 'T', 'P'], p3, '/', Ahead(p, 4).(state := ResFirstHttpMajor));
  }

  /** Version and code, each with the byte behind it. */
  function NumbersText(major: nat, minor: nat, code: nat): bytes {
    Decimal(major) + ['.'] + Decimal(minor) + [' '] + Decimal(code) + [' ']
  }

  function AfterNumbers(p: Parser, major: nat, minor: nat, code: nat, n: nat): Parser {
    Ahead(p, n).(state := ResStatusStart, line := p.line.(major := major, minor := minor, status := code))
  }

  lemma NumberAndMark(p: Parser, r: Register, n: nat, b: byte, s: State)
    requires AtFirst(p.state, r) && n <= 999 && p.nread + |Decimal(n)| < MAX_HEADER_SIZE
    requires match r
             case Major => b == '.' && s.ResFirstHttpMinor?
             case Minor => b == ' ' && s.ResFirstStatusCode?
             case Code => b == ' ' && s.ResStatusStart?
    ensures Quietly(p, Decimal(n) + [b], Ahead(p, |Decimal(n)| + 1).(state := s, line := With(p.line, r, n)))
  {
    hide Quietly, Quiet;
    NumberQuiet(p, r, n);
    var q := Ahead(p, |Decimal(n)|).(state := InNumber(r), line := With(p.line, r, n));
    ConstantByte(q, b);
    QuietlySnoc(p, Decimal(n), q, b, Ahead(q, 1).(state := s));
  }

  lemma NumbersQuiet(p: Parser, major: nat, minor: nat, code: nat)
    requires p.state.ResFirstHttpMajor? && major <= 999 && minor <= 999 && code <= 999
    requires p.nread + |NumbersText(major, minor, code)| <= MAX_HEADER_SIZE
    ensures var w := NumbersText(major, minor, code);
            Quietly(p, w, AfterNumbers(p, major, minor, code, |w|))
  {
    hide Quietly, Quiet, Decimal;
    var u, v, w := Decimal(major) + ['.'], Decimal(minor) + [' '], Decimal(code) + [' '];
    var p1 := Ahead(p, |u|).(state := ResFirstHttpMinor, line := p.line.(major := major));
    var p2 := Ahead(p1, |v|).(state := ResFirstStatusCode, line := p1.line.(minor := minor));
    var p3 := Ahead(p2, |w|).(state := ResStatusStart, line := p2.line.(status := code));
    assert u + v + w == NumbersText(major, minor, code);
    NumberAndMark(p, Major, major, '.', ResFirstHttpMinor);
    NumberAndMark(p1, Minor, minor, ' ', ResFirstStatusCode);
    NumberAndMark(p2, Code, code, ' ', ResStatusStart);
    QuietlyConcat(p, u, p1, v, p2);
    QuietlyConcat(p, u + v, p2, w, p3);
  }

  // ----- The reason -----

  predicate ReasonOk(reason: bytes) {
    forall i :: 0 <= i < |reason| ==> reason[i] != '\r' && reason[i] != '\n'
  }

  lemma ReasonPasses(p: Parser, b: byte)
    requires p.nread < MAX_HEADER_SIZE && b != '\r' && b != '\n'
    ensures p.state.ResStatusStart? ==>
              && !BulkState(p.state) && !Overflows(Counted(p))
              && Pass(Counted(p), b, 1) == Go(Ahead(p, 1).(state := ResStatus, index := 0)).(mark := Some(Status))
    ensures p.state.ResStatus? ==>
              && Quiet(p, b, Ahead(p, 1))
              && !BulkState(p.state) && !Overflows(Counted(p))
              && Pass(Counted(p), '\r', 1) == Go(Ahead(p, 1).(state := ResLineAlmostDone)).(flush := Some(Status))
  {
    hide Pass, BulkState, Counted, Overflows;
    if p.state.ResStatusStart? {
      ResponsePass(p, b);
    } else if p.state.ResStatus? {
      ResponsePass(p, b);
      ResponsePass(p, '\r');
    }
  }

  lemma {:induction false} ReasonQuiet(p: Parser, w: bytes)
    requires p.state.ResStatus? && ReasonOk(w) && p.nread + |w| <= MAX_HEADER_SIZE
    ensures Quietly(p, w, Ahead(p, |w|))
    decreases |w|
  {
    hide Quietly, Quiet;
    if w == [] {
      QuietlyNone(p);
    } else {
      ReasonPasses(p, w[0]);
      ReasonQuiet(Ahead(p, 1), w[1..]);
      QuietlyOne(p, w[0], Ahead(p, 1));
      QuietlyConcat(p, [w[0]], Ahead(p, 1), w[1..], Ahead(p, |w|));
      assert w == [w[0]] + w[1..];
    }
  }

  /** An empty reason makes no callback. */
  function ReasonEvents(reason: bytes): seq<Event> {
    if reason == [] then [] else [Data(Status, reason)]
  }

  function AfterReason(p: Parser, reason: bytes): Parser {
    Ahead(p, |reason| + 2).(state := HeaderFieldStart, index := if reason == [] then p.index else 0)
  }

  /** The reason and the end of the line. */
  lemma ReasonLoop(data: bytes, i: nat, c: Call, reason: bytes)
    requires c.p.state.ResStatusStart? && c.marks == map[] && ReasonOk(reason)
    requires Holds(data, i, reason + CRLF) && c.p.nread + |reason| + 2 <= MAX_HEADER_SIZE
    ensures i + |reason| + 2 <= |data|
    ensures Loop(data, i, c) ==
            Loop(data, i + |reason| + 2, Call(AfterReason(c.p, reason), map[], c.events + ReasonEvents(reason)))
  {
    hide Loop, Pass, Quietly, Quiet, BulkState, Overflows, Counted;
    HoldsIs(data, i, reason + CRLF);
    HoldsSplit(data, i, reason, CRLF);
    HoldsByte(data, i + |reason|, CRLF);
    HoldsByte(data, i + |reason| + 1, CRLF[1..]);
    var p1, events;
    if reason == [] {
      ConstantByte(c.p, '\r');
      p1, events := Ahead(c.p, 1).(state := ResLineAlmostDone), c.events;
      QuietByte(data, i, c, p1);
      assert c.events + [] == c.events;
    } else {
      p1, events := ReasonData(data, i, c, reason);
    }
    ConstantByte(p1, '\n');
    QuietByte(data, i + |reason| + 1, Call(p1, map[], events), AfterReason(c.p, reason));
  }

  lemma ReasonData(data: bytes, i: nat, c: Call, reason: bytes) returns (p: Parser, events: seq<Event>)
    requires c.p.state.ResStatusStart? && c.marks == map[] && ReasonOk(reason) && reason != []
    requires Holds(data, i, reason) && c.p.nread + |reason| + 2 <= MAX_HEADER_SIZE
    requires i + |reason| < |data| && data[i + |reason|] == '\r'
    ensures p == Ahead(c.p, |reason| + 1).(state := ResLineAlmostDone, index := 0)
    ensures events == c.events + [Data(Status, reason)]
    ensures Loop(data, i, c) == Loop(data, i + |reason| + 1, Call(p, map[], events))
  {
    hide Loop, Pass, Quietly, Quiet, BulkState, Overflows, Counted;
    HoldsIs(data, i, reason);
    HoldsByte(data, i, reason);
    ReasonPasses(c.p, reason[0]);
    var p1 := Ahead(c.p, 1).(state := ResStatus, index := 0);
    MarkByte(data, i, c, p1, Status);
    ReasonQuiet(p1, reason[1..]);
    var p2 := Ahead(p1, |reason| - 1);
    OneMark(Status, i, i + 1);
    QuietLoop(data, i + 1, Call(p1, map[Status := i], c.events), reason[1..], p2);
    ReasonPasses(p2, reason[0]);
    p := Ahead(p2, 1).(state := ResLineAlmostDone);
    FlushByte(data, i + |reason|, Call(p2, map[Status := i], c.events), p, Status, i);
    events := c.events + [Data(Status, reason)];
  }

  // ----- The status line -----

  function StatusText(major: nat, minor: nat, code: nat, reason: bytes): bytes {
    ['H', 'T', 'T', 'P', '/'] + NumbersText(major, minor, code) + reason + CRLF
  }

  /** The parser after a status line of n bytes. */
  function AfterStatus(p: Parser, major: nat, minor: nat, code: nat, reason: bytes, n: nat): Parser {
    Ahead(p, n).(state := HeaderFieldStart, flags := NO_FLAGS, contentLength := ULLONG_MAX,
                 line := p.line.(major := major, minor := minor, status := code),
                 index := if reason == [] then p.index else 0)
  }

  lemma BeginPass(p: Parser)
    requires p.state.StartRes? && p.nread < MAX_HEADER_SIZE
    ensures !BulkState(p.state) && !Overflows(Counted(p))
    ensures Pass(Counted(p), 'H', 1) ==
            Go(Ahead(p, 1).(state := ResH, flags := NO_FLAGS, contentLength := ULLONG_MAX)).(
              notice := Some(MessageBegin))
  {
  }

  /** The parser behind the constant of a status line. */
  function Begun(p: Parser): Parser {
    Ahead(p, 5).(state := ResFirstHttpMajor, flags := NO_FLAGS, contentLength := ULLONG_MAX)
  }

  lemma StartLoop(data: bytes, c: Call)
    requires c.p.state.StartRes? && c.marks == map[] && c.p.nread + 5 <= MAX_HEADER_SIZE
    requires Holds(data, 0, ['H', 'T', 'T', 'P', '/'])
    ensures |data| >= 5
    ensures Loop(data, 0, c) == Loop(data, 5, Call(Begun(c.p), map[], c.events + [Note(MessageBegin)]))
  {
    hide Loop, Pass, Quietly, BulkState, Overflows, Counted;
    var start := ['H', 'T', 'T', 'P', '/'];
    HoldsByte(data, 0, start);
    assert start[1..] == ['T', 'T', 'P', '/'];
    BeginPass(c.p);
    var p := Ahead(c.p, 1).(state := ResH, flags := NO_FLAGS, contentLength := ULLONG_MAX);
    ArmOnByte(data, 0, c, Go(p).(notice := Some(MessageBegin)));
    assert c.events + [] == c.events;
    ConstantQuiet(p);
    QuietLoop(data, 1, Call(p, map[], c.events + [Note(MessageBegin)]), start[1..], Begun(c.p));
  }

  /** A printed status line: version and code reach the parser, the reason its callback unless it is empty. */
  lemma StatusLineLoop(data: bytes, c: Call, major: nat, minor: nat, code: nat, reason: bytes)
    requires c.p.state.StartRes? && c.marks == map[]
    requires major <= 999 && minor <= 999 && code <= 999 && ReasonOk(reason)
    requires Holds(data, 0, StatusText(major, minor, code, reason))
    requires c.p.nread + |StatusText(major, minor, code, reason)| <= MAX_HEADER_SIZE
    ensures var n := |StatusText(major, minor, code, reason)|;
            Loop(data, 0, c) ==
            Loop(data, n, Call(AfterStatus(c.p, major, minor, code, reason, n), map[],
                               c.events + [Note(MessageBegin)] + ReasonEvents(reason)))
  {
    hide Loop, Pass, Quietly, NumbersText, BulkState, Overflows, Counted, Holds, ReasonOk, ReasonEvents;
    var start, numbers := ['H', 'T', 'T', 'P', '/'], NumbersText(major, minor, code);
    assert StatusText(major, minor, code, reason) == start + (numbers + (reason + CRLF));
    HoldsSplit(data, 0, start, numbers + (reason + CRLF));
    HoldsSplit(data, 5, numbers, reason + CRLF);
    StartLoop(data, c);
    var p2 := Begun(c.p);
    var c1 := Call(p2, map[], c.events + [Note(MessageBegin)]);
    NumbersQuiet(p2, major, minor, code);
    var p3 := AfterNumbers(p2, major, minor, code, |numbers|);
    QuietLoop(data, 5, c1, numbers, p3);
    ReasonLoop(data, 5 + |numbers|, c1.(p := p3), reason);
  }
}
