/** A printed request or response, parsed in one call, is heard as the packet it was printed from. */
module HttpRoundTrip {
  import opened Bytes
  import opened HttpSyntax
  import opened HttpMachine
  import opened HttpExecute
  import opened HttpRequestLine
  import opened HttpHeaders
  import opened HttpHead
  import opened HttpPacket

  /** The headers of a packet, in the order in which they are printed. */
  function Listed(headers: map<bytes, bytes>, order: seq<bytes>): (hs: seq<Header>)
    requires forall f <- order :: f in headers
  {
    if order == [] then [] else [Header(order[0], headers[order[0]])] + Listed(headers, order[1..])
  }

  function StartOf(k: Packet, request: bool): Start {
    if request then RequestStart(k.verb, k.url, k.major, k.minor)
    else ResponseStart(k.major, k.minor, k.statusCode, k.status)
  }

  function HeadOf(k: Packet, request: bool, order: seq<bytes>): Head
    requires forall f <- order :: f in k.headers
  {
    Head(StartOf(k, request), Listed(k.headers, order))
  }

  predicate HeadersOk(headers: map<bytes, bytes>) {
    forall f <- headers :: HeaderOk(Header(f, headers[f]))
  }

  /** A packet that comes through. */
  predicate PacketOk(k: Packet, request: bool) {
    StartOk(StartOf(k, request)) && HeadersOk(k.headers)
  }

  // ----- Printing -----

  lemma {:induction false} LinesPrinted(headers: map<bytes, bytes>, order: seq<bytes>)
    requires forall f <- order :: f in headers
    ensures HeaderLines(headers, order) == LinesText(Listed(headers, order))
    decreases |order|
  {
    if order != [] {
      LinesPrinted(headers, order[1..]);
      assert Listed(headers, order)[1..] == Listed(headers, order[1..]);
    }
  }

  lemma StatusPrinted(k: Packet)
    ensures StatusLine(k) == StartText(StartOf(k, false))
  {
    hide Decimal;
    var v, c := Decimal(k.major) + "." + Decimal(k.minor), Decimal(k.statusCode);
    assert HTTP_SLASH + v + SPACE + c + SPACE + k.status + CRLF ==
           ['H', 'T', 'T', 'P', '/'] + (Decimal(k.major) + ['.'] + Decimal(k.minor) + [' '] + c + [' ']) +
           k.status + CRLF;
  }

  /** What MakeHeader prints is the text of the header. */
  lemma PrintedIsText(k: Packet, request: bool, order: seq<bytes>)
    requires forall f <- order :: f in k.headers
    ensures Printed(k, request, order) == HeadText(HeadOf(k, request, order))
  {
    hide RequestLine, StatusLine, LinesText;
    LinesPrinted(k.headers, order);
    StatusPrinted(k);
    var start, lines := StartText(StartOf(k, request)), LinesText(Listed(k.headers, order));
    assert start + lines + CRLF == start + (lines + CRLF);
  }

  lemma {:induction false} ListedOk(headers: map<bytes, bytes>, order: seq<bytes>)
    requires (forall f <- order :: f in headers) && HeadersOk(headers)
    ensures LinesOk(Listed(headers, order))
    decreases |order|
  {
    hide HeaderOk;
    if order != [] {
      ListedOk(headers, order[1..]);
    }
  }

  lemma HeadFine(k: Packet, request: bool, order: seq<bytes>)
    requires (forall f <- order :: f in k.headers) && PacketOk(k, request)
    ensures HeadOk(HeadOf(k, request, order))
  {
    hide StartOk, HeadersOk, LinesOk;
    ListedOk(k.headers, order);
  }

  // ----- Hearing -----

  /** The packet when the header line of f is complete. */
  lemma HearHeader(k: Packet, f: bytes, v: bytes, line: Line, made: Packet)
    requires f != [] && (k.field == [] ==> k.value == [])
    ensures var r := Heard(Heard(k, Data(Field, f), line, made), Data(Value, v), line, made);
            r == Stored(k).(field := f, value := v)
            && Stored(r) == Stored(k).(headers := Stored(k).headers[f := v])
  {
    assert [] + f == f && [] + v == v;
  }

  lemma HearMore(k: Packet, events: seq<Event>, more: seq<Event>, line: Line, made: Packet)
    ensures HearAll(k, events + more, line, made) == HearAll(HearAll(k, events, line, made), more, line, made)
    decreases |more|
  {
    hide Heard;
    if more == [] {
      assert events + more == events;
    } else {
      var n := |more| - 1;
      assert (events + more)[..|events| + n] == events + more[..n];
      assert (events + more)[|events| + n] == more[n];
      HearMore(k, events, more[..n], line, made);
    }
  }

  lemma HearOne(k: Packet, e: Event, line: Line, made: Packet)
    ensures HearAll(k, [e], line, made) == Heard(k, e, line, made)
  {
    assert [e][..0] == [];
  }

  /** The map that the headers in order make, added to m. */
  function Collected(m: map<bytes, bytes>, headers: map<bytes, bytes>, order: seq<bytes>): map<bytes, bytes>
    requires forall f <- order :: f in headers
    decreases |order|
  {
    if order == [] then m else Collected(m[order[0] := headers[order[0]]], headers, order[1..])
  }

  lemma {:induction false} CollectedAll(m: map<bytes, bytes>, headers: map<bytes, bytes>, order: seq<bytes>)
    requires forall f <- order :: f in headers
    ensures forall f :: f in Collected(m, headers, order) <==> f in order || f in m
    ensures forall f <- order :: Collected(m, headers, order)[f] == headers[f]
    ensures forall f <- m :: f !in order ==> Collected(m, headers, order)[f] == m[f]
    decreases |order|
  {
    if order != [] {
      CollectedAll(m[order[0] := headers[order[0]]], headers, order[1..]);
    }
  }

  lemma FirstNamed(headers: map<bytes, bytes>, order: seq<bytes>)
    requires (forall f <- order :: f in headers) && HeadersOk(headers) && order != []
    ensures order[0] != []
    ensures LineEvents(Listed(headers, order)) ==
            [Data(Field, order[0])] + [Data(Value, headers[order[0]])] + LineEvents(Listed(headers, order[1..]))
  {
    hide IsLength, LengthOk, ValueOk;
    var f := order[0];
    assert f in headers && HeaderOk(Header(f, headers[f]));
    assert Listed(headers, order)[1..] == Listed(headers, order[1..]);
  }

  lemma {:induction false} HearHeaders(
    k: Packet, headers: map<bytes, bytes>, order: seq<bytes>, line: Line, made: Packet)
    requires (forall f <- order :: f in headers) && HeadersOk(headers)
    requires k.field == [] ==> k.value == []
    ensures var r := HearAll(k, LineEvents(Listed(headers, order)), line, made);
            && Stored(r) == Stored(k).(headers := Collected(Stored(k).headers, headers, order))
            && (r.field == [] ==> r.value == [])
    decreases |order|
  {
    hide Heard, HeadersOk, Stored, LineEvents;
    if order == [] {
      HearNone(k, line, made);
    } else {
      var f, v := order[0], headers[order[0]];
      FirstNamed(headers, order);
      var one, two := [Data(Field, f)], [Data(Value, v)];
      var rest := LineEvents(Listed(headers, order[1..]));
      HearMore(k, one + two, rest, line, made);
      HearMore(k, one, two, line, made);
      HearOne(k, Data(Field, f), line, made);
      HearOne(HearAll(k, one, line, made), Data(Value, v), line, made);
      HearHeader(k, f, v, line, made);
      HearHeaders(HearAll(k, one + two, line, made), headers, order[1..], line, made);
    }
  }

  lemma HearNone(k: Packet, line: Line, made: Packet)
    ensures LineEvents([]) == []
    ensures HearAll(k, [], line, made) == k && Stored(k).(headers := Stored(k).headers) == Stored(k)
  {
  }

  /** The packet after the callbacks of the first line. */
  function AfterStart(made: Packet, s: Start): Packet {
    match s
    case RequestStart(_, url, _, _) => made.(url := url)
    case ResponseStart(_, _, code, reason) => if reason == [] then made else made.(status := reason, statusCode := code)
  }

  lemma HearStart(before: Packet, made: Packet, s: Start, line: Line)
    requires IsNew(made) && (s.ResponseStart? ==> line.status == s.code)
    ensures HearAll(before, StartEvents(s), line, made) == AfterStart(made, s)
  {
    var begin := [Note(MessageBegin)];
    HearOne(before, Note(MessageBegin), line, made);
    match s
    case RequestStart(_, url, _, _) =>
      HearMore(before, begin, [Data(Url, url)], line, made);
      HearOne(made, Data(Url, url), line, made);
      assert [] + url == url;
    case ResponseStart(_, _, code, reason) =>
      if reason == [] {
        assert begin + [] == begin;
      } else {
        HearMore(before, begin, [Data(Status, reason)], line, made);
        HearOne(made, Data(Status, reason), line, made);
        assert [] + reason == reason;
      }
  }

  lemma HearEnd(k: Packet, h: Head, line: Line, made: Packet)
    requires HeadOk(h)
    ensures HearAll(k, EndEvents(h), line, made) == Stored(k).(major := line.major, minor := line.minor)
  {
    hide Stored, EndsThere, HeadOk;
    var done, over := [Note(HeadersComplete)], [Note(MessageComplete)];
    HearOne(k, Note(HeadersComplete), line, made);
    if EndsThere(h) {
      HearMore(k, done, over, line, made);
      HearOne(HearAll(k, done, line, made), Note(MessageComplete), line, made);
    } else {
      assert done + [] == done;
    }
  }

  /** Hearing the callbacks of a printed header makes the packet it was printed from. */
  lemma HearPrinted(before: Packet, made: Packet, k: Packet, request: bool, order: seq<bytes>, line: Line)
    requires (forall f <- order :: f in k.headers) && (forall f <- k.headers :: f in order)
    requires HeadersOk(k.headers) && HeadOk(HeadOf(k, request, order)) && IsNew(made)
    requires line.major == k.major && line.minor == k.minor && (!request ==> line.status == k.statusCode)
    ensures var r := HearAll(before, HeadEvents(HeadOf(k, request, order)), line, made);
            && r.headers == k.headers && r.major == k.major && r.minor == k.minor
            && if request then r.url == k.url
               else r.status == k.status && r.statusCode == if k.status == [] then made.statusCode else k.statusCode
  {
    hide HeadersOk, HeadOk, StartEvents, EndEvents, LineEvents;
    var h := HeadOf(k, request, order);
    var start, lines, end := StartEvents(h.start), LineEvents(h.lines), EndEvents(h);
    HearMore(before, start + lines, end, line, made);
    HearMore(before, start, lines, line, made);
    HearStart(before, made, h.start, line);
    var k1 := AfterStart(made, h.start);
    HearHeaders(k1, k.headers, order, line, made);
    HearEnd(HearAll(k1, lines, line, made), h, line, made);
    CollectedAll(map[], k.headers, order);
    assert Collected(map[], k.headers, order) == k.headers;
  }

  // ----- The round trip -----

  /** One call on a printed header makes exactly the callbacks of its parts. */
  lemma PrintedRuns(p: Parser, k: Packet, request: bool, order: seq<bytes>) returns (q: Parser)
    requires (forall f <- order :: f in k.headers) && PacketOk(k, request)
    requires Ready(p, StartOf(k, request)) && p.nread + |Printed(k, request, order)| <= MAX_HEADER_SIZE
    ensures HeadOk(HeadOf(k, request, order)) && Headed(p, q, HeadOf(k, request, order))
    ensures var data, h := Printed(k, request, order), HeadOf(k, request, order);
            Run(p, data) == Returned(q, HeadEvents(h), |data|, if Switches(h) then Left else Ran)
  {
    hide Run, Printed, HeadText, Headed, Ready, HeadEvents, Switches, PacketOk, HeadOk;
    PrintedIsText(k, request, order);
    HeadFine(k, request, order);
    q := HeadRuns(p, HeadOf(k, request, order));
  }

  lemma LineHeard(p: Parser, q: Parser, h: Head)
    requires HeadOk(h) && Headed(p, q, h)
    ensures q.line == LineOf(h.start, p.line)
  {
    hide HeadOk, Read, StateBehind;
  }

  /**
   * A header printed by MakeHeader and parsed in one call by a parser that expects a
   * message of its kind, new or not.  A request: the parser has its method, and the
   * session hears its URL.  A response: the session hears its reason, and with it
   * its status code; without a reason it hears neither.  Both: version and headers.
   */
  lemma RoundTrip(p: Parser, k: Packet, request: bool, order: seq<bytes>, before: Packet, made: Packet)
    requires (forall f <- order :: f in k.headers) && (forall f <- k.headers :: f in order) && PacketOk(k, request)
    requires Ready(p, StartOf(k, request)) && p.nread + |Printed(k, request, order)| <= MAX_HEADER_SIZE
    requires IsNew(made)
    ensures var data := Printed(k, request, order);
            var r := Run(p, data);
            var heard := HearAll(before, r.events, r.p.line, made);
            && r.n == |data| && !r.stop.Failed?
            && heard.headers == k.headers && heard.major == k.major && heard.minor == k.minor
            && if request then heard.url == k.url && r.p.line.verb == k.verb
               else
                 && heard.status == k.status && r.p.line.status == k.statusCode
                 && heard.statusCode == if k.status == [] then made.statusCode else k.statusCode
  {
    hide Run, Printed, HeadEvents, Switches, HeadersOk, StartOk, HeadOk, Headed, Ready;
    var q := PrintedRuns(p, k, request, order);
    LineHeard(p, q, HeadOf(k, request, order));
    HearPrinted(before, made, k, request, order, q.line);
  }

  /** A new parser is ready, for either kind of message. */
  lemma FreshReady(s: Start)
    ensures Ready(Fresh(KindOf(s)), s) && Fresh(KindOf(s)).nread == 0
  {
  }
}
