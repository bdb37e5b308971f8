/** HttpPacket and the HttpSession callbacks: printing a header, and hearing one from the parser. */
module HttpPacket {
  import opened Bytes
  import opened HttpSyntax
  import opened HttpMachine
  import opened HttpExecute
  import opened HttpRequestLine

  /** What an HttpPacket holds. */
  datatype Packet = Packet(
    verb: Method, statusCode: nat, major: nat, minor: nat, url: bytes, status: bytes,
    headers: map<bytes, bytes>, field: bytes, value: bytes)

  /** A new HttpPacket; its method and status code are not set. */
  predicate IsNew(k: Packet) {
    k == k.(major := 1, minor := 1, url := [], status := [], headers := map[], field := [], value := [])
  }

  // ----- Printing -----

  function HeaderLines(headers: map<bytes, bytes>, order: seq<bytes>): bytes
    requires forall f <- order :: f in headers
  {
    if order == [] then []
    else order[0] + COLON + headers[order[0]] + CRLF + HeaderLines(headers, order[1..])
  }

  lemma LinesFrom(headers: map<bytes, bytes>, order: seq<bytes>, i: nat)
    requires (forall f <- order :: f in headers) && i < |order|
    ensures var f := order[i];
            HeaderLines(headers, order[i..]) ==
            f + COLON + headers[f] + CRLF + HeaderLines(headers, order[i + 1..])
  {
    assert order[i..][1..] == order[i + 1..];
  }

  lemma NoLines(headers: map<bytes, bytes>, order: seq<bytes>)
    requires order == []
    ensures HeaderLines(headers, order) == []
  {
  }

  function StatusLine(k: Packet): bytes {
    HTTP_SLASH + VersionText(k.major, k.minor) + SPACE + Decimal(k.statusCode) + SPACE + k.status + CRLF
  }

  function Printed(k: Packet, request: bool, order: seq<bytes>): bytes
    requires forall f <- order :: f in k.headers
  {
    (if request then RequestLine(k.verb, k.url, k.major, k.minor) else StatusLine(k))
    + HeaderLines(k.headers, order) + CRLF
  }

  // ----- Hearing -----

  /** A header that is complete goes into the map. */
  function Stored(k: Packet): Packet {
    if k.field == [] then k else k.(headers := k.headers[k.field := k.value], field := [], value := [])
  }

  /** What a callback does to the packet; made is the packet a new message begins with. */
  function Heard(k: Packet, e: Event, line: Line, made: Packet): Packet {
    match e
    case Data(Url, s) => k.(url := k.url + s)
    case Data(Status, s) => k.(status := k.status + s, statusCode := line.status)
    case Data(Field, s) => Stored(k).(field := Stored(k).field + s)
    case Data(Value, s) => k.(value := k.value + s)
    case Data(Body, s) => k
    case Note(MessageBegin) => made
    case Note(HeadersComplete) => Stored(k).(major := line.major, minor := line.minor)
    case Note(MessageComplete) => k
  }

  function HearAll(k: Packet, events: seq<Event>, line: Line, made: Packet): Packet {
    if events == [] then k
    else Heard(HearAll(k, events[..|events| - 1], line, made), events[|events| - 1], line, made)
  }

  class HttpPacket {
    var verb: Method
    var statusCode: nat
    var major: nat
    var minor: nat
    var url: bytes
    var status: bytes
    var headers: map<bytes, bytes>
    var field: bytes
    var value: bytes

    constructor ()
      ensures IsNew(View())
    {
      major, minor, url, status, headers, field, value := 1, 1, [], [], map[], [], [];
    }

    function View(): Packet
      reads this
    {
      Packet(verb, statusCode, major, minor, url, status, headers, field, value)
    }

    /** MakeHeader; order is the order in which the map of headers is gone through. */
    method MakeHeader(request: bool, order: seq<bytes>) returns (out: bytes)
      requires forall f <- order :: f in headers
      ensures out == Printed(View(), request, order)
    {
      hide RequestLine, StatusLine, VersionText, MethodName;
      out := StartLine(request);
      var i := 0;
      ghost var start := out;
      while i < |order|
        invariant 0 <= i <= |order|
        invariant start + HeaderLines(headers, order) == out + HeaderLines(headers, order[i..])
      {
        var f := order[i];
        LinesFrom(headers, order, i);
        var line := f + COLON + headers[f] + CRLF;
        assert out + (line + HeaderLines(headers, order[i + 1..])) == out + line + HeaderLines(headers, order[i + 1..]);
        out := out + line;
        i := i + 1;
      }
      NoLines(headers, order[i..]);
      out := out + CRLF;
    }

    method StartLine(request: bool) returns (out: bytes)
      ensures out == if request then RequestLine(verb, url, major, minor) else StatusLine(View())
    {
      hide VersionText, MethodName;
      if request {
        out := MethodName(verb) + SPACE + url + SPACE;
        out := out + HTTP_SLASH + VersionText(major, minor) + CRLF;
      } else {
        out := HTTP_SLASH + VersionText(major, minor) + SPACE;
        out := out + Decimal(statusCode) + SPACE + status + CRLF;
      }
    }

    /** The common beginning of on_header_field and on_headers_complete. */
    method Store()
      modifies this
      ensures View() == Stored(old(View()))
    {
      if field != [] {
        headers := headers[field := value];
        field, value := [], [];
      }
    }
  }

  class HttpSession {
    var packet: HttpPacket?

    constructor ()
      ensures packet == null
    {
      packet := null;
    }

    method OnMessageBegin()
      modifies this
      ensures packet != null && fresh(packet) && IsNew(packet.View())
    {
      packet := new HttpPacket();
    }

    /**
     * The other callbacks of a parser whose start line so far is line.  A complete
     * message is left to the request that got its packet.
     */
    method OnEvent(e: Event, line: Line)
      requires e != Note(MessageBegin) && packet != null
      modifies this, packet
      ensures old(packet).View() == Heard(old(packet.View()), e, line, old(packet.View()))
      ensures packet == if e == Note(MessageComplete) then null else old(packet)
    {
      match e
      case Data(Url, s) =>
        packet.url := packet.url + s;
      case Data(Status, s) =>
        packet.status := packet.status + s;
        packet.statusCode := line.status;
      case Data(Field, s) =>
        packet.Store();
        packet.field := packet.field + s;
      case Data(Value, s) =>
        packet.value := packet.value + s;
      case Data(Body, s) =>
      case Note(HeadersComplete) =>
        packet.Store();
        packet.major, packet.minor := line.major, line.minor;
      case Note(MessageComplete) =>
        packet := null;
    }
  }
}
