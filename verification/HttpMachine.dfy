/**
 * The state machine inside http_parser_execute.  One pass through the switch is
 * the function Arm: new registers, and what it does to marks and callbacks.
 */
module HttpMachine {
  import opened Bytes
  import opened HttpSyntax

  datatype State =
    | Dead
    | StartReqOrRes | ResOrRespH
    | StartRes | ResH | ResHT | ResHTT | ResHTTP
    | ResFirstHttpMajor | ResHttpMajor | ResFirstHttpMinor | ResHttpMinor
    | ResFirstStatusCode | ResStatusCode | ResStatusStart | ResStatus | ResLineAlmostDone
    | StartReq | ReqMethod | ReqSpacesBeforeUrl
    | ReqSchema | ReqSchemaSlash | ReqSchemaSlashSlash | ReqServerStart | ReqServer | ReqServerWithAt
    | ReqPath | ReqQueryStringStart | ReqQueryString | ReqFragmentStart | ReqFragment
    | ReqHttpStart | ReqHttpH | ReqHttpHT | ReqHttpHTT | ReqHttpHTTP
    | ReqFirstHttpMajor | ReqHttpMajor | ReqFirstHttpMinor | ReqHttpMinor | ReqLineAlmostDone
    | HeaderFieldStart | HeaderField
    | HeaderValueDiscardWs | HeaderValueDiscardWsAlmostDone | HeaderValueDiscardLws
    | HeaderValueStart | HeaderValue | HeaderValueLws | HeaderAlmostDone
    | ChunkSizeStart | ChunkSize | ChunkParameters | ChunkSizeAlmostDone
    | HeadersAlmostDone | HeadersDone
    | ChunkData | ChunkDataAlmostDone | ChunkDataDone
    | BodyIdentity | BodyIdentityEof | MessageDone

  datatype HeaderState =
    | General | C | CO | CON
    | MatchingConnection | MatchingProxyConnection | MatchingContentLength | MatchingTransferEncoding | MatchingUpgrade
    | ConnectionHeader | ContentLengthHeader | TransferEncodingHeader | UpgradeHeader
    | MatchingChunked | MatchingKeepAlive | MatchingClose
    | ChunkedValue | KeepAliveValue | CloseValue

  datatype Kind = Request | Response | Both

  datatype Errno =
    | InvalidEofState | HeaderOverflow | ClosedConnection | InvalidVersion | InvalidStatus | InvalidMethod | InvalidUrl
    | LfExpected | InvalidHeaderToken | InvalidContentLength | InvalidChunkSize | InvalidConstant | Strict
    | AssertionFailed

  datatype Flags = Flags(chunked: bool, keepAlive: bool, close: bool, trailing: bool, upgrade: bool)

  const NO_FLAGS := Flags(false, false, false, false, false)
  const MAX_HEADER_SIZE: nat := 80 * 1024
  const ULLONG_MAX: nat := 0xFFFF_FFFF_FFFF_FFFF

  type uint64 = n: nat | n <= ULLONG_MAX

  /** The start line: versions, status code, method. */
  datatype Line = Line(major: nat, minor: nat, status: nat, verb: Method)

  /** The registers of http_parser, but for http_errno. */
  datatype Parser = Parser(
    kind: Kind, flags: Flags, state: State, header: HeaderState, index: nat,
    nread: nat, contentLength: uint64, line: Line, upgrade: bool)

  /** http_parser_init. */
  function Fresh(kind: Kind): Parser {
    Parser(kind, NO_FLAGS,
           match kind case Request => StartReq case Response => StartRes case Both => StartReqOrRes,
           General, 0, 0, 0, Line(0, 0, 0, DELETE), false)
  }

  predicate ParsingHeader(s: State) {
    && !s.ChunkData? && !s.ChunkDataAlmostDone? && !s.ChunkDataDone?
    && !s.BodyIdentity? && !s.BodyIdentityEof? && !s.MessageDone?
  }

  /** The data callbacks, and the notifications. */
  datatype Part = Url | Status | Field | Value | Body
  datatype Notice = MessageBegin | HeadersComplete | MessageComplete

  /** Break: next byte.  Again: the same byte in the new state.  Exit: leave after this byte. */
  datatype Control = Break | Again | Exit | Fail(errno: Errno)

  /**
   * One pass: mark sets a mark at this byte if it is not set; flush delivers the
   * marked data; then the notice.
   */
  datatype Arm = Arm(p: Parser, mark: Option<Part>, flush: Option<Part>, notice: Option<Notice>, control: Control)

  function Go(p: Parser): Arm {
    Arm(p, None, None, None, Break)
  }

  function To(p: Parser, s: State): Arm {
    Go(p.(state := s))
  }

  function Retry(p: Parser, s: State): Arm {
    To(p, s).(control := Again)
  }

  function Error(p: Parser, e: Errno): Arm {
    Go(p).(control := Fail(e))
  }

  function Expect(p: Parser, ok: bool, s: State): Arm {
    if ok then To(p, s) else Error(p, Strict)
  }

  // ----- Message framing -----

  predicate NeedsEof(p: Parser) {
    && p.kind != Request
    && !(p.line.status / 100 == 1 || p.line.status == 204 || p.line.status == 304)
    && !(p.flags.chunked || p.contentLength != ULLONG_MAX)
  }

  predicate ShouldKeepAlive(p: Parser) {
    && (if p.line.major > 0 && p.line.minor > 0 then !p.flags.close else p.flags.keepAlive)
    && !NeedsEof(p)
  }

  /** The state in which the next message starts. */
  function NewMessage(p: Parser): State {
    if ShouldKeepAlive(p) then (if p.kind == Request then StartReq else StartRes) else Dead
  }

  function Complete(p: Parser): Arm {
    To(p, NewMessage(p)).(notice := Some(MessageComplete))
  }

  // ----- URL -----

  predicate UrlState(s: State) {
    || s.ReqSchema? || s.ReqSchemaSlash? || s.ReqSchemaSlashSlash?
    || s.ReqServerStart? || s.ReqServer? || s.ReqServerWithAt? || s.ReqPath?
    || s.ReqQueryStringStart? || s.ReqQueryString? || s.ReqFragmentStart? || s.ReqFragment?
  }

  /** parse_url_char; Dead on an error. */
  function ParseUrlChar(s: State, ch: byte): (t: State)
    ensures t.Dead? || UrlState(t)
  {
    if ch == ' ' || ch == '\r' || ch == '\n' || ch == '\t' || ch == '\U{0C}' then Dead
    else
      match s
      case ReqSpacesBeforeUrl =>
        if ch == '/' || ch == '*' then ReqPath else if IsAlpha(ch) then ReqSchema else Dead
      case ReqSchema => if IsAlpha(ch) then ReqSchema else if ch == ':' then ReqSchemaSlash else Dead
      case ReqSchemaSlash => if ch == '/' then ReqSchemaSlashSlash else Dead
      case ReqSchemaSlashSlash => if ch == '/' then ReqServerStart else Dead
      case ReqServerWithAt => if ch == '@' then Dead else ServerChar(ch)
      case ReqServerStart => ServerChar(ch)
      case ReqServer => ServerChar(ch)
      case ReqPath =>
        if IsUrlChar(ch) then ReqPath
        else if ch == '?' then ReqQueryStringStart
        else if ch == '#' then ReqFragmentStart
        else Dead
      case ReqQueryStringStart => QueryChar(ch)
      case ReqQueryString => QueryChar(ch)
      case ReqFragmentStart =>
        if IsUrlChar(ch) || ch == '?' then ReqFragment else if ch == '#' then ReqFragmentStart else Dead
      case ReqFragment => if IsUrlChar(ch) || ch == '?' || ch == '#' then ReqFragment else Dead
      case _ => Dead
  }

  function ServerChar(ch: byte): State {
    if ch == '/' then ReqPath
    else if ch == '?' then ReqQueryStringStart
    else if ch == '@' then ReqServerWithAt
    else if IsUserinfoChar(ch) || ch == '[' || ch == ']' then ReqServer
    else Dead
  }

  function QueryChar(ch: byte): State {
    if IsUrlChar(ch) || ch == '?' then ReqQueryString
    else if ch == '#' then ReqFragmentStart
    else Dead
  }

  function UrlStep(p: Parser, from: State, ch: byte): (a: Arm)
    ensures a.control != Again && a.mark.None? && a.flush.None? && a.notice.None?
    ensures !a.control.Fail? ==> UrlState(a.p.state)
  {
    var s := ParseUrlChar(from, ch);
    if s.Dead? then Error(p, InvalidUrl) else To(p, s)
  }

  // ----- Numbers in the start line -----

  function FirstDigit(p: Parser, ok: bool, l: Line, s: State, e: Errno): Arm {
    if ok then To(p.(line := l), s) else Error(p, e)
  }

  /** A further digit of a number that may not exceed 999. */
  function MoreDigit(p: Parser, ch: byte, n: nat, l: Line, e: Errno): Arm {
    if !IsDigit(ch) || n > 999 then Error(p, e) else Go(p.(line := l))
  }

  function Shifted(n: nat, ch: byte): (r: nat)
    ensures n == 0 ==> r <= 9
  {
    if IsDigit(ch) then n * 10 + DigitValue(ch) else n
  }

  /** Bounds the passes over one byte. */
  function Rank(s: State): nat {
    match s
    case HeaderValueLws => 3
    case HeaderValueDiscardLws => 3
    case HeaderFieldStart => 2
    case StartReqOrRes => 1
    case HeadersAlmostDone => 1
    case BodyIdentity => 1
    case HeaderValue => 1
    case _ => 0
  }

  // ----- Start lines -----

  function ArmStart(p: Parser, ch: byte): (a: Arm)
    ensures a.control == Again ==> p.state.StartReqOrRes? && a.p.state.StartReq?
  {
    var q := p.(flags := NO_FLAGS, contentLength := ULLONG_MAX);
    match p.state
    case Dead => if ch == '\r' || ch == '\n' then Go(p) else Error(p, ClosedConnection)
    case StartReqOrRes =>
      if ch == '\r' || ch == '\n' then Go(p)
      else if ch == 'H' then To(q, ResOrRespH).(notice := Some(MessageBegin))
      else Retry(q.(kind := Request), StartReq)
    case ResOrRespH =>
      if ch == 'T' then To(p.(kind := Response), ResHT)
      else if ch == 'E' then To(p.(kind := Request, line := p.line.(verb := HEAD), index := 2), ReqMethod)
      else Error(p, InvalidConstant)
    case StartRes =>
      if ch == 'H' then To(q, ResH).(notice := Some(MessageBegin))
      else if ch == '\r' || ch == '\n' then Go(q).(notice := Some(MessageBegin))
      else Error(q, InvalidConstant)
    case StartReq =>
      if ch == '\r' || ch == '\n' then Go(p)
      else if FirstGuess(ch).None? then Error(q, InvalidMethod)
      else
        To(q.(line := p.line.(verb := FirstGuess(ch).value), index := 1), ReqMethod).(notice := Some(MessageBegin))
    case _ => Error(p, AssertionFailed)
  }

  function ArmResponse(p: Parser, ch: byte): (a: Arm)
    ensures a.control != Again
  {
    var l := p.line;
    match p.state
    case ResH => Expect(p, ch == 'T', ResHT)
    case ResHT => Expect(p, ch == 'T', ResHTT)
    case ResHTT => Expect(p, ch == 'P', ResHTTP)
    case ResHTTP => Expect(p, ch == '/', ResFirstHttpMajor)
    case ResFirstHttpMajor =>
      FirstDigit(p, IsDigit(ch), l.(major := Shifted(0, ch)), ResHttpMajor, InvalidVersion)
    case ResHttpMajor =>
      if ch == '.' then To(p, ResFirstHttpMinor)
      else MoreDigit(p, ch, Shifted(l.major, ch), l.(major := Shifted(l.major, ch)), InvalidVersion)
    case ResFirstHttpMinor =>
      FirstDigit(p, IsDigit(ch), l.(minor := Shifted(0, ch)), ResHttpMinor, InvalidVersion)
    case ResHttpMinor =>
      if ch == ' ' then To(p, ResFirstStatusCode)
      else MoreDigit(p, ch, Shifted(l.minor, ch), l.(minor := Shifted(l.minor, ch)), InvalidVersion)
    case ResFirstStatusCode =>
      if ch == ' ' then Go(p)
      else FirstDigit(p, IsDigit(ch), l.(status := Shifted(0, ch)), ResStatusCode, InvalidStatus)
    case ResStatusCode =>
      if ch == ' ' then To(p, ResStatusStart)
      else if ch == '\r' then To(p, ResLineAlmostDone)
      else if ch == '\n' then To(p, HeaderFieldStart)
      else MoreDigit(p, ch, Shifted(l.status, ch), l.(status := Shifted(l.status, ch)), InvalidStatus)
    case ResStatusStart =>
      if ch == '\r' then To(p, ResLineAlmostDone)
      else if ch == '\n' then To(p, HeaderFieldStart)
      else To(p.(index := 0), ResStatus).(mark := Some(Status))
    case ResStatus =>
      if ch == '\r' then To(p, ResLineAlmostDone).(flush := Some(Status))
      else if ch == '\n' then To(p, HeaderFieldStart).(flush := Some(Status))
      else Go(p)
    case ResLineAlmostDone => Expect(p, ch == '\n', HeaderFieldStart)
    case _ => Error(p, AssertionFailed)
  }

  function ArmMethod(p: Parser, ch: byte): (a: Arm)
    ensures a.control != Again
  {
    var name, i := MethodName(p.line.verb), p.index;
    if ch == '\0' then Error(p, InvalidMethod)
    else if ch == ' ' && i == |name| then To(p.(index := i + 1), ReqSpacesBeforeUrl)
    else if i < |name| && ch == name[i] then Go(p.(index := i + 1))
    else
      match NextGuess(p.line.verb, i, ch)
      case None => Error(p, InvalidMethod)
      case Some(m) => Go(p.(line := p.line.(verb := m), index := i + 1))
  }

  function ArmUrl(p: Parser, ch: byte): (a: Arm)
    ensures a.control != Again
  {
    if p.state.ReqSpacesBeforeUrl? then
      if ch == ' ' then Go(p)
      else UrlStep(p, if p.line.verb == CONNECT then ReqServerStart else ReqSpacesBeforeUrl, ch).(mark := Some(Url))
    else if || p.state.ReqSchema? || p.state.ReqSchemaSlash?
            || p.state.ReqSchemaSlashSlash? || p.state.ReqServerStart? then
      UrlStep(p, p.state, ch)
    else if ch == ' ' then To(p, ReqHttpStart).(flush := Some(Url))
    else if ch == '\r' || ch == '\n' then
      To(p.(line := p.line.(major := 0, minor := 9)),
         if ch == '\r' then ReqLineAlmostDone else HeaderFieldStart).(flush := Some(Url))
    else UrlStep(p, p.state, ch)
  }

  function ArmVersion(p: Parser, ch: byte): (a: Arm)
    ensures a.control != Again
  {
    var l := p.line;
    match p.state
    case ReqHttpStart =>
      if ch == 'H' then To(p, ReqHttpH) else if ch == ' ' then Go(p) else Error(p, InvalidConstant)
    case ReqHttpH => Expect(p, ch == 'T', ReqHttpHT)
    case ReqHttpHT => Expect(p, ch == 'T', ReqHttpHTT)
    case ReqHttpHTT => Expect(p, ch == 'P', ReqHttpHTTP)
    case ReqHttpHTTP => Expect(p, ch == '/', ReqFirstHttpMajor)
    case ReqFirstHttpMajor =>
      FirstDigit(p, IsDigit(ch) && ch != '0', l.(major := Shifted(0, ch)), ReqHttpMajor, InvalidVersion)
    case ReqHttpMajor =>
      if ch == '.' then To(p, ReqFirstHttpMinor)
      else MoreDigit(p, ch, Shifted(l.major, ch), l.(major := Shifted(l.major, ch)), InvalidVersion)
    case ReqFirstHttpMinor =>
      FirstDigit(p, IsDigit(ch), l.(minor := Shifted(0, ch)), ReqHttpMinor, InvalidVersion)
    case ReqHttpMinor =>
      if ch == '\r' then To(p, ReqLineAlmostDone)
      else if ch == '\n' then To(p, HeaderFieldStart)
      else MoreDigit(p, ch, Shifted(l.minor, ch), l.(minor := Shifted(l.minor, ch)), InvalidVersion)
    case ReqLineAlmostDone => if ch == '\n' then To(p, HeaderFieldStart) else Error(p, LfExpected)
    case _ => Error(p, AssertionFailed)
  }

  // ----- Headers -----

  /** One more character of a word being matched. */
  function Matched(p: Parser, word: bytes, c: byte, done: HeaderState): Parser
    requires |word| > 0
  {
    var i := p.index + 1;
    if i >= |word| || c != word[i] then p.(index := i, header := General)
    else if i == |word| - 1 then p.(index := i, header := done)
    else p.(index := i)
  }

  /** A token character of a field name; None where the code asserts. */
  function FieldChar(p: Parser, ch: byte): Option<Parser> {
    var c := Token(ch);
    match p.header
    case General => Some(p)
    case C => Some(p.(index := p.index + 1, header := if c == 'o' then CO else General))
    case CO => Some(p.(index := p.index + 1, header := if c == 'n' then CON else General))
    case CON =>
      Some(p.(index := p.index + 1,
              header := if c == 'n' then MatchingConnection else if c == 't' then MatchingContentLength else General))
    case MatchingConnection => Some(Matched(p, CONNECTION, c, ConnectionHeader))
    case MatchingProxyConnection => Some(Matched(p, PROXY_CONNECTION, c, ConnectionHeader))
    case MatchingContentLength => Some(Matched(p, CONTENT_LENGTH, c, ContentLengthHeader))
    case MatchingTransferEncoding => Some(Matched(p, TRANSFER_ENCODING, c, TransferEncodingHeader))
    case MatchingUpgrade => Some(Matched(p, UPGRADE, c, UpgradeHeader))
    case ConnectionHeader => Some(if ch != ' ' then p.(header := General) else p)
    case ContentLengthHeader => Some(if ch != ' ' then p.(header := General) else p)
    case TransferEncodingHeader => Some(if ch != ' ' then p.(header := General) else p)
    case UpgradeHeader => Some(if ch != ' ' then p.(header := General) else p)
    case _ => None
  }

  function FieldStart(p: Parser, c: byte): Parser {
    p.(index := 0, state := HeaderField,
       header := match c
                 case 'c' => C
                 case 'p' => MatchingProxyConnection
                 case 't' => MatchingTransferEncoding
                 case 'u' => MatchingUpgrade
                 case _ => General)
  }

  function ArmField(p: Parser, ch: byte): (a: Arm)
    ensures a.control == Again ==> p.state.HeaderFieldStart? && a.p.state.HeadersAlmostDone?
  {
    if p.state.HeaderFieldStart? then
      if ch == '\r' then To(p, HeadersAlmostDone)
      else if ch == '\n' then Retry(p, HeadersAlmostDone)
      else if Token(ch) == '\0' then Error(p, InvalidHeaderToken)
      else Go(FieldStart(p, Token(ch))).(mark := Some(Field))
    else if Token(ch) != '\0' then
      match FieldChar(p, ch)
      case None => Error(p, AssertionFailed)
      case Some(q) => Go(q)
    else if ch == ':' then To(p, HeaderValueDiscardWs).(flush := Some(Field))
    else if ch == '\r' then To(p, HeaderAlmostDone).(flush := Some(Field))
    else if ch == '\n' then To(p, HeaderFieldStart).(flush := Some(Field))
    else Error(p, InvalidHeaderToken)
  }

  /** The first character of a value decides what to look for in it. */
  function ArmValueStart(p: Parser, ch: byte): Arm {
    var q := p.(state := HeaderValue, index := 0);
    var c := Lower(ch);
    var marked := Go(q).(mark := Some(Value));
    match p.header
    case UpgradeHeader => marked.(p := q.(flags := p.flags.(upgrade := true), header := General))
    case TransferEncodingHeader => marked.(p := q.(header := if c == 'c' then MatchingChunked else General))
    case ContentLengthHeader =>
      if !IsDigit(ch) then marked.(control := Fail(InvalidContentLength))
      else marked.(p := q.(contentLength := DigitValue(ch)))
    case ConnectionHeader =>
      marked.(p := q.(header := if c == 'k' then MatchingKeepAlive else if c == 'c' then MatchingClose else General))
    case _ => marked.(p := q.(header := General))
  }

  /** t * base + digit, refused on a conservative overflow check. */
  function Accumulate(p: Parser, base: nat, digit: nat): Arm
    requires base > 0
  {
    if (ULLONG_MAX - base) / base < p.contentLength then Error(p, InvalidContentLength)
    else Go(p.(contentLength := (p.contentLength * base + digit) % (ULLONG_MAX + 1)))
  }

  function ValueChar(p: Parser, ch: byte): Arm {
    var c := Lower(ch);
    match p.header
    case General => Go(p)
    case ConnectionHeader => Error(p, AssertionFailed)
    case TransferEncodingHeader => Error(p, AssertionFailed)
    case ContentLengthHeader =>
      if ch == ' ' then Go(p)
      else if !IsDigit(ch) then Error(p, InvalidContentLength)
      else Accumulate(p, 10, DigitValue(ch))
    case MatchingChunked => Go(Matched(p, CHUNKED, c, ChunkedValue))
    case MatchingKeepAlive => Go(Matched(p, KEEP_ALIVE, c, KeepAliveValue))
    case MatchingClose => Go(Matched(p, CLOSE, c, CloseValue))
    case ChunkedValue => Go(if ch != ' ' then p.(header := General) else p)
    case KeepAliveValue => Go(if ch != ' ' then p.(header := General) else p)
    case CloseValue => Go(if ch != ' ' then p.(header := General) else p)
    case _ => Go(p.(header := General))
  }

  /** A header line is over: note what its value said. */
  function HeaderDone(p: Parser): Parser {
    var f := p.flags;
    p.(flags := match p.header
                case KeepAliveValue => f.(keepAlive := true)
                case CloseValue => f.(close := true)
                case ChunkedValue => f.(chunked := true)
                case _ => f)
  }

  function ArmValue(p: Parser, ch: byte): (a: Arm)
    ensures a.control == Again ==> Rank(a.p.state) < Rank(p.state)
  {
    match p.state
    case HeaderValueDiscardWs =>
      if ch == ' ' || ch == '\t' then Go(p)
      else if ch == '\r' then To(p, HeaderValueDiscardWsAlmostDone)
      else if ch == '\n' then To(p, HeaderValueDiscardLws)
      else ArmValueStart(p, ch)
    case HeaderValueStart => ArmValueStart(p, ch)
    case HeaderValue =>
      if ch == '\r' then To(p, HeaderAlmostDone).(flush := Some(Value))
      else if ch == '\n' then Retry(p, HeaderAlmostDone).(flush := Some(Value))
      else ValueChar(p, ch)
    case HeaderAlmostDone => Expect(p, ch == '\n', HeaderValueLws)
    case HeaderValueLws =>
      if ch == ' ' || ch == '\t' then Retry(p, HeaderValueStart) else Retry(HeaderDone(p), HeaderFieldStart)
    case HeaderValueDiscardWsAlmostDone => Expect(p, ch == '\n', HeaderValueDiscardLws)
    case HeaderValueDiscardLws =>
      if ch == ' ' || ch == '\t' then To(p, HeaderValueDiscardWs)
      else Retry(p, HeaderFieldStart).(mark := Some(Value), flush := Some(Value))
    case _ => Error(p, AssertionFailed)
  }

  // ----- End of headers, bodies -----

  function ArmHeadersEnd(p: Parser, ch: byte): (a: Arm)
    ensures a.control == Again ==> p.state.HeadersAlmostDone? && a.p.state.HeadersDone?
  {
    if ch != '\n' then Error(p, Strict)
    else if p.state.HeadersAlmostDone? then
      if p.flags.trailing then Complete(p)
      else
        Retry(p.(upgrade := p.flags.upgrade || p.line.verb == CONNECT), HeadersDone).(notice := Some(HeadersComplete))
    else if !p.state.HeadersDone? then Error(p, AssertionFailed)
    else
      var q := p.(nread := 0);
      if p.upgrade then Complete(q).(control := Exit)
      else if p.flags.chunked then To(q, ChunkSizeStart)
      else if p.contentLength == 0 then Complete(q)
      else if p.contentLength != ULLONG_MAX then To(q, BodyIdentity)
      else if p.kind == Request || !NeedsEof(p) then Complete(q)
      else To(q, BodyIdentityEof)
  }

  function Min(a: nat, b: nat): nat {
    if a < b then a else b
  }

  /** States that take as many bytes as they can at once. */
  predicate BulkState(s: State) {
    s.ChunkData? || s.BodyIdentity? || s.BodyIdentityEof?
  }

  /** What the code asserts before it takes body bytes. */
  predicate BodyAsserts(p: Parser) {
    p.state.BodyIdentityEof? || (0 < p.contentLength != ULLONG_MAX && (p.state.ChunkData? ==> p.flags.chunked))
  }

  /** How many of the avail bytes left, the current one included, a pass takes. */
  function Taken(p: Parser, avail: nat): (n: nat)
    requires avail > 0
    ensures 1 <= n <= avail
  {
    if !BulkState(p.state) || !BodyAsserts(p) then 1
    else if p.state.BodyIdentityEof? then avail
    else Min(p.contentLength, avail)
  }

  /** Whether a flush delivers the last byte taken as well. */
  predicate Inclusive(p: Parser) {
    p.state.BodyIdentity?
  }

  function ArmBody(p: Parser, avail: nat): (a: Arm)
    requires avail > 0
    ensures a.control == Again ==> p.state.BodyIdentity? && a.p.state.MessageDone?
  {
    var q := p.(contentLength := p.contentLength - Min(p.contentLength, avail));
    match p.state
    case BodyIdentity =>
      if !BodyAsserts(p) then Error(p, AssertionFailed)
      else if q.contentLength == 0 then Arm(q.(state := MessageDone), Some(Body), Some(Body), None, Again)
      else Go(q).(mark := Some(Body))
    case BodyIdentityEof => Go(p).(mark := Some(Body))
    case MessageDone => Complete(p)
    case ChunkData =>
      if !BodyAsserts(p) then Error(p, AssertionFailed)
      else To(q, if q.contentLength == 0 then ChunkDataAlmostDone else ChunkData).(mark := Some(Body))
    case _ => Error(p, AssertionFailed)
  }

  function ArmChunk(p: Parser, ch: byte): (a: Arm)
    ensures a.control != Again
  {
    if !p.flags.chunked then Error(p, AssertionFailed)
    else
      match p.state
      case ChunkSizeStart =>
        if p.nread != 1 then Error(p, AssertionFailed)
        else if Unhex(ch) == -1 then Error(p, InvalidChunkSize)
        else To(p.(contentLength := Unhex(ch)), ChunkSize)
      case ChunkSize =>
        if ch == '\r' then To(p, ChunkSizeAlmostDone)
        else if Unhex(ch) == -1 then
          if ch == ';' || ch == ' ' then To(p, ChunkParameters) else Error(p, InvalidChunkSize)
        else Accumulate(p, 16, Unhex(ch))
      case ChunkParameters => if ch == '\r' then To(p, ChunkSizeAlmostDone) else Go(p)
      case ChunkSizeAlmostDone =>
        if ch != '\n' then Error(p, Strict)
        else if p.contentLength == 0 then To(p.(nread := 0, flags := p.flags.(trailing := true)), HeaderFieldStart)
        else To(p.(nread := 0), ChunkData)
      case ChunkDataAlmostDone =>
        if p.contentLength != 0 then Error(p, AssertionFailed)
        else if ch != '\r' then Error(p, Strict)
        else To(p, ChunkDataDone).(flush := Some(Body))
      case ChunkDataDone => if ch != '\n' then Error(p, Strict) else To(p.(nread := 0), ChunkSizeStart)
      case _ => Error(p, AssertionFailed)
  }

  datatype Group = StartGroup | ResponseGroup | MethodGroup | UrlGroup | VersionGroup | FieldGroup | ValueGroup
                 | EndGroup | ChunkGroup | BodyGroup

  /** Which function handles a state. */
  function GroupOf(s: State): Group {
    match s
    case Dead => StartGroup case StartReqOrRes => StartGroup case ResOrRespH => StartGroup
    case StartRes => StartGroup case StartReq => StartGroup
    case ReqMethod => MethodGroup
    case ReqSpacesBeforeUrl => UrlGroup case ReqSchema => UrlGroup case ReqSchemaSlash => UrlGroup
    case ReqSchemaSlashSlash => UrlGroup case ReqServerStart => UrlGroup case ReqServer => UrlGroup
    case ReqServerWithAt => UrlGroup case ReqPath => UrlGroup case ReqQueryStringStart => UrlGroup
    case ReqQueryString => UrlGroup case ReqFragmentStart => UrlGroup case ReqFragment => UrlGroup
    case ReqHttpStart => VersionGroup case ReqHttpH => VersionGroup case ReqHttpHT => VersionGroup
    case ReqHttpHTT => VersionGroup case ReqHttpHTTP => VersionGroup case ReqFirstHttpMajor => VersionGroup
    case ReqHttpMajor => VersionGroup case ReqFirstHttpMinor => VersionGroup case ReqHttpMinor => VersionGroup
    case ReqLineAlmostDone => VersionGroup
    case HeaderFieldStart => FieldGroup case HeaderField => FieldGroup
    case HeaderValueDiscardWs => ValueGroup case HeaderValueDiscardWsAlmostDone => ValueGroup
    case HeaderValueDiscardLws => ValueGroup case HeaderValueStart => ValueGroup case HeaderValue => ValueGroup
    case HeaderValueLws => ValueGroup case HeaderAlmostDone => ValueGroup
    case HeadersAlmostDone => EndGroup case HeadersDone => EndGroup
    case ChunkSizeStart => ChunkGroup case ChunkSize => ChunkGroup case ChunkParameters => ChunkGroup
    case ChunkSizeAlmostDone => ChunkGroup case ChunkDataAlmostDone => ChunkGroup case ChunkDataDone => ChunkGroup
    case ChunkData => BodyGroup case BodyIdentity => BodyGroup case BodyIdentityEof => BodyGroup
    case MessageDone => BodyGroup
    case _ => ResponseGroup
  }

  /** One pass through the switch for byte ch, with avail bytes left. */
  function Pass(p: Parser, ch: byte, avail: nat): (a: Arm)
    requires avail > 0
    ensures a.control == Again ==> Rank(a.p.state) < Rank(p.state)
  {
    match GroupOf(p.state)
    case StartGroup => ArmStart(p, ch)
    case ResponseGroup => ArmResponse(p, ch)
    case MethodGroup => ArmMethod(p, ch)
    case UrlGroup => ArmUrl(p, ch)
    case VersionGroup => ArmVersion(p, ch)
    case FieldGroup => ArmField(p, ch)
    case ValueGroup => ArmValue(p, ch)
    case EndGroup => ArmHeadersEnd(p, ch)
    case ChunkGroup => ArmChunk(p, ch)
    case BodyGroup => ArmBody(p, avail)
  }
}
