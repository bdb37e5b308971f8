/** Character classes, method names and header names of http_parser, strict build. */
module HttpSyntax {
  import opened Bytes

  predicate IsAlpha(c: byte) {
    'A' <= c <= 'Z' || 'a' <= c <= 'z'
  }

  predicate IsAlphaNum(c: byte) {
    IsAlpha(c) || IsDigit(c)
  }

  /** c | 0x20. */
  function Lower(c: byte): byte {
    if (c as int / 32) % 2 == 0 then (c as int + 32) as char else c
  }

  /** The characters of a token beside letters and digits. */
  predicate IsTokenMark(c: byte) {
    || c == '!' || c == '#' || c == '$' || c == '%' || c == '&' || c == '\'' || c == '*' || c == '+'
    || c == '-' || c == '.' || c == '^' || c == '_' || c == '`' || c == '|' || c == '~'
  }

  /** The lower-case form of a token character, NUL for any other. */
  function Token(c: byte): byte {
    if 'A' <= c <= 'Z' then (c as int + 32) as char
    else if 'a' <= c <= 'z' || IsDigit(c) then c
    else if IsTokenMark(c) then c
    else '\0'
  }

  predicate IsUrlChar(c: byte) {
    '!' <= c <= '~' && c != '#' && c != '?'
  }

  predicate IsMark(c: byte) {
    c == '-' || c == '_' || c == '.' || c == '!' || c == '~' || c == '*' || c == '\'' || c == '(' || c == ')'
  }

  predicate IsUserinfoChar(c: byte) {
    || IsAlphaNum(c) || IsMark(c)
    || c == '%' || c == ';' || c == ':' || c == '&' || c == '=' || c == '+' || c == '$' || c == ','
  }

  function Unhex(c: byte): (v: int)
    ensures -1 <= v < 16
  {
    if IsDigit(c) then DigitValue(c)
    else if 'a' <= c <= 'f' then c as int - 'a' as int + 10
    else if 'A' <= c <= 'F' then c as int - 'A' as int + 10
    else -1
  }

  const PROXY_CONNECTION: bytes := "proxy-connection"
  const CONNECTION: bytes := "connection"
  const CONTENT_LENGTH: bytes := "content-length"
  const TRANSFER_ENCODING: bytes := "transfer-encoding"
  const UPGRADE: bytes := "upgrade"
  const CHUNKED: bytes := "chunked"
  const KEEP_ALIVE: bytes := "keep-alive"
  const CLOSE: bytes := "close"

  datatype Method =
    | DELETE | GET | HEAD | POST | PUT | CONNECT | OPTIONS | TRACE
    | COPY | LOCK | MKCOL | MOVE | PROPFIND | PROPPATCH | SEARCH | UNLOCK
    | REPORT | MKACTIVITY | CHECKOUT | MERGE
    | MSEARCH | NOTIFY | SUBSCRIBE | UNSUBSCRIBE
    | PATCH | PURGE | MKCALENDAR

  function MethodName(m: Method): bytes {
    match m
    case DELETE => "DELETE" case GET => "GET" case HEAD => "HEAD" case POST => "POST" case PUT => "PUT"
    case CONNECT => "CONNECT" case OPTIONS => "OPTIONS" case TRACE => "TRACE"
    case COPY => "COPY" case LOCK => "LOCK" case MKCOL => "MKCOL" case MOVE => "MOVE"
    case PROPFIND => "PROPFIND" case PROPPATCH => "PROPPATCH" case SEARCH => "SEARCH" case UNLOCK => "UNLOCK"
    case REPORT => "REPORT" case MKACTIVITY => "MKACTIVITY" case CHECKOUT => "CHECKOUT" case MERGE => "MERGE"
    case MSEARCH => "M-SEARCH" case NOTIFY => "NOTIFY" case SUBSCRIBE => "SUBSCRIBE"
    case UNSUBSCRIBE => "UNSUBSCRIBE"
    case PATCH => "PATCH" case PURGE => "PURGE" case MKCALENDAR => "MKCALENDAR"
  }

  /** The method guessed from the first letter. */
  function FirstGuess(c: byte): Option<Method> {
    match c
    case 'C' => Some(CONNECT)
    case 'D' => Some(DELETE)
    case 'G' => Some(GET)
    case 'H' => Some(HEAD)
    case 'L' => Some(LOCK)
    case 'M' => Some(MKCOL)
    case 'N' => Some(NOTIFY)
    case 'O' => Some(OPTIONS)
    case 'P' => Some(POST)
    case 'R' => Some(REPORT)
    case 'S' => Some(SUBSCRIBE)
    case 'T' => Some(TRACE)
    case 'U' => Some(UNLOCK)
    case _ => None
  }

  /** The guess after character c at position index did not match the current one. */
  function NextGuess(m: Method, index: nat, c: byte): Option<Method> {
    if m == CONNECT then
      if index == 1 && c == 'H' then Some(CHECKOUT)
      else if index == 2 && c == 'P' then Some(COPY)
      else None
    else if m == MKCOL then
      if index == 1 && c == 'O' then Some(MOVE)
      else if index == 1 && c == 'E' then Some(MERGE)
      else if index == 1 && c == '-' then Some(MSEARCH)
      else if index == 2 && c == 'A' then Some(MKACTIVITY)
      else if index == 3 && c == 'A' then Some(MKCALENDAR)
      else None
    else if m == SUBSCRIBE then
      if index == 1 && c == 'E' then Some(SEARCH) else None
    else if index == 1 && m == POST then
      if c == 'R' then Some(PROPFIND)
      else if c == 'U' then Some(PUT)
      else if c == 'A' then Some(PATCH)
      else None
    else if index == 2 then
      if m == PUT then (if c == 'R' then Some(PURGE) else None)
      else if m == UNLOCK then (if c == 'S' then Some(UNSUBSCRIBE) else None)
      else None
    else if index == 4 && m == PROPFIND && c == 'P' then Some(PROPPATCH)
    else None
  }

  /** Names a and b start with the same index characters, and c follows in b. */
  predicate AgreesUpTo(a: bytes, b: bytes, index: nat, c: byte) {
    index < |a| && index < |b| && b[..index] == a[..index] && b[index] == c
  }

  /** The same, when both names begin with the same word. */
  lemma SharedStart(a: Method, b: Method, start: bytes, c: byte)
    requires start <= MethodName(a) && start < MethodName(b) && |start| < |MethodName(a)|
    requires MethodName(b)[|start|] == c
    ensures AgreesUpTo(MethodName(a), MethodName(b), |start|, c)
  {
    hide MethodName;
  }

  lemma ConnectAgrees(index: nat, c: byte)
    requires NextGuess(CONNECT, index, c).Some?
    ensures AgreesUpTo(MethodName(CONNECT), MethodName(NextGuess(CONNECT, index, c).value), index, c)
  {
    if index == 1 {
      SharedStart(CONNECT, CHECKOUT, "C", c);
    } else {
      SharedStart(CONNECT, COPY, "CO", c);
    }
  }

  lemma MkcolAgrees(index: nat, c: byte)
    requires NextGuess(MKCOL, index, c).Some?
    ensures AgreesUpTo(MethodName(MKCOL), MethodName(NextGuess(MKCOL, index, c).value), index, c)
  {
    if index == 1 {
      SharedStart(MKCOL, if c == 'O' then MOVE else if c == 'E' then MERGE else MSEARCH, "M", c);
    } else if index == 2 {
      SharedStart(MKCOL, MKACTIVITY, "MK", c);
    } else {
      SharedStart(MKCOL, MKCALENDAR, "MKC", c);
    }
  }

  lemma PostAgrees(c: byte)
    requires c == 'R' || c == 'U' || c == 'A'
    ensures AgreesUpTo(MethodName(POST), MethodName(NextGuess(POST, 1, c).value), 1, c)
  {
    SharedStart(POST, if c == 'R' then PROPFIND else if c == 'U' then PUT else PATCH, "P", c);
  }

  lemma LongAgree()
    ensures AgreesUpTo(MethodName(SUBSCRIBE), MethodName(SEARCH), 1, 'E')
    ensures AgreesUpTo(MethodName(PROPFIND), MethodName(PROPPATCH), 4, 'P')
  {
    SharedStart(SUBSCRIBE, SEARCH, "S", 'E');
    SharedStart(PROPFIND, PROPPATCH, "PROP", 'P');
  }

  lemma ThirdAgree()
    ensures AgreesUpTo(MethodName(PUT), MethodName(PURGE), 2, 'R')
    ensures AgreesUpTo(MethodName(UNLOCK), MethodName(UNSUBSCRIBE), 2, 'S')
  {
    SharedStart(PUT, PURGE, "PU", 'R');
    SharedStart(UNLOCK, UNSUBSCRIBE, "UN", 'S');
  }

  /** A changed guess agrees with the old one on what has been read, and with the new character. */
  lemma NextGuessAgrees(m: Method, index: nat, c: byte)
    requires NextGuess(m, index, c).Some?
    ensures AgreesUpTo(MethodName(m), MethodName(NextGuess(m, index, c).value), index, c)
  {
    hide MethodName, AgreesUpTo;
    LongAgree();
    ThirdAgree();
    if m == CONNECT {
      ConnectAgrees(index, c);
    } else if m == MKCOL {
      MkcolAgrees(index, c);
    } else if m == POST && index == 1 {
      PostAgrees(c);
    }
  }
}
