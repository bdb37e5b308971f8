/** The call on a printed request, position by position: the request line. */
module HttpRequestLine {
  import opened Bytes
  import opened HttpSyntax
  import opened HttpMachine
  import opened HttpExecute
  import opened HttpSplit
  import opened HttpBatch

  const SPACE: bytes := " "
  const COLON: bytes := ":"
  const CRLF: bytes := "\r\n"

  /** w stands in data at i. */
  predicate Holds(data: bytes, i: nat, w: bytes) {
    i + |w| <= |data| && data[i..i + |w|] == w
  }

  lemma HoldsSplit(data: bytes, i: nat, v: bytes, w: bytes)
    requires Holds(data, i, v + w)
    ensures Holds(data, i, v) && Holds(data, i + |v|, w)
  {
    assert data[i..i + |v|] == (v + w)[..|v|] == v;
    assert data[i + |v|..i + |v| + |w|] == (v + w)[|v|..] == w;
  }

  lemma HoldsByte(data: bytes, i: nat, w: bytes)
    requires Holds(data, i, w) && w != []
    ensures i < |data| && data[i] == w[0] && Holds(data, i + 1, w[1..])
  {
    assert w == [w[0]] + w[1..];
    HoldsSplit(data, i, [w[0]], w[1..]);
  }

  lemma HoldsIs(data: bytes, i: nat, w: bytes)
    requires Holds(data, i, w)
    ensures i + |w| <= |data| && data[i..i + |w|] == w
  {
  }

  // ----- Steps of the loop, with their callbacks -----

  /** A byte that the state takes with no mark set or cleared and no callback. */
  predicate Quiet(p: Parser, b: byte, q: Parser) {
    !BulkState(p.state) && !Overflows(Counted(p)) && Pass(Counted(p), b, 1) == Go(q)
  }

  /** The bytes of w lead from p to q without callback. */
  predicate Quietly(p: Parser, w: bytes, q: Parser)
    decreases |w|
  {
    if w == [] then p == q
    else
      var a := Pass(Counted(p), w[0], 1);
      Quiet(p, w[0], a.p) && Quietly(a.p, w[1..], q)
  }

  lemma QuietlyOne(p: Parser, b: byte, q: Parser)
    requires Quiet(p, b, q)
    ensures Quietly(p, [b], q)
  {
    hide Pass;
    assert [b][1..] == [];
  }

  lemma {:induction false} QuietlyConcat(p: Parser, v: bytes, q: Parser, w: bytes, r: Parser)
    requires Quietly(p, v, q) && Quietly(q, w, r)
    ensures Quietly(p, v + w, r)
    decreases |v|
  {
    hide Quiet, Pass;
    if v == [] {
      assert v + w == w;
    } else {
      assert (v + w)[1..] == v[1..] + w;
      QuietlyConcat(Pass(Counted(p), v[0], 1).p, v[1..], q, w, r);
    }
  }

  lemma ArmOnByte(data: bytes, i: nat, c: Call, a: Arm)
    requires i < |data| && MarksOk(c.marks, i) && !BulkState(c.p.state) && !Overflows(Counted(c.p))
    requires a == Pass(Counted(c.p), data[i], 1) && a.control.Break?
    ensures Loop(data, i, c) == Loop(data, i + 1, AfterArm(data, i, i, c.(p := Counted(c.p)), a))
  {
    hide Pass, Loop, Switch, AfterArm, BulkState, Counted, Overflows;
    CountedState(c.p);
    CountedLoop(data, i, c);
    PassPlain(Counted(c.p), data[i], |data| - i);
    PlainSwitch(data, i, c.(p := Counted(c.p)), a);
  }

  lemma PlainSwitch(data: bytes, i: nat, c: Call, a: Arm)
    requires i < |data| && MarksOk(c.marks, i) && !BulkState(c.p.state)
    requires a == Pass(c.p, data[i], |data| - i)
    ensures AfterPass(data, i, c) == AfterArm(data, i, i, c, a)
    ensures a.control.Break? ==> Switch(data, i, c) == Loop(data, i + 1, AfterArm(data, i, i, c, a))
    ensures a.control.Again? ==> Switch(data, i, c) == Switch(data, i, AfterArm(data, i, i, c, a))
  {
    hide Pass, Loop, AfterArm;
  }

  /** A stretch of bytes without callback. */
  lemma {:induction false} QuietLoop(data: bytes, i: nat, c: Call, w: bytes, q: Parser)
    requires MarksOk(c.marks, i) && Holds(data, i, w) && Quietly(c.p, w, q)
    ensures i + |w| <= |data| && MarksOk(c.marks, i + |w|)
    ensures Loop(data, i, c) == Loop(data, i + |w|, Call(q, c.marks, c.events))
    decreases |w|
  {
    hide Pass, Loop, Quiet;
    if w != [] {
      HoldsByte(data, i, w);
      var a := Pass(Counted(c.p), w[0], 1);
      QuietByte(data, i, c, a.p);
      QuietLoop(data, i + 1, c.(p := a.p), w[1..], q);
    }
  }

  lemma QuietByte(data: bytes, i: nat, c: Call, q: Parser)
    requires i < |data| && MarksOk(c.marks, i) && Quiet(c.p, data[i], q)
    ensures Loop(data, i, c) == Loop(data, i + 1, Call(q, c.marks, c.events))
  {
    hide Pass, Loop, BulkState, Counted, Overflows;
    ArmOnByte(data, i, c, Go(q));
    assert c.events + [] + [] == c.events;
  }

  // ----- The method -----

  /** After how many letters the guess is m. */
  function Settled(m: Method): nat {
    match m
    case CHECKOUT => 2 case MOVE => 2 case MERGE => 2 case MSEARCH => 2 case SEARCH => 2
    case PROPFIND => 2 case PUT => 2 case PATCH => 2
    case COPY => 3 case MKACTIVITY => 3 case PURGE => 3 case UNSUBSCRIBE => 3
    case MKCALENDAR => 4
    case PROPPATCH => 5
    case _ => 1
  }

  /** The guess after the first k letters of m. */
  function Guess(m: Method, k: nat): Method {
    if k >= Settled(m) then m
    else
      match m
      case CHECKOUT => CONNECT
      case COPY => CONNECT
      case MOVE => MKCOL
      case MERGE => MKCOL
      case MSEARCH => MKCOL
      case MKACTIVITY => MKCOL
      case MKCALENDAR => MKCOL
      case SEARCH => SUBSCRIBE
      case PROPFIND => POST
      case PUT => POST
      case PATCH => POST
      case PURGE => if k == 1 then POST else PUT
      case PROPPATCH => if k == 1 then POST else PROPFIND
      case UNSUBSCRIBE => UNLOCK
      case _ => m
  }

  /** The letter at k of m's name keeps or changes the guess as Guess says. */
  predicate GuessMoves(m: Method, k: nat)
    requires k < |MethodName(m)|
  {
    var g, b := Guess(m, k), MethodName(m)[k];
    if k < |MethodName(g)| && MethodName(g)[k] == b then Guess(m, k + 1) == g
    else NextGuess(g, k, b) == Some(Guess(m, k + 1))
  }

  lemma GuessStep(m: Method, k: nat)
    requires 1 <= k < |MethodName(m)|
    ensures GuessMoves(m, k)
  {
    hide NextGuess;
    if k < Settled(m) {
      if k == 1 {
        SecondLetter(m);
      } else {
        LaterLetter(m, k);
      }
    }
  }

  lemma SecondLetter(m: Method)
    requires 1 < Settled(m)
    ensures 1 < |MethodName(m)| && GuessMoves(m, 1)
  {
    match m
    case CHECKOUT => assert "CONNECT"[1] != 'H';
    case MOVE => assert "MKCOL"[1] != 'O';
    case MERGE => assert "MKCOL"[1] != 'E';
    case MSEARCH => assert "MKCOL"[1] != '-';
    case SEARCH => assert "SUBSCRIBE"[1] != 'E';
    case PROPFIND => assert "POST"[1] != 'R';
    case PUT => assert "POST"[1] != 'U';
    case PATCH => assert "POST"[1] != 'A';
    case PURGE => assert "POST"[1] != 'U';
    case PROPPATCH => assert "POST"[1] != 'R';
    case _ =>
  }

  lemma LaterLetter(m: Method, k: nat)
    requires 2 <= k < Settled(m)
    ensures k < |MethodName(m)| && GuessMoves(m, k)
  {
    match m
    case COPY => assert "CONNECT"[2] != 'P';
    case MKACTIVITY => assert "MKCOL"[2] != 'A';
    case MKCALENDAR => assert "MKCOL"[2] == 'C' && "MKCOL"[3] != 'A';
    case PURGE => assert "PUT"[2] != 'R';
    case PROPPATCH => assert "PROPFIND"[2] == 'O' && "PROPFIND"[3] == 'P' && "PROPFIND"[4] != 'P';
    case UNSUBSCRIBE => assert "UNLOCK"[2] != 'S';
    case _ =>
  }

  lemma FirstLetter(m: Method)
    ensures MethodName(m) != [] && FirstGuess(MethodName(m)[0]) == Some(Guess(m, 1))
    ensures MethodName(m)[0] != '\r' && MethodName(m)[0] != '\n'
  {
  }

  lemma NameLetters(m: Method, k: nat)
    requires k < |MethodName(m)|
    ensures MethodName(m)[k] != '\0' && MethodName(m)[k] != ' '
  {
  }

  /** p with n more header bytes counted. */
  function Ahead(p: Parser, n: nat): Parser {
    p.(nread := p.nread + n)
  }

  lemma MethodPass(p: Parser, b: byte)
    requires p.state.ReqMethod? && p.nread < MAX_HEADER_SIZE
    ensures !BulkState(p.state) && !Overflows(Counted(p))
    ensures Pass(Counted(p), b, 1) == ArmMethod(Ahead(p, 1), b)
  {
    hide ArmMethod;
  }

  lemma LetterQuiet(p: Parser, m: Method, k: nat)
    requires p.state.ReqMethod? && p.index == k && p.line.verb == Guess(m, k) && p.nread < MAX_HEADER_SIZE
    requires 1 <= k < |MethodName(m)|
    ensures Quiet(p, MethodName(m)[k], Ahead(p, 1).(index := k + 1, line := p.line.(verb := Guess(m, k + 1))))
  {
    hide MethodName, NextGuess, Pass, Guess;
    MethodPass(p, MethodName(m)[k]);
    GuessStep(m, k);
    NameLetters(m, k);
  }

  lemma SpaceQuiet(p: Parser, m: Method)
    requires p.state.ReqMethod? && p.line.verb == m && p.index == |MethodName(m)| && p.nread < MAX_HEADER_SIZE
    ensures Quiet(p, ' ', Ahead(p, 1).(state := ReqSpacesBeforeUrl, index := p.index + 1))
  {
    hide MethodName, Pass;
    MethodPass(p, ' ');
  }

  /** The parser after the method m and a space. */
  function AfterMethod(p: Parser, m: Method, n: nat): Parser {
    Ahead(p, n).(state := ReqSpacesBeforeUrl, index := |MethodName(m)| + 1, line := p.line.(verb := m))
  }

  lemma {:induction false} MethodQuiet(p: Parser, m: Method, k: nat)
    requires 1 <= k <= |MethodName(m)| && p.state.ReqMethod? && p.index == k && p.line.verb == Guess(m, k)
    requires p.nread + |MethodName(m)| - k < MAX_HEADER_SIZE
    ensures Quietly(p, MethodName(m)[k..] + SPACE, AfterMethod(p, m, |MethodName(m)| - k + 1))
    decreases |MethodName(m)| - k
  {
    hide MethodName, Quietly, Quiet, Guess;
    var name := MethodName(m);
    if k == |name| {
      SettledAtEnd(m);
      SpaceQuiet(p, m);
      QuietlyOne(p, ' ', AfterMethod(p, m, 1));
      assert name[k..] + SPACE == SPACE;
    } else {
      LetterQuiet(p, m, k);
      var q := Ahead(p, 1).(index := k + 1, line := p.line.(verb := Guess(m, k + 1)));
      MethodQuiet(q, m, k + 1);
      QuietlyOne(p, name[k], q);
      QuietlyConcat(p, [name[k]], q, name[k + 1..] + SPACE, AfterMethod(p, m, |name| - k + 1));
      assert [name[k]] + (name[k + 1..] + SPACE) == name[k..] + SPACE;
    }
  }

  lemma SettledAtEnd(m: Method)
    ensures Guess(m, |MethodName(m)|) == m
  {
  }

  // ----- The URL -----

  /** The state after the characters w of a URL. */
  function UrlEnd(s: State, w: bytes): State
    decreases |w|
  {
    if w == [] then s else UrlEnd(ParseUrlChar(s, w[0]), w[1..])
  }

  /** States in which a URL may end. */
  predicate UrlDone(s: State) {
    UrlState(s) && !s.ReqSchema? && !s.ReqSchemaSlash? && !s.ReqSchemaSlashSlash? && !s.ReqServerStart?
  }

  /** A URL the parser takes, for a method other than CONNECT. */
  predicate UrlOk(url: bytes) {
    url != [] && UrlDone(UrlEnd(ReqSpacesBeforeUrl, url))
  }

  /** The state from which the URL of a request is read. */
  function UrlFrom(m: Method): State {
    if m == CONNECT then ReqServerStart else ReqSpacesBeforeUrl
  }

  /** A URL the parser takes for method m. */
  predicate TargetOk(m: Method, url: bytes) {
    url != [] && UrlDone(UrlEnd(UrlFrom(m), url))
  }

  lemma {:induction false} DeadUrl(w: bytes)
    ensures UrlEnd(Dead, w) == Dead
    decreases |w|
  {
    if w != [] {
      DeadUrl(w[1..]);
    }
  }

  /** A path of URL characters is a URL the parser takes. */
  lemma {:induction false} PathOk(w: bytes)
    requires forall i :: 0 <= i < |w| ==> IsUrlChar(w[i])
    ensures UrlEnd(ReqPath, w) == ReqPath && UrlOk("/" + w)
    decreases |w|
  {
    if w != [] {
      PathOk(w[1..]);
    }
    assert ("/" + w)[1..] == w;
  }

  lemma UrlQuietOne(p: Parser, b: byte)
    requires UrlState(p.state) && ParseUrlChar(p.state, b) != Dead && p.nread < MAX_HEADER_SIZE
    ensures Quiet(p, b, Ahead(p, 1).(state := ParseUrlChar(p.state, b)))
  {
    assert b != ' ' && b != '\r' && b != '\n';
    hide ParseUrlChar;
  }

  lemma {:induction false} UrlQuiet(p: Parser, w: bytes)
    requires UrlState(p.state) && UrlEnd(p.state, w) != Dead && p.nread + |w| <= MAX_HEADER_SIZE
    ensures Quietly(p, w, Ahead(p, |w|).(state := UrlEnd(p.state, w)))
    decreases |w|
  {
    hide ParseUrlChar, UrlState, Quietly, Quiet;
    if w == [] {
      QuietlyNone(p);
    } else {
      DeadUrl(w[1..]);
      UrlQuietOne(p, w[0]);
      var q := Ahead(p, 1).(state := ParseUrlChar(p.state, w[0]));
      UrlQuiet(q, w[1..]);
      QuietlyOne(p, w[0], q);
      QuietlyConcat(p, [w[0]], q, w[1..], Ahead(p, |w|).(state := UrlEnd(p.state, w)));
      assert w == [w[0]] + w[1..];
    }
  }

  lemma QuietlyNone(p: Parser)
    ensures Quietly(p, [], p)
  {
  }

  // ----- The version -----

  lemma VersionPass(p: Parser, b: byte)
    requires GroupOf(p.state) == VersionGroup && p.nread < MAX_HEADER_SIZE
    ensures !BulkState(p.state) && !Overflows(Counted(p))
    ensures Pass(Counted(p), b, 1) == ArmVersion(Ahead(p, 1), b)
  {
    hide ArmVersion;
  }

  lemma MajorFirst(p: Parser, d: nat)
    requires p.state.ReqFirstHttpMajor? && 1 <= d <= 9 && p.nread < MAX_HEADER_SIZE
    ensures Quiet(p, DigitOf(d), Ahead(p, 1).(state := ReqHttpMajor, line := p.line.(major := d)))
  {
    hide Pass, BulkState, Counted, Overflows;
    VersionPass(p, DigitOf(d));
  }

  lemma MajorNext(p: Parser, d: nat)
    requires p.state.ReqHttpMajor? && d <= 9 && p.line.major * 10 + d <= 999 && p.nread < MAX_HEADER_SIZE
    ensures Quiet(p, DigitOf(d), Ahead(p, 1).(line := p.line.(major := p.line.major * 10 + d)))
  {
    hide Pass, BulkState, Counted, Overflows;
    VersionPass(p, DigitOf(d));
  }

  lemma MinorFirst(p: Parser, d: nat)
    requires p.state.ReqFirstHttpMinor? && d <= 9 && p.nread < MAX_HEADER_SIZE
    ensures Quiet(p, DigitOf(d), Ahead(p, 1).(state := ReqHttpMinor, line := p.line.(minor := d)))
  {
    hide Pass, BulkState, Counted, Overflows;
    VersionPass(p, DigitOf(d));
  }

  lemma MinorNext(p: Parser, d: nat)
    requires p.state.ReqHttpMinor? && d <= 9 && p.line.minor * 10 + d <= 999 && p.nread < MAX_HEADER_SIZE
    ensures Quiet(p, DigitOf(d), Ahead(p, 1).(line := p.line.(minor := p.line.minor * 10 + d)))
  {
    hide Pass, BulkState, Counted, Overflows;
    VersionPass(p, DigitOf(d));
  }

  lemma {:induction false} MajorQuiet(p: Parser, n: nat)
    requires p.state.ReqFirstHttpMajor? && 1 <= n <= 999 && p.nread + |Decimal(n)| <= MAX_HEADER_SIZE
    ensures Quietly(p, Decimal(n), Ahead(p, |Decimal(n)|).(state := ReqHttpMajor, line := p.line.(major := n)))
  {
    hide Quietly, Quiet;
    var r := Ahead(p, |Decimal(n)|).(state := ReqHttpMajor, line := p.line.(major := n));
    if n < 10 {
      MajorFirst(p, n);
      QuietlyOne(p, DigitOf(n), r);
    } else {
      var w := Decimal(n / 10);
      var q := Ahead(p, |w|).(state := ReqHttpMajor, line := p.line.(major := n / 10));
      MajorQuiet(p, n / 10);
      MajorNext(q, n % 10);
      QuietlyOne(q, DigitOf(n % 10), r);
      QuietlyConcat(p, w, q, [DigitOf(n % 10)], r);
    }
  }

  lemma {:induction false} MinorQuiet(p: Parser, n: nat)
    requires p.state.ReqFirstHttpMinor? && n <= 999 && p.nread + |Decimal(n)| <= MAX_HEADER_SIZE
    ensures Quietly(p, Decimal(n), Ahead(p, |Decimal(n)|).(state := ReqHttpMinor, line := p.line.(minor := n)))
  {
    hide Quietly, Quiet;
    var r := Ahead(p, |Decimal(n)|).(state := ReqHttpMinor, line := p.line.(minor := n));
    if n < 10 {
      MinorFirst(p, n);
      QuietlyOne(p, DigitOf(n), r);
    } else {
      var w := Decimal(n / 10);
      var q := Ahead(p, |w|).(state := ReqHttpMinor, line := p.line.(minor := n / 10));
      MinorQuiet(p, n / 10);
      MinorNext(q, n % 10);
      QuietlyOne(q, DigitOf(n % 10), r);
      QuietlyConcat(p, w, q, [DigitOf(n % 10)], r);
    }
  }

  /** The constant in front of the version. */
  const HTTP_SLASH: bytes := "HTTP/"

  /** A letter of the constant, where it is expected. */
  lemma ConstantByte(p: Parser, b: byte)
    requires p.nread < MAX_HEADER_SIZE
    ensures p.state.ReqHttpStart? && b == 'H' ==> Quiet(p, b, Ahead(p, 1).(state := ReqHttpH))
    ensures p.state.ReqHttpH? && b == 'T' ==> Quiet(p, b, Ahead(p, 1).(state := ReqHttpHT))
    ensures p.state.ReqHttpHT? && b == 'T' ==> Quiet(p, b, Ahead(p, 1).(state := ReqHttpHTT))
    ensures p.state.ReqHttpHTT? && b == 'P' ==> Quiet(p, b, Ahead(p, 1).(state := ReqHttpHTTP))
    ensures p.state.ReqHttpHTTP? && b == '/' ==> Quiet(p, b, Ahead(p, 1).(state := ReqFirstHttpMajor))
  {
    hide Pass, BulkState, Counted, Overflows;
    if GroupOf(p.state) == VersionGroup {
      VersionPass(p, b);
    }
  }

  lemma QuietlySnoc(p: Parser, w: bytes, q: Parser, b: byte, r: Parser)
    requires Quietly(p, w, q) && Quiet(q, b, r)
    ensures Quietly(p, w + [b], r)
  {
    hide Quietly, Quiet;
    QuietlyOne(q, b, r);
    QuietlyConcat(p, w, q, [b], r);
  }

  lemma HalfConstantQuiet(p: Parser)
    requires p.state.ReqHttpStart? && p.nread + 3 <= MAX_HEADER_SIZE
    ensures Quietly(p, ['H', 'T', 'T'], Ahead(p, 3).(state := ReqHttpHTT))
  {
    hide Quietly, Quiet;
    var p1 := Ahead(p, 1).(state := ReqHttpH);
    var p2 := Ahead(p1, 1).(state := ReqHttpHT);
    var p3 := Ahead(p2, 1).(state := ReqHttpHTT);
    ConstantByte(p, 'H');
    ConstantByte(p1, 'T');
    ConstantByte(p2, 'T');
    assert ['H'] + ['T'] == ['H', 'T'] && ['H', 'T'] + ['T'] == ['H', 'T', 'T'];
    QuietlyOne(p, 'H', p1);
    QuietlySnoc(p, ['H'], p1, 'T', p2);
    QuietlySnoc(p, ['H', 'T'], p2, 'T', p3);
  }

  lemma ConstantQuiet(p: Parser)
    requires p.state.ReqHttpStart? && p.nread + 5 <= MAX_HEADER_SIZE
    ensures Quietly(p, HTTP_SLASH, Ahead(p, 5).(state := ReqFirstHttpMajor))
  {
    hide Quietly, Quiet;
    var p3 := Ahead(p, 3).(state := ReqHttpHTT);
    var p4 := Ahead(p3, 1).(state := ReqHttpHTTP);
    var p5 := Ahead(p4, 1).(state := ReqFirstHttpMajor);
    HalfConstantQuiet(p);
    ConstantByte(p3, 'P');
    ConstantByte(p4, '/');
    QuietlySnoc(p, ['H', 'T', 'T'], p3, 'P', p4);
    QuietlySnoc(p, ['H', 'T', 'T'] + ['P'], p4, '/', p5);
    assert ['H', 'T', 'T'] + ['P'] + ['/'] == HTTP_SLASH;
  }

  lemma DotQuiet(p: Parser)
    requires p.state.ReqHttpMajor? && p.nread < MAX_HEADER_SIZE
    ensures Quiet(p, '.', Ahead(p, 1).(state := ReqFirstHttpMinor))
  {
    hide Pass, BulkState, Counted, Overflows;
    VersionPass(p, '.');
  }

  lemma LineEndBytes(p: Parser)
    requires p.nread < MAX_HEADER_SIZE
    ensures p.state.ReqHttpMinor? ==> Quiet(p, '\r', Ahead(p, 1).(state := ReqLineAlmostDone))
    ensures p.state.ReqLineAlmostDone? ==> Quiet(p, '\n', Ahead(p, 1).(state := HeaderFieldStart))
  {
    hide Pass, BulkState, Counted, Overflows;
    if p.state.ReqHttpMinor? {
      VersionPass(p, '\r');
    } else if p.state.ReqLineAlmostDone? {
      VersionPass(p, '\n');
    }
  }

  lemma LineEndQuiet(p: Parser)
    requires p.state.ReqHttpMinor? && p.nread + 2 <= MAX_HEADER_SIZE
    ensures Quietly(p, CRLF, Ahead(p, 2).(state := HeaderFieldStart))
  {
    hide Quiet, Quietly;
    var q := Ahead(p, 1).(state := ReqLineAlmostDone);
    var r := Ahead(p, 2).(state := HeaderFieldStart);
    LineEndBytes(p);
    LineEndBytes(q);
    QuietlyOne(p, '\r', q);
    QuietlyOne(q, '\n', r);
    QuietlyConcat(p, ['\r'], q, ['\n'], r);
    assert ['\r'] + ['\n'] == CRLF;
  }

  function VersionText(major: nat, minor: nat): bytes {
    Decimal(major) + "." + Decimal(minor)
  }

  /** The version and the end of the line. */
  lemma VersionQuiet(p: Parser, major: nat, minor: nat)
    requires p.state.ReqHttpStart? && 1 <= major <= 999 && minor <= 999
    requires p.nread + 7 + |VersionText(major, minor)| <= MAX_HEADER_SIZE
    ensures Quietly(p, HTTP_SLASH + VersionText(major, minor) + CRLF,
                    Ahead(p, 7 + |VersionText(major, minor)|).(
                      state := HeaderFieldStart, line := p.line.(major := major, minor := minor)))
  {
    hide Quietly, Quiet, Decimal;
    var v, w := Decimal(major), Decimal(minor);
    var p1 := Ahead(p, 5).(state := ReqFirstHttpMajor);
    var p2 := Ahead(p, 5 + |v|).(state := ReqHttpMajor, line := p.line.(major := major));
    var p3 := Ahead(p, 6 + |v|).(state := ReqFirstHttpMinor, line := p2.line);
    var p4 := Ahead(p, 6 + |v| + |w|).(state := ReqHttpMinor, line := p.line.(major := major, minor := minor));
    var p5 := Ahead(p4, 2).(state := HeaderFieldStart);
    ConstantQuiet(p);
    MajorQuiet(p1, major);
    DotQuiet(p2);
    QuietlyOne(p2, '.', p3);
    MinorQuiet(p3, minor);
    LineEndQuiet(p4);
    QuietlyConcat(p, HTTP_SLASH, p1, v, p2);
    QuietlyConcat(p, HTTP_SLASH + v, p2, ".", p3);
    QuietlyConcat(p, HTTP_SLASH + v + ".", p3, w, p4);
    QuietlyConcat(p, HTTP_SLASH + v + "." + w, p4, CRLF, p5);
    assert HTTP_SLASH + v + "." + w == HTTP_SLASH + (v + "." + w);
  }

  // ----- The request line -----

  lemma OneMark(part: Part, m: nat, i: nat)
    requires m <= i
    ensures MarksOk(map[part := m], i)
  {
  }

  /** A byte that sets a mark, or ends marked data. */
  lemma MarkByte(data: bytes, i: nat, c: Call, q: Parser, part: Part)
    requires i < |data| && c.marks == map[] && !BulkState(c.p.state) && !Overflows(Counted(c.p))
    requires Pass(Counted(c.p), data[i], 1) == Go(q).(mark := Some(part))
    ensures Loop(data, i, c) == Loop(data, i + 1, Call(q, map[part := i], c.events))
  {
    hide Pass, Loop, BulkState, Counted, Overflows;
    ArmOnByte(data, i, c, Go(q).(mark := Some(part)));
    assert c.events + [] + [] == c.events;
  }

  lemma FlushByte(data: bytes, i: nat, c: Call, q: Parser, part: Part, m: nat)
    requires m <= i < |data| && c.marks == map[part := m] && !BulkState(c.p.state) && !Overflows(Counted(c.p))
    requires Pass(Counted(c.p), data[i], 1) == Go(q).(flush := Some(part))
    ensures Loop(data, i, c) == Loop(data, i + 1, Call(q, map[], c.events + [Data(part, data[m..i])]))
  {
    hide Pass, Loop, BulkState, Counted, Overflows;
    ArmOnByte(data, i, c, Go(q).(flush := Some(part)));
    assert c.events + [Data(part, data[m..i])] + [] == c.events + [Data(part, data[m..i])];
    assert map[part := m] - {part} == map[];
  }

  /** The parser after the first letter of a method. */
  function Begun(p: Parser, m: Method): Parser {
    Ahead(p, 1).(state := ReqMethod, flags := NO_FLAGS, contentLength := ULLONG_MAX,
                 line := p.line.(verb := Guess(m, 1)), index := 1)
  }

  lemma BeginPass(p: Parser, m: Method)
    requires p.state.StartReq? && p.nread < MAX_HEADER_SIZE
    ensures !BulkState(p.state) && !Overflows(Counted(p)) && MethodName(m) != []
    ensures Pass(Counted(p), MethodName(m)[0], 1) == Go(Begun(p, m)).(notice := Some(MessageBegin))
  {
    hide MethodName, FirstGuess, Guess;
    FirstLetter(m);
  }

  /** The method and the space after it. */
  lemma MethodLoop(data: bytes, c: Call, m: Method)
    requires c.p.state.StartReq? && c.marks == map[] && c.p.nread + |MethodName(m)| < MAX_HEADER_SIZE
    requires Holds(data, 0, MethodName(m) + SPACE)
    ensures var n := |MethodName(m)| + 1;
            Loop(data, 0, c) == Loop(data, n, Call(AfterMethod(Begun(c.p, m), m, n - 1), map[],
                                                   c.events + [Note(MessageBegin)]))
  {
    hide Loop, Pass, MethodName, Guess, Quietly, BulkState, Overflows, Counted;
    var name := MethodName(m);
    BeginPass(c.p, m);
    HoldsByte(data, 0, name + SPACE);
    var q := Begun(c.p, m);
    ArmOnByte(data, 0, c, Go(q).(notice := Some(MessageBegin)));
    assert c.events + [] == c.events;
    MethodQuiet(q, m, 1);
    assert (name + SPACE)[1..] == name[1..] + SPACE;
    QuietLoop(data, 1, Call(q, map[], c.events + [Note(MessageBegin)]), name[1..] + SPACE,
              AfterMethod(q, m, |name|));
  }

  lemma UrlPasses(p: Parser, b: byte)
    requires p.nread < MAX_HEADER_SIZE
    ensures p.state.ReqSpacesBeforeUrl? && ParseUrlChar(UrlFrom(p.line.verb), b) != Dead ==>
              && !BulkState(p.state) && !Overflows(Counted(p))
              && Pass(Counted(p), b, 1) ==
                 Go(Ahead(p, 1).(state := ParseUrlChar(UrlFrom(p.line.verb), b))).(mark := Some(Url))
    ensures UrlDone(p.state) ==>
              && !BulkState(p.state) && !Overflows(Counted(p))
              && Pass(Counted(p), ' ', 1) == Go(Ahead(p, 1).(state := ReqHttpStart)).(flush := Some(Url))
  {
    if p.state.ReqSpacesBeforeUrl? && ParseUrlChar(UrlFrom(p.line.verb), b) != Dead {
      assert b != ' ';
    }
    hide ParseUrlChar;
  }

  /** The URL and the space after it. */
  lemma UrlLoop(data: bytes, i: nat, c: Call, url: bytes)
    requires c.p.state.ReqSpacesBeforeUrl? && c.marks == map[] && TargetOk(c.p.line.verb, url)
    requires c.p.nread + |url| < MAX_HEADER_SIZE && Holds(data, i, url + SPACE)
    ensures i + |url| + 1 <= |data|
    ensures Loop(data, i, c) ==
            Loop(data, i + |url| + 1,
                 Call(Ahead(c.p, |url| + 1).(state := ReqHttpStart), map[], c.events + [Data(Url, url)]))
  {
    hide Loop, Pass, Quietly, BulkState, Overflows, Counted, ParseUrlChar, Holds;
    var m := c.p.line.verb;
    HoldsIs(data, i, url + SPACE);
    HoldsSplit(data, i, url, SPACE);
    HoldsIs(data, i, url);
    HoldsByte(data, i, url);
    HoldsByte(data, i + |url|, SPACE);
    var p1 := Ahead(c.p, 1).(state := ParseUrlChar(UrlFrom(m), url[0]));
    var s := UrlEnd(UrlFrom(m), url);
    var p2 := Ahead(c.p, |url|).(state := s);
    FirstUrlChar(m, url);
    UrlPasses(c.p, url[0]);
    MarkByte(data, i, c, p1, Url);
    UrlQuiet(p1, url[1..]);
    QuietLoop(data, i + 1, Call(p1, map[Url := i], c.events), url[1..], p2);
    UrlPasses(p2, ' ');
    FlushByte(data, i + |url|, Call(p2, map[Url := i], c.events), Ahead(p2, 1).(state := ReqHttpStart), Url, i);
  }

  lemma FirstUrlChar(m: Method, url: bytes)
    requires TargetOk(m, url)
    ensures var s := ParseUrlChar(UrlFrom(m), url[0]);
            s != Dead && UrlState(s) && UrlEnd(s, url[1..]) == UrlEnd(UrlFrom(m), url) != Dead
  {
    DeadUrl(url[1..]);
    hide ParseUrlChar;
  }

  function RequestLine(m: Method, url: bytes, major: nat, minor: nat): bytes {
    MethodName(m) + SPACE + url + SPACE + "HTTP/" + VersionText(major, minor) + CRLF
  }

  /** The parser after a request line of n bytes. */
  function AfterLine(p: Parser, m: Method, major: nat, minor: nat, n: nat): Parser {
    Ahead(p, n).(state := HeaderFieldStart, flags := NO_FLAGS, contentLength := ULLONG_MAX,
                 line := p.line.(verb := m, major := major, minor := minor), index := |MethodName(m)| + 1)
  }

  /** A printed request line: its method, URL and version reach the parser and the URL callback. */
  lemma RequestLineLoop(data: bytes, c: Call, m: Method, url: bytes, major: nat, minor: nat)
    requires c.p.state.StartReq? && c.marks == map[]
    requires TargetOk(m, url) && 1 <= major <= 999 && minor <= 999
    requires Holds(data, 0, RequestLine(m, url, major, minor))
    requires c.p.nread + |RequestLine(m, url, major, minor)| <= MAX_HEADER_SIZE
    ensures var n := |RequestLine(m, url, major, minor)|;
            Loop(data, 0, c) ==
            Loop(data, n, Call(AfterLine(c.p, m, major, minor, n), map[],
                               c.events + [Note(MessageBegin)] + [Data(Url, url)]))
  {
    hide Loop, MethodName, Quietly, VersionText, TargetOk, Guess;
    var name, v := MethodName(m), VersionText(major, minor);
    var tail := HTTP_SLASH + v + CRLF;
    assert RequestLine(m, url, major, minor) == (name + SPACE) + ((url + SPACE) + tail);
    HoldsSplit(data, 0, name + SPACE, (url + SPACE) + tail);
    HoldsSplit(data, |name| + 1, url + SPACE, tail);
    MethodLoop(data, c, m);
    var c1 := Call(AfterMethod(Begun(c.p, m), m, |name|), map[], c.events + [Note(MessageBegin)]);
    UrlLoop(data, |name| + 1, c1, url);
    var c2 := Call(Ahead(c1.p, |url| + 1).(state := ReqHttpStart), map[], c1.events + [Data(Url, url)]);
    VersionQuiet(c2.p, major, minor);
    QuietLoop(data, |name| + |url| + 2, c2, tail,
              AfterLine(c.p, m, major, minor, |RequestLine(m, url, major, minor)|));
  }
}
