/** Which URLs a request line may have: the character states of parse_url_char, as a grammar. */
module HttpUrl {
  import opened Bytes
  import opened HttpSyntax
  import opened HttpMachine
  import opened HttpExecute
  import opened HttpSplit
  import opened HttpBatch
  import opened HttpBody
  import opened HttpRequestLine

  // ----- The grammar -----

  predicate Printable(u: bytes) {
    forall i :: 0 <= i < |u| ==> '!' <= u[i] <= '~'
  }

  predicate AuthorityChar(b: byte) {
    IsUserinfoChar(b) || b == '[' || b == ']' || b == '@'
  }

  /** How many characters of an authority u begins with. */
  function AuthorityLength(u: bytes): (k: nat)
    ensures k <= |u|
  {
    if u == [] || !AuthorityChar(u[0]) then 0 else 1 + AuthorityLength(u[1..])
  }

  predicate NoDoubleAt(a: bytes) {
    forall i :: 0 <= i < |a| - 1 ==> a[i] != '@' || a[i + 1] != '@'
  }

  /** An authority, perhaps empty, and what may follow it. */
  predicate AuthorityForm(u: bytes) {
    var k := AuthorityLength(u);
    NoDoubleAt(u[..k]) && (k == |u| || ((u[k] == '/' || u[k] == '?') && Printable(u[k + 1..])))
  }

  /** A path, with query and fragment or not, or what begins with an asterisk. */
  predicate OriginForm(u: bytes) {
    u != [] && (u[0] == '/' || u[0] == '*') && Printable(u[1..])
  }

  function AlphaLength(u: bytes): (k: nat)
    ensures k <= |u|
  {
    if u == [] || !IsAlpha(u[0]) then 0 else 1 + AlphaLength(u[1..])
  }

  const AFTER_SCHEMA: bytes := "://"

  /** Letters, and behind :// an authority with something in it. */
  predicate AbsoluteForm(u: bytes) {
    var k := AlphaLength(u);
    k > 0 && AFTER_SCHEMA < u[k..] && AuthorityForm(u[k + 3..])
  }

  /** The URLs for a method. */
  predicate UrlForm(u: bytes, connect: bool) {
    if connect then u != [] && AuthorityForm(u) else OriginForm(u) || AbsoluteForm(u)
  }

  // ----- The states -----

  predicate InPath(s: State) {
    s.ReqPath? || s.ReqQueryStringStart? || s.ReqQueryString? || s.ReqFragmentStart? || s.ReqFragment?
  }

  predicate InServer(s: State) {
    s.ReqServerStart? || s.ReqServer? || s.ReqServerWithAt?
  }

  lemma PathChar(s: State, b: byte)
    requires InPath(s)
    ensures if '!' <= b <= '~' then InPath(ParseUrlChar(s, b)) else ParseUrlChar(s, b) == Dead
  {
  }

  lemma {:induction false} PathEnd(s: State, u: bytes)
    requires InPath(s)
    ensures if Printable(u) then InPath(UrlEnd(s, u)) else UrlEnd(s, u) == Dead
    decreases |u|
  {
    hide ParseUrlChar;
    if u != [] {
      PathChar(s, u[0]);
      DeadUrl(u[1..]);
      if InPath(ParseUrlChar(s, u[0])) {
        PathEnd(ParseUrlChar(s, u[0]), u[1..]);
        assert u == [u[0]] + u[1..];
      }
    }
  }

  lemma ServerState(s: State, b: byte)
    requires InServer(s)
    ensures var t := ParseUrlChar(s, b);
            if b == '@' then t == if s.ReqServerWithAt? then Dead else ReqServerWithAt
            else if AuthorityChar(b) then t == ReqServer
            else if b == '/' || b == '?' then InPath(t)
            else t == Dead
  {
  }

  /** An authority one character longer. */
  lemma AuthorityMore(u: bytes)
    requires u != [] && AuthorityChar(u[0])
    ensures AuthorityForm(u) <==> AuthorityForm(u[1..]) && !(u[0] == '@' && |u| > 1 && u[1] == '@')
  {
    hide AuthorityChar, Printable;
    var k := AuthorityLength(u);
    assert u[..k] == [u[0]] + u[1..][..k - 1];
    assert k < |u| ==> u[1..][k - 1] == u[k] && u[1..][k..] == u[k + 1..];
    if |u| > 1 && u[1] == '@' {
      AtInAuthority();
      assert u[1..][0] == '@';
    }
    DoubleAt(u[0], u[1..][..k - 1]);
  }

  lemma AtInAuthority()
    ensures AuthorityChar('@')
  {
  }

  lemma DoubleAt(b: byte, a: bytes)
    ensures NoDoubleAt([b] + a) <==> NoDoubleAt(a) && !(b == '@' && a != [] && a[0] == '@')
  {
    assert ([b] + a)[0] == b && (a != [] ==> ([b] + a)[1] == a[0]);
    if NoDoubleAt([b] + a) {
      forall i | 0 <= i < |a| - 1 ensures a[i] != '@' || a[i + 1] != '@' {
        assert ([b] + a)[i + 1] == a[i] && ([b] + a)[i + 2] == a[i + 1];
      }
    }
  }

  lemma AuthorityStops(u: bytes)
    requires u != [] && !AuthorityChar(u[0])
    ensures AuthorityForm(u) <==> (u[0] == '/' || u[0] == '?') && Printable(u[1..])
  {
  }

  lemma {:induction false} ServerEnd(s: State, u: bytes)
    requires InServer(s)
    ensures var t := UrlEnd(s, u);
            if AuthorityForm(u) && !(s.ReqServerWithAt? && u != [] && u[0] == '@')
            then (u == [] && t == s) || (u != [] && UrlDone(t))
            else t == Dead
    decreases |u|
  {
    hide ParseUrlChar, AuthorityChar, AuthorityForm, UrlDone;
    if u == [] {
      EmptyAuthority();
    } else {
      var t := ParseUrlChar(s, u[0]);
      ServerState(s, u[0]);
      DeadUrl(u[1..]);
      if AuthorityChar(u[0]) {
        AuthorityMore(u);
        if t != Dead {
          ServerEnd(t, u[1..]);
          ServerDone(t);
        }
        AtInAuthority();
      } else {
        AuthorityStops(u);
        AtInAuthority();
        if t != Dead {
          PathEnd(t, u[1..]);
          PathDone(UrlEnd(t, u[1..]));
        }
      }
    }
  }

  lemma EmptyAuthority()
    ensures AuthorityForm([])
  {
  }

  lemma ServerDone(s: State)
    ensures s.ReqServer? || s.ReqServerWithAt? ==> UrlDone(s)
  {
  }

  lemma PathDone(s: State)
    ensures InPath(s) ==> UrlDone(s)
  {
  }

  lemma SchemaState(b: byte)
    ensures ParseUrlChar(ReqSchema, b) == if IsAlpha(b) then ReqSchema else if b == ':' then ReqSchemaSlash else Dead
    ensures ParseUrlChar(ReqSchemaSlash, b) == if b == '/' then ReqSchemaSlashSlash else Dead
    ensures ParseUrlChar(ReqSchemaSlashSlash, b) == if b == '/' then ReqServerStart else Dead
    ensures ParseUrlChar(ReqSpacesBeforeUrl, b) ==
            if b == '/' || b == '*' then ReqPath else if IsAlpha(b) then ReqSchema else Dead
  {
  }

  lemma BehindSchema(u: bytes)
    requires |u| >= 3 && u[0] == ':' && u[1] == '/' && u[2] == '/'
    ensures UrlDone(UrlEnd(ReqSchema, u)) <==> AFTER_SCHEMA < u && AuthorityForm(u[3..])
  {
    hide ParseUrlChar, AuthorityForm;
    SchemaState(':');
    SchemaState('/');
    assert u[1..][1..] == u[2..] && u[2..][1..] == u[3..];
    assert UrlEnd(ReqSchema, u) == UrlEnd(ReqSchemaSlash, u[1..]);
    assert UrlEnd(ReqSchemaSlash, u[1..]) == UrlEnd(ReqSchemaSlashSlash, u[2..]);
    assert UrlEnd(ReqSchemaSlashSlash, u[2..]) == UrlEnd(ReqServerStart, u[3..]);
    ServerEnd(ReqServerStart, u[3..]);
    assert u[..3] == AFTER_SCHEMA;
    assert u[3..] != [] <==> AFTER_SCHEMA < u;
  }

  /** What follows the letters of a schema. */
  lemma AfterLetters(u: bytes)
    requires u == [] || !IsAlpha(u[0])
    ensures UrlDone(UrlEnd(ReqSchema, u)) <==> AFTER_SCHEMA < u && AuthorityForm(u[3..])
  {
    hide ParseUrlChar, AuthorityForm, IsAlpha;
    assert AFTER_SCHEMA < u ==> u[0] == ':' && u[1] == '/' && u[2] == '/';
    if |u| >= 3 && u[0] == ':' && u[1] == '/' && u[2] == '/' {
      BehindSchema(u);
    } else if u != [] {
      SchemaState(u[0]);
      DeadUrl(u[1..]);
      if u[0] == ':' {
        assert UrlEnd(ReqSchema, u) == UrlEnd(ReqSchemaSlash, u[1..]);
        SlashesMissing(u[1..]);
      }
    }
  }

  lemma SlashesMissing(u: bytes)
    requires !(|u| >= 2 && u[0] == '/' && u[1] == '/')
    ensures !UrlDone(UrlEnd(ReqSchemaSlash, u))
  {
    hide ParseUrlChar;
    if u != [] {
      SchemaState(u[0]);
      DeadUrl(u[1..]);
      if |u| > 1 {
        SchemaState(u[1]);
        DeadUrl(u[1..][1..]);
      }
    }
  }

  lemma {:induction false} SchemaEnd(u: bytes)
    ensures UrlDone(UrlEnd(ReqSchema, u)) <==>
            var k := AlphaLength(u); AFTER_SCHEMA < u[k..] && AuthorityForm(u[k + 3..])
    decreases |u|
  {
    hide ParseUrlChar, AuthorityForm, IsAlpha, UrlDone;
    if u != [] && IsAlpha(u[0]) {
      SchemaState(u[0]);
      SchemaEnd(u[1..]);
      var k := AlphaLength(u[1..]);
      assert u[1..][k..] == u[k + 1..];
      if AFTER_SCHEMA < u[k + 1..] {
        assert u[1..][k + 3..] == u[k + 4..];
      }
    } else {
      AfterLetters(u);
      assert u[0..] == u;
    }
  }

  lemma AlphaIs(b: byte)
    requires IsAlpha(b)
    ensures b != '/' && b != '*'
  {
  }

  /** The states take exactly the URLs of the grammar. */
  lemma UrlGrammar(u: bytes)
    ensures UrlOk(u) <==> UrlForm(u, false)
    ensures u != [] && UrlDone(UrlEnd(ReqServerStart, u)) <==> UrlForm(u, true)
  {
    hide ParseUrlChar, AuthorityForm, IsAlpha;
    ServerEnd(ReqServerStart, u);
    if u != [] {
      SchemaState(u[0]);
      DeadUrl(u[1..]);
      if u[0] == '/' || u[0] == '*' {
        PathEnd(ReqPath, u[1..]);
        PathDone(UrlEnd(ReqPath, u[1..]));
        if IsAlpha(u[0]) {
          AlphaIs(u[0]);
        }
      } else if IsAlpha(u[0]) {
        SchemaEnd(u[1..]);
        var k := AlphaLength(u[1..]);
        assert u[1..][k..] == u[k + 1..];
        if AFTER_SCHEMA < u[k + 1..] {
          assert u[1..][k + 3..] == u[k + 4..];
        }
      }
    }
  }

  // ----- The parser -----

  /** No byte at which a URL is over. */
  predicate Unbroken(u: bytes) {
    forall i :: 0 <= i < |u| ==> u[i] != ' ' && u[i] != '\r' && u[i] != '\n'
  }

  lemma UrlBytePass(p: Parser, b: byte)
    requires UrlState(p.state) && b != ' ' && b != '\r' && b != '\n' && p.nread < MAX_HEADER_SIZE
    ensures !BulkState(p.state) && !Overflows(Counted(p))
    ensures Pass(Counted(p), b, 1) == UrlStep(Ahead(p, 1), p.state, b)
  {
    hide ParseUrlChar;
  }

  lemma UrlSpacePass(p: Parser)
    requires UrlState(p.state) && p.nread < MAX_HEADER_SIZE
    ensures !BulkState(p.state) && !Overflows(Counted(p))
    ensures var a := Pass(Counted(p), ' ', 1);
            if UrlDone(p.state) then a == Go(Ahead(p, 1).(state := ReqHttpStart)).(flush := Some(Url))
            else a.control == Fail(InvalidUrl)
  {
  }

  /** A URL from its second character on, and the space behind it. */
  lemma {:induction false} UrlFed(p: Parser, u: bytes)
    requires UrlState(p.state) && Unbroken(u) && p.nread + |u| < MAX_HEADER_SIZE
    ensures Feed(p, u + SPACE).stop == if UrlDone(UrlEnd(p.state, u)) then Ran else Failed(InvalidUrl)
    decreases |u|
  {
    hide Feed, Pass, ParseUrlChar, UrlState, UrlDone, BulkState, Counted, Overflows;
    if u == [] {
      assert u + SPACE == SPACE && SPACE[1..] == [];
      UrlSpacePass(p);
      if UrlDone(p.state) {
        FeedStep(p, SPACE);
        FeedNone(Ahead(p, 1).(state := ReqHttpStart));
      } else {
        FeedFail(p, SPACE);
      }
    } else {
      var s := u + SPACE;
      assert s[1..] == u[1..] + SPACE && s[0] == u[0];
      UrlBytePass(p, u[0]);
      var t := ParseUrlChar(p.state, u[0]);
      if t == Dead {
        DeadUrl(u[1..]);
        DeadNotDone();
        FeedFail(p, s);
      } else {
        FeedStep(p, s);
        UrlFed(Ahead(p, 1).(state := t), u[1..]);
      }
    }
  }

  lemma DeadNotDone()
    ensures !UrlDone(Dead)
  {
  }

  lemma UrlFirstPass(p: Parser, b: byte)
    requires p.state.ReqSpacesBeforeUrl? && b != ' ' && p.nread < MAX_HEADER_SIZE
    ensures !BulkState(p.state) && !Overflows(Counted(p))
    ensures Pass(Counted(p), b, 1) ==
            UrlStep(Ahead(p, 1), if p.line.verb == CONNECT then ReqServerStart else ReqSpacesBeforeUrl, b)
            .(mark := Some(Url))
  {
    hide ParseUrlChar;
  }

  /**
   * Whatever non-empty string stands between the method and the next space, the
   * parser takes it exactly if it is a URL of the grammar for that method, and
   * refuses it as an invalid URL otherwise.
   */
  lemma UrlAccepted(p: Parser, u: bytes)
    requires p.state.ReqSpacesBeforeUrl? && u != [] && Unbroken(u) && p.nread + |u| < MAX_HEADER_SIZE
    ensures Feed(p, u + SPACE).stop == if UrlForm(u, p.line.verb == CONNECT) then Ran else Failed(InvalidUrl)
  {
    hide Feed, Pass, ParseUrlChar, UrlState, UrlDone, UrlForm, BulkState, Counted, Overflows;
    var from := if p.line.verb == CONNECT then ReqServerStart else ReqSpacesBeforeUrl;
    var s := u + SPACE;
    assert s[1..] == u[1..] + SPACE && s[0] == u[0];
    UrlGrammar(u);
    UrlFirstPass(p, u[0]);
    var t := ParseUrlChar(from, u[0]);
    if t == Dead {
      DeadUrl(u[1..]);
      DeadNotDone();
      FeedFail(p, s);
    } else {
      FeedStep(p, s);
      UrlFed(Ahead(p, 1).(state := t), u[1..]);
    }
  }
}
