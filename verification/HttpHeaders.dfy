/** The call on a printed request, position by position: header lines, and which header names are recognised. */
module HttpHeaders {
  import opened Bytes
  import opened HttpSyntax
  import opened HttpMachine
  import opened HttpExecute
  import opened HttpSplit
  import opened HttpBatch
  import opened HttpInvariant
  import opened HttpBody
  import opened HttpRequestLine

  // ----- Header names -----

  /** The lower-case form of a name. */
  function Lowered(f: bytes): (l: bytes)
    ensures |l| == |f|
  {
    if f == [] then [] else Lowered(f[..|f| - 1]) + [Token(f[|f| - 1])]
  }

  predicate Starts(l: bytes, word: bytes) {
    |l| <= |word| && word[..|l|] == l
  }

  lemma StartsSnoc(l: bytes, c: byte, word: bytes)
    ensures Starts(l + [c], word) <==> Starts(l, word) && |l| < |word| && word[|l|] == c
  {
    if |l| < |word| {
      assert word[..|l| + 1] == word[..|l|] + [word[|l|]];
    }
  }

  /** l begins none of the names that matter. */
  predicate Strange(l: bytes) {
    && !Starts(l, CONNECTION) && !Starts(l, PROXY_CONNECTION) && !Starts(l, CONTENT_LENGTH)
    && !Starts(l, TRANSFER_ENCODING) && !Starts(l, UPGRADE)
  }

  /** In the middle of word, of which at least k characters are read. */
  predicate Within(word: bytes, l: bytes, index: nat, k: nat) {
    k <= |l| < |word| && index == |l| - 1 && Starts(l, word)
  }

  /** What header state h says about the name read so far. */
  predicate Reads(h: HeaderState, index: nat, l: bytes) {
    match h
    case C => l == "c" && index == 0
    case CO => l == "co" && index == 1
    case CON => l == "con" && index == 2
    case MatchingConnection => Within(CONNECTION, l, index, 4)
    case MatchingProxyConnection => Within(PROXY_CONNECTION, l, index, 1)
    case MatchingContentLength => Within(CONTENT_LENGTH, l, index, 4)
    case MatchingTransferEncoding => Within(TRANSFER_ENCODING, l, index, 1)
    case MatchingUpgrade => Within(UPGRADE, l, index, 1)
    case ConnectionHeader => l == CONNECTION || l == PROXY_CONNECTION
    case ContentLengthHeader => l == CONTENT_LENGTH
    case TransferEncodingHeader => l == TRANSFER_ENCODING
    case UpgradeHeader => l == UPGRADE
    case General => Strange(l)
    case _ => false
  }

  lemma StrangeGrows(l: bytes, c: byte)
    requires Strange(l)
    ensures Strange(l + [c])
  {
    StartsAll(l, c);
    hide Starts;
  }

  lemma StartsAll(l: bytes, c: byte)
    ensures Starts(l + [c], CONNECTION) <==> Starts(l, CONNECTION) && |l| < 10 && CONNECTION[|l|] == c
    ensures Starts(l + [c], PROXY_CONNECTION) <==> Starts(l, PROXY_CONNECTION) && |l| < 16 && PROXY_CONNECTION[|l|] == c
    ensures Starts(l + [c], CONTENT_LENGTH) <==> Starts(l, CONTENT_LENGTH) && |l| < 14 && CONTENT_LENGTH[|l|] == c
    ensures Starts(l + [c], TRANSFER_ENCODING) <==>
              Starts(l, TRANSFER_ENCODING) && |l| < 17 && TRANSFER_ENCODING[|l|] == c
    ensures Starts(l + [c], UPGRADE) <==> Starts(l, UPGRADE) && |l| < 7 && UPGRADE[|l|] == c
  {
    hide Starts;
    StartsSnoc(l, c, CONNECTION);
    StartsSnoc(l, c, PROXY_CONNECTION);
    StartsSnoc(l, c, CONTENT_LENGTH);
    StartsSnoc(l, c, TRANSFER_ENCODING);
    StartsSnoc(l, c, UPGRADE);
  }

  /** Names that begin differently share no beginning. */
  lemma Apart(l: bytes)
    requires l != []
    ensures Starts(l, PROXY_CONNECTION) ==> l[0] == 'p'
    ensures Starts(l, TRANSFER_ENCODING) ==> l[0] == 't'
    ensures Starts(l, UPGRADE) ==> l[0] == 'u'
    ensures Starts(l, CONNECTION) || Starts(l, CONTENT_LENGTH) ==> l[0] == 'c'
    ensures |l| >= 4 && Starts(l, CONNECTION) ==> l[3] == 'n'
    ensures |l| >= 4 && Starts(l, CONTENT_LENGTH) ==> l[3] == 't'
  {
  }

  lemma Whole(word: bytes, l: bytes)
    requires |l| == |word|
    ensures Starts(l, word) <==> l == word
  {
    assert word[..|word|] == word;
  }

  /** One more character while a word is matched. */
  lemma MatchedReads(p: Parser, word: bytes, c: byte, done: HeaderState, l: bytes, k: nat)
    requires Within(word, l, p.index, k)
    ensures var q := Matched(p, word, c, done);
            && q == p.(header := q.header, index := q.index)
            && if !Starts(l + [c], word) then q.header == General
               else if |l| + 1 == |word| then q.header == done && l + [c] == word
               else q.header == p.header && Within(word, l + [c], q.index, k)
  {
    StartsSnoc(l, c, word);
    if |l| + 1 == |word| {
      Whole(word, l + [c]);
    }
  }

  /** The first letters, up to where connection and content-length part. */
  lemma EarlyReads(p: Parser, ch: byte, l: bytes)
    requires p.header.C? || p.header.CO? || p.header.CON?
    requires Reads(p.header, p.index, l)
    ensures FieldChar(p, ch).Some?
    ensures var q := FieldChar(p, ch).value;
            q == p.(header := q.header, index := q.index) && Reads(q.header, q.index, l + [Token(ch)])
  {
    hide Token;
    var c := Token(ch);
    StartsAll(l, c);
    Apart(l);
    assert Starts(l, CONNECTION) && Starts(l, CONTENT_LENGTH);
  }

  lemma ConnectionReads(p: Parser, ch: byte, l: bytes)
    requires p.header.MatchingConnection? || p.header.MatchingContentLength?
    requires Reads(p.header, p.index, l)
    ensures FieldChar(p, ch).Some?
    ensures var q := FieldChar(p, ch).value;
            q == p.(header := q.header, index := q.index) && Reads(q.header, q.index, l + [Token(ch)])
  {
    hide Token, Matched, Starts;
    var c := Token(ch);
    Apart(l);
    Apart(l + [c]);
    if p.header.MatchingConnection? {
      MatchedReads(p, CONNECTION, c, ConnectionHeader, l, 4);
    } else {
      MatchedReads(p, CONTENT_LENGTH, c, ContentLengthHeader, l, 4);
    }
  }

  lemma OtherReads(p: Parser, ch: byte, l: bytes)
    requires p.header.MatchingProxyConnection? || p.header.MatchingTransferEncoding? || p.header.MatchingUpgrade?
    requires Reads(p.header, p.index, l)
    ensures FieldChar(p, ch).Some?
    ensures var q := FieldChar(p, ch).value;
            q == p.(header := q.header, index := q.index) && Reads(q.header, q.index, l + [Token(ch)])
  {
    hide Token, Matched, Starts;
    var c := Token(ch);
    Apart(l);
    Apart(l + [c]);
    if p.header.MatchingProxyConnection? {
      MatchedReads(p, PROXY_CONNECTION, c, ConnectionHeader, l, 1);
    } else if p.header.MatchingTransferEncoding? {
      MatchedReads(p, TRANSFER_ENCODING, c, TransferEncodingHeader, l, 1);
    } else {
      MatchedReads(p, UPGRADE, c, UpgradeHeader, l, 1);
    }
  }

  lemma DoneReads(p: Parser, ch: byte, l: bytes)
    requires p.header.ConnectionHeader? || p.header.ContentLengthHeader? || p.header.TransferEncodingHeader?
             || p.header.UpgradeHeader? || p.header.General?
    requires Reads(p.header, p.index, l) && ch != ' '
    ensures FieldChar(p, ch).Some?
    ensures var q := FieldChar(p, ch).value;
            q == p.(header := q.header, index := q.index) && Reads(q.header, q.index, l + [Token(ch)])
  {
    hide Token, Starts;
    var c := Token(ch);
    if p.header.General? {
      StrangeGrows(l, c);
    } else {
      Apart(l);
      StartsAll(l, c);
    }
  }

  lemma CharReads(p: Parser, ch: byte, l: bytes)
    requires Reads(p.header, p.index, l) && ch != ' '
    ensures FieldChar(p, ch).Some?
    ensures var q := FieldChar(p, ch).value;
            q == p.(header := q.header, index := q.index) && Reads(q.header, q.index, l + [Token(ch)])
  {
    hide Token, FieldChar, Starts, Within;
    if p.header.C? || p.header.CO? || p.header.CON? {
      EarlyReads(p, ch, l);
    } else if p.header.MatchingConnection? || p.header.MatchingContentLength? {
      ConnectionReads(p, ch, l);
    } else if p.header.MatchingProxyConnection? || p.header.MatchingTransferEncoding? || p.header.MatchingUpgrade? {
      OtherReads(p, ch, l);
    } else {
      DoneReads(p, ch, l);
    }
  }

  lemma StartReads(p: Parser, c: byte)
    ensures var q := FieldStart(p, c);
            Reads(q.header, q.index, [c]) && q == p.(index := 0, state := HeaderField, header := q.header)
  {
    Apart([c]);
  }

  /** A name of token characters. */
  predicate NameOk(f: bytes) {
    f != [] && forall i :: 0 <= i < |f| ==> Token(f[i]) != '\0'
  }

  /** The registers after the name f. */
  function AfterName(p: Parser, f: bytes): Parser
    requires f != []
  {
    if |f| == 1 then FieldStart(p, Token(f[0]))
    else
      var q := AfterName(p, f[..|f| - 1]);
      match FieldChar(q, f[|f| - 1]) case Some(r) => r case None => q
  }

  lemma TokenNotBlank(ch: byte)
    requires Token(ch) != '\0'
    ensures ch != ' ' && ch != '\t' && ch != '\r' && ch != '\n' && ch != ':'
  {
  }

  lemma {:induction false} NameReads(p: Parser, f: bytes)
    requires NameOk(f)
    ensures var q := AfterName(p, f);
            && Reads(q.header, q.index, Lowered(f))
            && q == p.(index := q.index, state := HeaderField, header := q.header)
    decreases |f|
  {
    hide Reads, FieldChar, FieldStart, Token;
    var k := |f| - 1;
    if k == 0 {
      StartReads(p, Token(f[0]));
      assert Lowered(f) == [Token(f[0])] by { assert Lowered(f[..0]) == []; }
    } else {
      NameReads(p, f[..k]);
      TokenNotBlank(f[k]);
      CharReads(AfterName(p, f[..k]), f[k], Lowered(f[..k]));
    }
  }

  /** The parser looks into a header's value exactly when its name is, in any case, the one that matters. */
  lemma HeaderRecognised(p: Parser, f: bytes)
    requires NameOk(f)
    ensures var h, l := AfterName(p, f).header, Lowered(f);
            && (h == ContentLengthHeader <==> l == "content-length")
            && (h == TransferEncodingHeader <==> l == "transfer-encoding")
            && (h == UpgradeHeader <==> l == "upgrade")
            && (h == ConnectionHeader <==> l == "connection" || l == "proxy-connection")
  {
    NameReads(p, f);
    Whole(CONTENT_LENGTH, CONTENT_LENGTH);
    Whole(TRANSFER_ENCODING, TRANSFER_ENCODING);
    Whole(UPGRADE, UPGRADE);
    Whole(CONNECTION, CONNECTION);
    Whole(PROXY_CONNECTION, PROXY_CONNECTION);
    Apart(Lowered(f));
    hide AfterName, Lowered;
  }

  // ----- A header line -----

  datatype Header = Header(name: bytes, value: bytes)

  /** The letter l of a word, in either case. */
  predicate LetterIs(c: byte, l: byte) {
    c == l || ('A' <= c <= 'Z' && c as int + 32 == l as int)
  }

  /** u is the beginning of the word w, in any case, or all of it and spaces. */
  predicate Follows(u: bytes, w: bytes) {
    forall k :: 0 <= k < |u| ==> if k < |w| then LetterIs(u[k], w[k]) else u[k] == ' '
  }

  /** The value v is the word w, in any case, and perhaps spaces behind it. */
  predicate Word(v: bytes, w: bytes) {
    |w| <= |v| && Follows(v, w)
  }

  predicate IsConnection(f: bytes) {
    Lowered(f) == "connection" || Lowered(f) == "proxy-connection"
  }

  predicate IsLength(f: bytes) {
    Lowered(f) == "content-length"
  }

  /** The flags after a header line, from its text. */
  function Flagged(fl: Flags, h: Header): Flags {
    fl.(chunked := fl.chunked || (Lowered(h.name) == "transfer-encoding" && Word(h.value, "chunked")),
        keepAlive := fl.keepAlive || (IsConnection(h.name) && Word(h.value, "keep-alive")),
        close := fl.close || (IsConnection(h.name) && Word(h.value, "close")),
        upgrade := fl.upgrade || (Lowered(h.name) == "upgrade" && h.value != []))
  }

  /** What header values are examined for. */
  datatype Topic = Connections | Encodings | Others

  function TopicOf(h: HeaderState): Topic {
    match h
    case ConnectionHeader => Connections
    case TransferEncodingHeader => Encodings
    case _ => Others
  }

  /** In the middle of w, whose first letters are u. */
  predicate InWord(u: bytes, w: bytes, index: nat) {
    1 <= |u| < |w| && index == |u| - 1 && Follows(u, w)
  }

  /** What header state h says about the value read so far. */
  predicate Tells(t: Topic, h: HeaderState, index: nat, u: bytes) {
    match h
    case MatchingChunked => t.Encodings? && InWord(u, CHUNKED, index)
    case ChunkedValue => t.Encodings? && Word(u, CHUNKED)
    case MatchingKeepAlive => t.Connections? && InWord(u, KEEP_ALIVE, index)
    case KeepAliveValue => t.Connections? && Word(u, KEEP_ALIVE)
    case MatchingClose => t.Connections? && InWord(u, CLOSE, index)
    case CloseValue => t.Connections? && Word(u, CLOSE)
    case General =>
      && (t.Encodings? ==> !Follows(u, CHUNKED))
      && (t.Connections? ==> !Follows(u, KEEP_ALIVE) && !Follows(u, CLOSE))
    case _ => false
  }

  lemma FollowsSnoc(u: bytes, c: byte, w: bytes)
    ensures Follows(u + [c], w) <==> Follows(u, w) && if |u| < |w| then LetterIs(c, w[|u|]) else c == ' '
  {
    var v := u + [c];
    assert v[|u|] == c && forall k :: 0 <= k < |u| ==> v[k] == u[k];
  }

  lemma LowerIs(c: byte, l: byte)
    requires c != '\r' && (l == '-' || 'a' <= l <= 'z')
    ensures Lower(c) == l <==> LetterIs(c, l)
  {
  }

  predicate IsWord(w: bytes) {
    |w| > 1 && forall k :: 0 <= k < |w| ==> w[k] == '-' || 'a' <= w[k] <= 'z'
  }

  lemma Words()
    ensures IsWord(CHUNKED) && IsWord(KEEP_ALIVE) && IsWord(CLOSE)
    ensures CHUNKED == "chunked" && KEEP_ALIVE == "keep-alive" && CLOSE == "close"
  {
  }

  /** One more character while a word is matched. */
  lemma MatchedTells(p: Parser, w: bytes, b: byte, done: HeaderState, u: bytes)
    requires InWord(u, w, p.index) && b != '\r' && IsWord(w)
    ensures var q := Matched(p, w, Lower(b), done);
            && q == p.(header := q.header, index := q.index)
            && if !Follows(u + [b], w) then q.header == General
               else if |u| + 1 == |w| then q.header == done
               else q.header == p.header && q.index == p.index + 1
  {
    hide Lower, LetterIs;
    FollowsSnoc(u, b, w);
    LowerIs(b, w[|u|]);
  }

  /** The words for a connection begin differently. */
  lemma OneWord(u: bytes)
    requires u != []
    ensures !(Follows(u, KEEP_ALIVE) && Follows(u, CLOSE))
  {
    assert Follows(u, KEEP_ALIVE) ==> LetterIs(u[0], KEEP_ALIVE[0]);
    assert Follows(u, CLOSE) ==> LetterIs(u[0], CLOSE[0]);
  }

  /** A value that reaches the callback unchanged. */
  predicate ValueOk(v: bytes) {
    && (v != [] ==> v[0] != ' ' && v[0] != '\t')
    && forall i :: 0 <= i < |v| ==> v[i] != '\r' && v[i] != '\n'
  }

  lemma MatchedAhead(p: Parser, word: bytes, c: byte, done: HeaderState, n: nat)
    requires word != []
    ensures Matched(Ahead(p, n), word, c, done) == Ahead(Matched(p, word, c, done), n)
  {
  }

  /** The header count does not matter to a name. */
  lemma FieldCharAhead(p: Parser, b: byte, n: nat)
    requires FieldChar(p, b).Some?
    ensures FieldChar(Ahead(p, n), b) == Some(Ahead(FieldChar(p, b).value, n))
  {
    hide Token, Matched;
    var c := Token(b);
    match p.header
    case MatchingConnection => MatchedAhead(p, CONNECTION, c, ConnectionHeader, n);
    case MatchingProxyConnection => MatchedAhead(p, PROXY_CONNECTION, c, ConnectionHeader, n);
    case MatchingContentLength => MatchedAhead(p, CONTENT_LENGTH, c, ContentLengthHeader, n);
    case MatchingTransferEncoding => MatchedAhead(p, TRANSFER_ENCODING, c, TransferEncodingHeader, n);
    case MatchingUpgrade => MatchedAhead(p, UPGRADE, c, UpgradeHeader, n);
    case _ =>
  }

  lemma NameByte(p: Parser, ch: byte, q: Parser)
    requires p.state.HeaderField? && Token(ch) != '\0' && p.nread < MAX_HEADER_SIZE
    requires FieldChar(p, ch) == Some(q) && q == p.(header := q.header, index := q.index)
    ensures Quiet(p, ch, Ahead(q, 1))
  {
    FieldCharAhead(p, ch, 1);
    hide Token, FieldChar, Matched;
  }

  lemma {:induction false} NameQuiet(p: Parser, f: bytes)
    requires NameOk(f) && p.nread + |f| - 1 <= MAX_HEADER_SIZE
    ensures Quietly(FieldStart(p, Token(f[0])), f[1..], Ahead(AfterName(p, f), |f| - 1))
    decreases |f|
  {
    hide Quiet, Quietly, FieldChar, FieldStart, Token, Reads;
    var k := |f| - 1;
    if k == 0 {
      QuietlyNone(FieldStart(p, Token(f[0])));
      assert f[1..] == [];
    } else {
      var g := f[..k];
      NameQuiet(p, g);
      NameReads(p, g);
      TokenNotBlank(f[k]);
      CharReads(AfterName(p, g), f[k], Lowered(g));
      NameStep(p, f);
      QuietlyOne(Ahead(AfterName(p, g), k - 1), f[k], Ahead(AfterName(p, f), k));
      QuietlyConcat(FieldStart(p, Token(f[0])), g[1..], Ahead(AfterName(p, g), k - 1), [f[k]],
                    Ahead(AfterName(p, f), k));
      assert f[1..] == g[1..] + [f[k]];
    }
  }

  lemma NameStep(p: Parser, f: bytes)
    requires NameOk(f) && |f| > 1 && p.nread + |f| - 1 <= MAX_HEADER_SIZE
    requires var q := AfterName(p, f[..|f| - 1]);
             && q == p.(index := q.index, state := HeaderField, header := q.header)
             && FieldChar(q, f[|f| - 1]).Some?
             && var r := FieldChar(q, f[|f| - 1]).value;
                r == q.(header := r.header, index := r.index)
    ensures Quiet(Ahead(AfterName(p, f[..|f| - 1]), |f| - 2), f[|f| - 1], Ahead(AfterName(p, f), |f| - 1))
  {
    hide Quiet, FieldChar, FieldStart, Token;
    var g, b := f[..|f| - 1], f[|f| - 1];
    var q := AfterName(p, g);
    FieldCharAhead(q, b, |f| - 2);
    NameByte(Ahead(q, |f| - 2), b, Ahead(AfterName(p, f), |f| - 2));
  }

  lemma FieldPasses(p: Parser, b: byte)
    requires p.nread < MAX_HEADER_SIZE
    ensures p.state.HeaderField? && b == ':' ==>
              && !BulkState(p.state) && !Overflows(Counted(p))
              && Pass(Counted(p), b, 1) == Go(Ahead(p, 1).(state := HeaderValueDiscardWs)).(flush := Some(Field))
  {
  }

  lemma FirstFieldPass(p: Parser, b: byte, avail: nat)
    requires avail > 0 && p.state.HeaderFieldStart? && Token(b) != '\0'
    ensures Pass(p, b, avail) == Go(FieldStart(p, Token(b))).(mark := Some(Field))
  {
    TokenNotBlank(b);
    hide Token, FieldStart;
  }

  lemma ColonByte(data: bytes, i: nat, c: Call, m: nat)
    requires m <= i < |data| && data[i] == ':' && c.marks == map[Field := m]
    requires c.p.state.HeaderField? && c.p.nread < MAX_HEADER_SIZE
    ensures Loop(data, i, c) ==
            Loop(data, i + 1, Call(Ahead(c.p, 1).(state := HeaderValueDiscardWs), map[],
                                   c.events + [Data(Field, data[m..i])]))
  {
    hide Loop, Pass, Counted, Overflows, BulkState;
    FieldPasses(c.p, ':');
    FlushByte(data, i, c, Ahead(c.p, 1).(state := HeaderValueDiscardWs), Field, m);
  }

  /** The name and the colon, from its first byte on. */
  lemma NameLoop(data: bytes, i: nat, c: Call, f: bytes, c': Call)
    requires c.p.state.HeaderFieldStart? && c.marks == map[] && NameOk(f)
    requires i + |f| < |data| && Holds(data, i, f + COLON) && c.p.nread + |f| <= MAX_HEADER_SIZE
    requires c' == Call(Ahead(AfterName(c.p, f), |f|).(state := HeaderValueDiscardWs), map[],
                        c.events + [Data(Field, f)])
    ensures Switch(data, i, c) == Loop(data, i + |f| + 1, c')
  {
    hide Loop, Switch, Pass, Quietly, Token, FieldStart, Reads, FieldChar, AfterName, Holds;
    HoldsByte(data, i, f + COLON);
    var q := FieldStart(c.p, Token(f[0]));
    FirstFieldPass(c.p, f[0], |data| - i);
    PlainSwitch(data, i, c, Go(q).(mark := Some(Field)));
    assert c.events + [] + [] == c.events;
    NameQuiet(c.p, f);
    NameReads(c.p, f);
    OneMark(Field, i, i + 1);
    HoldsSplit(data, i, f, COLON);
    HoldsIs(data, i, f);
    HoldsByte(data, i, f);
    HoldsByte(data, i + |f|, COLON);
    var r := Ahead(AfterName(c.p, f), |f| - 1);
    QuietLoop(data, i + 1, Call(q, map[Field := i], c.events), f[1..], r);
    ColonByte(data, i + |f|, Call(r, map[Field := i], c.events), i);
  }

  // ----- Values -----

  lemma WordTells(t: Topic, p: Parser, b: byte, u: bytes)
    requires p.header.MatchingChunked? || p.header.MatchingKeepAlive? || p.header.MatchingClose?
    requires Tells(t, p.header, p.index, u) && b != '\r'
    ensures var a := ValueChar(p, b);
            && a == Go(p.(header := a.p.header, index := a.p.index))
            && Tells(t, a.p.header, a.p.index, u + [b])
  {
    hide Lower, Matched, LetterIs, Follows;
    Words();
    hide IsWord;
    OneWord(u + [b]);
    if p.header.MatchingChunked? {
      MatchedTells(p, CHUNKED, b, ChunkedValue, u);
    } else if p.header.MatchingKeepAlive? {
      MatchedTells(p, KEEP_ALIVE, b, KeepAliveValue, u);
      FollowsSnoc(u, b, CLOSE);
      OneWord(u);
    } else {
      MatchedTells(p, CLOSE, b, CloseValue, u);
      FollowsSnoc(u, b, KEEP_ALIVE);
      OneWord(u);
    }
  }

  lemma OverTells(t: Topic, p: Parser, b: byte, u: bytes)
    requires p.header.ChunkedValue? || p.header.KeepAliveValue? || p.header.CloseValue? || p.header.General?
    requires Tells(t, p.header, p.index, u) && u != []
    ensures var a := ValueChar(p, b);
            && a == Go(p.(header := a.p.header, index := a.p.index))
            && Tells(t, a.p.header, a.p.index, u + [b])
  {
    hide Lower, Matched, LetterIs, Follows;
    FollowsSnoc(u, b, CHUNKED);
    FollowsSnoc(u, b, KEEP_ALIVE);
    FollowsSnoc(u, b, CLOSE);
    OneWord(u);
  }

  lemma ValueTells(t: Topic, p: Parser, b: byte, u: bytes)
    requires Tells(t, p.header, p.index, u) && b != '\r' && u != []
    ensures var a := ValueChar(p, b);
            && a == Go(p.(header := a.p.header, index := a.p.index))
            && Tells(t, a.p.header, a.p.index, u + [b])
  {
    hide ValueChar, Follows;
    if p.header.MatchingChunked? || p.header.MatchingKeepAlive? || p.header.MatchingClose? {
      WordTells(t, p, b, u);
    } else {
      OverTells(t, p, b, u);
    }
  }

  lemma ValuePass(p: Parser, b: byte)
    requires p.state.HeaderValue? && b != '\r' && b != '\n' && p.nread < MAX_HEADER_SIZE
    ensures !BulkState(p.state) && !Overflows(Counted(p)) && Pass(Counted(p), b, 1) == ValueChar(Ahead(p, 1), b)
  {
    hide ValueChar;
  }

  lemma ValueByte(p: Parser, b: byte, t: Topic, u: bytes) returns (q: Parser)
    requires p.state.HeaderValue? && b != '\r' && b != '\n' && p.nread < MAX_HEADER_SIZE
    requires Tells(t, p.header, p.index, u) && u != []
    ensures Quiet(p, b, q) && q == Ahead(p, 1).(header := q.header, index := q.index)
    ensures Tells(t, q.header, q.index, u + [b])
  {
    hide ValueChar, Tells, Pass, BulkState, Overflows, Counted;
    ValuePass(p, b);
    ValueTells(t, Ahead(p, 1), b, u);
    q := ValueChar(Ahead(p, 1), b).p;
  }

  lemma {:induction false} ValueQuiet(p: Parser, v: bytes, t: Topic, u: bytes) returns (q: Parser)
    requires p.state.HeaderValue? && p.nread + |v| <= MAX_HEADER_SIZE
    requires forall i :: 0 <= i < |v| ==> v[i] != '\r' && v[i] != '\n'
    requires Tells(t, p.header, p.index, u) && u != []
    ensures Quietly(p, v, q) && q == Ahead(p, |v|).(header := q.header, index := q.index)
    ensures Tells(t, q.header, q.index, u + v)
    decreases |v|
  {
    hide Quiet, Quietly, Tells;
    if v == [] {
      q := p;
      QuietlyNone(p);
      assert u + v == u;
    } else {
      var r := ValueByte(p, v[0], t, u);
      q := ValueQuiet(r, v[1..], t, u + [v[0]]);
      QuietlyOne(p, v[0], r);
      QuietlyConcat(p, [v[0]], r, v[1..], q);
      assert v == [v[0]] + v[1..];
      assert u + [v[0]] + v[1..] == u + v;
    }
  }

  /** The flags once a value has begun. */
  function Upgraded(p: Parser): Flags {
    p.flags.(upgrade := p.flags.upgrade || p.header.UpgradeHeader?)
  }

  lemma FirstFollows(b: byte, w: bytes, l: byte)
    requires IsWord(w) && w[0] == l && b != '\r'
    ensures Follows([b], w) <==> Lower(b) == l
  {
    LowerIs(b, l);
    hide Lower, LetterIs;
    assert Follows([b], w) <==> LetterIs([b][0], w[0]);
  }

  lemma FirstTells(p: Parser, b: byte)
    requires !p.header.ContentLengthHeader? && b != '\r'
    ensures var q := ArmValueStart(p, b).p;
            && ArmValueStart(p, b) == Go(q).(mark := Some(Value))
            && q == p.(state := HeaderValue, index := 0, header := q.header, flags := Upgraded(p))
            && Tells(TopicOf(p.header), q.header, q.index, [b])
  {
    Words();
    FirstFollows(b, CHUNKED, 'c');
    FirstFollows(b, KEEP_ALIVE, 'k');
    FirstFollows(b, CLOSE, 'c');
    hide Lower, Follows, IsWord;
  }

  lemma FirstValuePass(p: Parser, b: byte) returns (q: Parser)
    requires p.state.HeaderValueDiscardWs? && p.nread < MAX_HEADER_SIZE && !p.header.ContentLengthHeader?
    requires b != ' ' && b != '\t' && b != '\r' && b != '\n'
    ensures !BulkState(p.state) && !Overflows(Counted(p))
    ensures Pass(Counted(p), b, 1) == Go(q).(mark := Some(Value))
    ensures q == Ahead(p, 1).(state := HeaderValue, index := 0, header := q.header, flags := Upgraded(p))
    ensures Tells(TopicOf(p.header), q.header, q.index, [b])
  {
    hide ArmValueStart, Tells;
    FirstTells(Ahead(p, 1), b);
    q := ArmValueStart(Ahead(p, 1), b).p;
  }

  lemma ValueEnds(p: Parser)
    requires p.nread < MAX_HEADER_SIZE
    ensures p.state.HeaderValue? ==>
              && !BulkState(p.state) && !Overflows(Counted(p))
              && Pass(Counted(p), '\r', 1) == Go(Ahead(p, 1).(state := HeaderAlmostDone)).(flush := Some(Value))
    ensures p.state.HeaderAlmostDone? ==> Quiet(p, '\n', Ahead(p, 1).(state := HeaderValueLws))
    ensures p.state.HeaderValueDiscardWs? ==> Quiet(p, '\r', Ahead(p, 1).(state := HeaderValueDiscardWsAlmostDone))
    ensures p.state.HeaderValueDiscardWsAlmostDone? ==> Quiet(p, '\n', Ahead(p, 1).(state := HeaderValueDiscardLws))
  {
    hide ArmValueStart, ValueChar;
  }

  lemma NextLinePass(p: Parser, b: byte, avail: nat)
    requires avail > 0 && b != ' ' && b != '\t' && (p.state.HeaderValueLws? || p.state.HeaderValueDiscardLws?)
    ensures !BulkState(p.state)
    ensures Pass(p, b, avail) ==
            if p.state.HeaderValueLws? then Retry(HeaderDone(p), HeaderFieldStart)
            else Retry(p, HeaderFieldStart).(mark := Some(Value), flush := Some(Value))
  {
  }

  lemma CountedHere(p: Parser)
    requires p.state.HeaderValueLws? || p.state.HeaderValueDiscardLws? || p.state.HeadersAlmostDone?
    requires p.nread < MAX_HEADER_SIZE
    ensures Counted(p) == Ahead(p, 1) && !Overflows(Counted(p))
  {
  }

  /** From the CR behind a value to the first byte of the next line. */
  lemma ValueCloses(data: bytes, i: nat, j: nat, c: Call)
    requires i < j && c.p.state.HeaderValue? && c.marks == map[Value := i] && Holds(data, j, CRLF)
    requires j + 2 < |data| && data[j + 2] != ' ' && data[j + 2] != '\t' && c.p.nread + 3 <= MAX_HEADER_SIZE
    ensures Loop(data, j, c) ==
            Switch(data, j + 2, Call(HeaderDone(Ahead(c.p, 3)).(state := HeaderFieldStart), map[],
                                     c.events + [Data(Value, data[i..j])]))
  {
    hide Loop, Pass, Switch, Quiet, BulkState, Overflows, HeaderDone;
    HoldsByte(data, j, CRLF);
    HoldsByte(data, j + 1, CRLF[1..]);
    var events := c.events + [Data(Value, data[i..j])];
    ValueEnds(c.p);
    var p1 := Ahead(c.p, 1).(state := HeaderAlmostDone);
    FlushByte(data, j, c, p1, Value, i);
    ValueEnds(p1);
    var p2 := Ahead(p1, 1).(state := HeaderValueLws);
    QuietByte(data, j + 1, Call(p1, map[], events), p2);
    CountedHere(p2);
    var p3 := Ahead(p2, 1);
    CountedLoop(data, j + 2, Call(p2, map[], events));
    NextLinePass(p3, data[j + 2], |data| - j - 2);
    var a := Retry(HeaderDone(p3), HeaderFieldStart);
    PlainSwitch(data, j + 2, Call(p3, map[], events), a);
    assert events + [] + [] == events;
    DoneAnyState(p3, Ahead(c.p, 3));
  }

  lemma DoneAnyState(p: Parser, q: Parser)
    requires p == q.(state := p.state)
    ensures HeaderDone(p).(state := HeaderFieldStart) == HeaderDone(q).(state := HeaderFieldStart)
  {
  }

  /** The line of an empty value, from behind the colon to the first byte of the next line. */
  lemma EmptyValueLoop(data: bytes, i: nat, c: Call)
    requires c.p.state.HeaderValueDiscardWs? && c.marks == map[]
    requires Holds(data, i, CRLF) && c.p.nread + 3 <= MAX_HEADER_SIZE
    requires i + 2 < |data| && data[i + 2] != ' ' && data[i + 2] != '\t'
    ensures Loop(data, i, c) ==
            Switch(data, i + 2, Call(Ahead(c.p, 3).(state := HeaderFieldStart), map[],
                                     c.events + [Data(Value, [])]))
  {
    hide Loop, Pass, Switch, Quiet, BulkState, Overflows;
    HoldsByte(data, i, CRLF);
    HoldsByte(data, i + 1, CRLF[1..]);
    ValueEnds(c.p);
    var p1 := Ahead(c.p, 1).(state := HeaderValueDiscardWsAlmostDone);
    QuietByte(data, i, c, p1);
    ValueEnds(p1);
    var p2 := Ahead(p1, 1).(state := HeaderValueDiscardLws);
    QuietByte(data, i + 1, Call(p1, map[], c.events), p2);
    CountedHere(p2);
    var p3 := Ahead(p2, 1);
    CountedLoop(data, i + 2, Call(p2, map[], c.events));
    NextLinePass(p3, data[i + 2], |data| - i - 2);
    var a := Retry(p3, HeaderFieldStart).(mark := Some(Value), flush := Some(Value));
    PlainSwitch(data, i + 2, Call(p3, map[], c.events), a);
    assert data[i + 2..i + 2] == [] && map[Value := i + 2] - {Value} == map[];
    assert c.events + [Data(Value, [])] + [] == c.events + [Data(Value, [])];
  }

  // ----- A header line -----

  /** The registers after a header line, but for those that only the line itself uses. */
  predicate Past(p: Parser, q: Parser, h: Header)
    requires HeaderOk(h)
  {
    && q == p.(nread := p.nread + |h.name| + |h.value| + 3, flags := Flagged(p.flags, h),
               contentLength := LengthSet(p.contentLength, h), state := HeaderFieldStart,
               header := q.header, index := q.index)
  }

  /** A Content-Length that the parser takes. */
  predicate LengthOk(v: bytes) {
    v != [] && (forall i :: 0 <= i < |v| ==> IsDigit(v[i])) && LengthFits(DigitsValue(v))
  }

  /** A header that comes through: a token name, a value on one line; a Content-Length is a number. */
  predicate HeaderOk(h: Header) {
    NameOk(h.name) && if IsLength(h.name) then LengthOk(h.value) else ValueOk(h.value)
  }

  /** The length that is in force after a header line, if it was n before. */
  function LengthSet(n: uint64, h: Header): uint64
    requires HeaderOk(h)
  {
    if IsLength(h.name) then DigitsValue(h.value) else n
  }

  function LineText(h: Header): bytes {
    h.name + COLON + h.value + CRLF
  }

  /** The header state and the topic that a name leads to. */
  lemma NameTopic(p: Parser, f: bytes, n: nat)
    requires NameOk(f)
    ensures var q := Ahead(AfterName(p, f), n).(state := HeaderValueDiscardWs);
            && q == Ahead(p, n).(state := HeaderValueDiscardWs, header := q.header, index := q.index)
            && (q.header.ContentLengthHeader? <==> IsLength(f))
            && (q.header.UpgradeHeader? <==> Lowered(f) == "upgrade")
            && (TopicOf(q.header).Connections? <==> IsConnection(f))
            && (TopicOf(q.header).Encodings? <==> Lowered(f) == "transfer-encoding")
  {
    hide AfterName, Lowered;
    NameReads(p, f);
    HeaderRecognised(p, f);
  }

  /** What the end of a value does to the flags is what its text says. */
  lemma DoneMarks(p: Parser, h: Header, t: Topic, fl: Flags)
    requires Tells(t, p.header, p.index, h.value) && h.value != []
    requires t.Connections? <==> IsConnection(h.name)
    requires t.Encodings? <==> Lowered(h.name) == "transfer-encoding"
    requires p.flags == fl.(upgrade := fl.upgrade || Lowered(h.name) == "upgrade")
    ensures HeaderDone(p) == p.(flags := Flagged(fl, h))
  {
    hide Follows, Lowered;
    Words();
    hide IsWord;
    OneWord(h.value);
  }

  /** A line with a value that is not empty, from behind the colon to the first byte of the next line. */
  lemma FullValueLoop(data: bytes, i: nat, c: Call, v: bytes) returns (q: Parser)
    requires c.p.state.HeaderValueDiscardWs? && c.marks == map[] && !c.p.header.ContentLengthHeader?
    requires ValueOk(v) && v != [] && Holds(data, i, v + CRLF) && c.p.nread + |v| + 3 <= MAX_HEADER_SIZE
    requires var j := i + |v| + 2; j < |data| && data[j] != ' ' && data[j] != '\t'
    ensures q == Ahead(c.p, |v| + 3).(state := HeaderValue, flags := Upgraded(c.p),
                                      header := q.header, index := q.index)
    ensures Tells(TopicOf(c.p.header), q.header, q.index, v)
    ensures Loop(data, i, c) ==
            Switch(data, i + |v| + 2, Call(HeaderDone(q).(state := HeaderFieldStart), map[],
                                           c.events + [Data(Value, v)]))
  {
    hide Loop, Switch, Pass, Quietly, Quiet, Counted, Overflows, BulkState, Tells, Holds, HeaderDone, Upgraded;
    HoldsSplit(data, i, v, CRLF);
    HoldsByte(data, i, v);
    HoldsIs(data, i, v);
    var t := TopicOf(c.p.header);
    var p1 := FirstValuePass(c.p, v[0]);
    MarkByte(data, i, c, p1, Value);
    var p2 := ValueQuiet(p1, v[1..], t, [v[0]]);
    assert [v[0]] + v[1..] == v;
    OneMark(Value, i, i + 1);
    QuietLoop(data, i + 1, Call(p1, map[Value := i], c.events), v[1..], p2);
    ValueCloses(data, i, i + |v|, Call(p2, map[Value := i], c.events));
    q := Ahead(p2, 3);
  }

  // ----- The value of a Content-Length -----

  lemma DigitAgain(b: byte)
    requires IsDigit(b)
    ensures DigitValue(b) <= 9 && DigitOf(DigitValue(b)) == b
  {
  }

  /** The registers after the digits v of a Content-Length. */
  function AfterDigits(p: Parser, v: bytes): Parser
    requires LengthOk(v)
  {
    Ahead(p, |v|).(state := HeaderValue, index := 0, contentLength := DigitsValue(v))
  }

  /** The digits before the last one are a length as well. */
  lemma LengthPrefix(v: bytes)
    requires LengthOk(v)
    ensures DigitsValue(v) < ULLONG_MAX
    ensures |v| > 1 ==> LengthOk(v[..|v| - 1]) && DigitsValue(v[..|v| - 1]) == DigitsValue(v) / 10 <= LENGTH_LIMIT
    ensures |v| == 1 ==> DigitsValue(v) == DigitValue(v[0])
  {
    if |v| == 1 {
      assert DigitsValue(v[..0]) == 0;
    }
  }

  lemma AccumulateDigit(p: Parser, d: nat)
    requires d <= 9 && p.contentLength <= LENGTH_LIMIT
    ensures 10 * p.contentLength + d < ULLONG_MAX
    ensures Accumulate(p, 10, d) == Go(p.(contentLength := 10 * p.contentLength + d))
  {
  }

  lemma DigitStep(p: Parser, v: bytes)
    requires |v| > 1 && LengthOk(v) && p.header.ContentLengthHeader? && p.nread + |v| <= MAX_HEADER_SIZE
    ensures LengthOk(v[..|v| - 1]) && Quiet(AfterDigits(p, v[..|v| - 1]), v[|v| - 1], AfterDigits(p, v))
  {
    hide Pass, BulkState, Counted, Overflows, Accumulate, LengthFits;
    LengthPrefix(v);
    var k := |v| - 1;
    DigitAgain(v[k]);
    var q := AfterDigits(p, v[..k]);
    LengthPasses(q, DigitValue(v[k]));
    AccumulateDigit(q.(nread := q.nread + 1), DigitValue(v[k]));
  }

  lemma {:induction false} DigitsQuiet(p: Parser, v: bytes)
    requires v != [] && LengthOk(v) && p.header.ContentLengthHeader? && p.nread + |v| <= MAX_HEADER_SIZE
    ensures LengthOk(v[..1]) && Quietly(AfterDigits(p, v[..1]), v[1..], AfterDigits(p, v))
    decreases |v|
  {
    hide Quietly, Quiet, LengthOk, DigitsValue;
    var k := |v| - 1;
    if k == 0 {
      assert v[..1] == v && v[1..] == [];
      QuietlyNone(AfterDigits(p, v));
    } else {
      DigitStep(p, v);
      DigitsQuiet(p, v[..k]);
      assert v[..k][..1] == v[..1] && v[..k][1..] + [v[k]] == v[1..];
      QuietlySnoc(AfterDigits(p, v[..1]), v[..k][1..], AfterDigits(p, v[..k]), v[k], AfterDigits(p, v));
    }
  }

  lemma FirstDigitPass(p: Parser, v: bytes)
    requires LengthOk(v) && p.state.HeaderValueDiscardWs? && p.header.ContentLengthHeader?
    requires p.nread < MAX_HEADER_SIZE
    ensures LengthOk(v[..1]) && !BulkState(p.state) && !Overflows(Counted(p))
    ensures Pass(Counted(p), v[0], 1) == Go(AfterDigits(p, v[..1])).(mark := Some(Value))
  {
    hide Pass, BulkState, Counted, Overflows;
    DigitAgain(v[0]);
    LengthPasses(p, DigitValue(v[0]));
    assert v[..1] == [v[0]];
    LengthPrefix([v[0]]);
  }

  /** A Content-Length line, from behind the colon to the first byte of the next line. */
  lemma LengthLoop(data: bytes, i: nat, c: Call, v: bytes)
    requires c.p.state.HeaderValueDiscardWs? && c.marks == map[] && c.p.header.ContentLengthHeader?
    requires LengthOk(v) && Holds(data, i, v + CRLF) && c.p.nread + |v| + 3 <= MAX_HEADER_SIZE
    requires var j := i + |v| + 2; j < |data| && data[j] != ' ' && data[j] != '\t'
    ensures Loop(data, i, c) ==
            Switch(data, i + |v| + 2, Call(Ahead(AfterDigits(c.p, v), 3).(state := HeaderFieldStart), map[],
                                           c.events + [Data(Value, v)]))
  {
    hide Loop, Switch, Pass, Quietly, Quiet, Counted, Overflows, BulkState, Holds, DigitsValue, LengthFits;
    HoldsSplit(data, i, v, CRLF);
    HoldsByte(data, i, v);
    HoldsIs(data, i, v);
    FirstDigitPass(c.p, v);
    var p1, p2 := AfterDigits(c.p, v[..1]), AfterDigits(c.p, v);
    MarkByte(data, i, c, p1, Value);
    DigitsQuiet(c.p, v);
    OneMark(Value, i, i + 1);
    QuietLoop(data, i + 1, Call(p1, map[Value := i], c.events), v[1..], p2);
    ValueCloses(data, i, i + |v|, Call(p2, map[Value := i], c.events));
    assert HeaderDone(Ahead(p2, 3)) == Ahead(p2, 3);
  }

  // ----- The whole line -----

  lemma LengthPast(p: Parser, r: Parser, h: Header, n: nat)
    requires HeaderOk(h) && IsLength(h.name) && n == |h.name|
    requires r == Ahead(p, n).(state := HeaderValueDiscardWs, header := r.header, index := r.index)
    ensures Past(p, Ahead(AfterDigits(r, h.value), 3).(state := HeaderFieldStart), h)
  {
    hide DigitsValue, LengthFits, Follows;
  }

  lemma ValuePast(p: Parser, r: Parser, s: Parser, h: Header)
    requires HeaderOk(h) && !IsLength(h.name) && h.value != []
    requires r == Ahead(p, |h.name|).(state := HeaderValueDiscardWs, header := r.header, index := r.index)
    requires r.header.UpgradeHeader? <==> Lowered(h.name) == "upgrade"
    requires s == Ahead(r, |h.value| + 3).(state := HeaderValue, flags := Upgraded(r),
                                           header := s.header, index := s.index)
    requires HeaderDone(s) == s.(flags := Flagged(p.flags, h))
    ensures Past(p, HeaderDone(s).(state := HeaderFieldStart), h)
  {
    hide Flagged, HeaderDone, HeaderOk, IsLength, Lowered;
  }

  lemma EmptyPast(p: Parser, r: Parser, h: Header)
    requires HeaderOk(h) && !IsLength(h.name) && h.value == []
    requires r == Ahead(p, |h.name|).(state := HeaderValueDiscardWs, header := r.header, index := r.index)
    ensures Past(p, Ahead(r, 3).(state := HeaderFieldStart), h)
  {
    hide Lowered;
    Words();
  }

  /**
   * One header line, from its first byte to the first of the next line: one callback
   * with the name and one with the value, and flags and length as its text says.
   */
  lemma HeaderLine(data: bytes, i: nat, c: Call, h: Header) returns (q: Parser)
    requires c.p.state.HeaderFieldStart? && c.marks == map[] && HeaderOk(h)
    requires Holds(data, i, LineText(h)) && c.p.nread + |h.name| + |h.value| + 3 <= MAX_HEADER_SIZE
    requires var j := i + |h.name| + |h.value| + 3; j < |data| && data[j] != ' ' && data[j] != '\t'
    ensures Past(c.p, q, h)
    ensures Switch(data, i, c) ==
            Switch(data, i + |h.name| + |h.value| + 3,
                   Call(q, map[], c.events + [Data(Field, h.name)] + [Data(Value, h.value)]))
  {
    hide Loop, Switch, AfterName, Reads, Token, Holds, Lowered, Tells, Past, Flagged, HeaderDone, Upgraded, ValueOk,
      LengthOk, IsLength, IsConnection;
    var f, v := h.name, h.value;
    assert LineText(h) == (f + COLON) + (v + CRLF);
    HoldsSplit(data, i, f + COLON, v + CRLF);
    var r := Ahead(AfterName(c.p, f), |f|).(state := HeaderValueDiscardWs);
    var c1 := Call(r, map[], c.events + [Data(Field, f)]);
    HoldsIs(data, i, f + COLON);
    NameLoop(data, i, c, f, c1);
    NameTopic(c.p, f, |f|);
    var j := i + |f| + 1;
    if IsLength(f) {
      LengthLoop(data, j, c1, v);
      LengthPast(c.p, r, h, |f|);
      q := Ahead(AfterDigits(r, v), 3).(state := HeaderFieldStart);
    } else if v == [] {
      assert v + CRLF == CRLF;
      EmptyValueLoop(data, j, c1);
      EmptyPast(c.p, r, h);
      q := Ahead(r, 3).(state := HeaderFieldStart);
    } else {
      var s := FullValueLoop(data, j, c1, v);
      UpgradedFlags(c.p, r, s, h);
      DoneMarks(s, h, TopicOf(r.header), c.p.flags);
      ValuePast(c.p, r, s, h);
      q := HeaderDone(s).(state := HeaderFieldStart);
    }
  }

  lemma UpgradedFlags(p: Parser, r: Parser, s: Parser, h: Header)
    requires r.flags == p.flags && s.flags == Upgraded(r)
    requires r.header.UpgradeHeader? <==> Lowered(h.name) == "upgrade"
    ensures s.flags == p.flags.(upgrade := p.flags.upgrade || Lowered(h.name) == "upgrade")
  {
    hide Lowered;
  }
}
