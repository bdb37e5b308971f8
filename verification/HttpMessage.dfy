/**
 * WithTrailer messages, one behind the other: what reaches the callbacks from printed
 * requests and responses, however they are divided into calls, and when a parser
 * takes no further message.
 */
module HttpMessage {
  import opened Bytes
  import opened HttpSyntax
  import opened HttpMachine
  import opened HttpExecute
  import opened HttpSplit
  import opened HttpBatch
  import opened HttpBody
  import opened HttpChunked
  import opened HttpRequestLine
  import opened HttpHeaders
  import opened HttpHead
  import opened HttpTrailer

  // ----- A header and what follows -----

  /** The callbacks of a header, up to its end. */
  function HeadItems(h: Head): seq<Item> {
    Flatten(StartEvents(h.start) + LineEvents(h.lines)) + [Noted(HeadersComplete)]
  }

  lemma HeadFlat(h: Head)
    requires HeadOk(h)
    ensures Flatten(HeadEvents(h)) == HeadItems(h) + if EndsThere(h) then [Noted(MessageComplete)] else []
  {
    hide Flatten, StartEvents, LineEvents, EndsThere, HeadOk;
    var start := StartEvents(h.start) + LineEvents(h.lines);
    FlattenConcat(start, EndEvents(h));
    FlattenOne(Note(HeadersComplete));
    FlattenOne(Note(MessageComplete));
    FlattenConcat([Note(HeadersComplete)], [Note(MessageComplete)]);
    var end := if EndsThere(h) then [Noted(MessageComplete)] else [];
    assert [Note(HeadersComplete)] + [] == [Note(HeadersComplete)];
    assert Flatten(EndEvents(h)) == [Noted(HeadersComplete)] + end;
    assert Flatten(start) + ([Noted(HeadersComplete)] + end) == Flatten(start) + [Noted(HeadersComplete)] + end;
  }

  /** The bytes of a header, on any parser that expects a message of its kind. */
  lemma HeadFeeds(p: Parser, h: Head) returns (q: Parser)
    requires HeadOk(h) && Ready(p, h.start) && p.nread + |HeadText(h)| <= MAX_HEADER_SIZE
    ensures Headed(p, q, h)
    ensures Feed(p, HeadText(h)) ==
            Fed(q, HeadItems(h) + (if EndsThere(h) then [Noted(MessageComplete)] else []), |HeadText(h)|,
                if Switches(h) then Left else Ran)
  {
    hide Run, Feed, HeadText, Headed, HeadItems, HeadEvents, EndsThere, Switches, HeadOk, Ready;
    q := HeadRuns(p, h);
    HeadFlat(h);
    BatchIsBytes(p, HeadText(h));
    var f := Feed(p, HeadText(h));
    assert [] + f.items == f.items;
  }

  /**
   * A request with CONNECT, or a message with an upgrade line: the call that holds
   * the end of its header ends there, whatever follows.
   */
  lemma SwitchLeaves(p: Parser, h: Head, s: bytes, chunks: seq<bytes>)
    requires HeadOk(h) && Ready(p, h.start) && p.nread + |HeadText(h)| <= MAX_HEADER_SIZE
    requires Switches(h) && Concat(chunks) == HeadText(h) + s
    ensures var f := RunAll(p, chunks);
            f.stop == Left && f.n == |HeadText(h)| && f.items == HeadItems(h) + [Noted(MessageComplete)]
  {
    hide RunAll, Feed, HeadText, Headed, HeadItems, HeadOk, Ready;
    var q := HeadFeeds(p, h);
    FeedConcat(p, HeadText(h), s);
    RunAllIsFeed(p, chunks);
  }

  // ----- Bodies -----

  lemma SameNext(p: Parser, q: Parser)
    requires q.kind == p.kind && q.line == p.line && q.flags == p.flags.(trailing := q.flags.trailing)
    requires p.flags.chunked || (p.contentLength != ULLONG_MAX && q.contentLength != ULLONG_MAX)
    ensures NewMessage(q) == NewMessage(p)
  {
  }

  /** The parser between two messages, h being the header of the first; n header bytes are counted already. */
  predicate Between(q: Parser, h: Head, n: nat)
    requires HeadOk(h)
  {
    && q.state == NextState(h) && q.kind == KindOf(h.start) && q.nread == n
    && (h.start.ResponseStart? ==> q.line.verb != CONNECT)
  }

  /** What is behind the header. */
  predicate BehindHead(q: Parser, h: Head)
    requires HeadOk(h)
  {
    && q.nread == 0 && q.kind == KindOf(h.start) && Read(q, h) && q.state == StateBehind(h)
  }

  lemma NoBodyBetween(q: Parser, h: Head)
    requires HeadOk(h) && BehindHead(q, h) && FramingOf(h).NoBody?
    ensures Between(q, h, 0)
  {
    hide HeadOk, NextState, FramingOf;
  }

  lemma SizedBetween(q: Parser, h: Head, n: nat)
    requires HeadOk(h) && BehindHead(q, h) && FramingOf(h) == Measured(n) && !Switches(h)
    ensures q.state.BodyIdentity? && 0 < n == q.contentLength < ULLONG_MAX
    ensures Between(q.(state := NewMessage(q), contentLength := 0), h, 0)
  {
    NextIsText(q, h);
    hide HeadOk, NextState, Chunked, LastLength, NewMessage, Switches;
  }

  lemma CodedBehind(q: Parser, h: Head)
    requires HeadOk(h) && BehindHead(q, h) && FramingOf(h).Coded? && !Switches(h)
    ensures AtSize(q) && q.flags.chunked
  {
    hide HeadOk, NextState, Chunked, LastLength, NewMessage, Switches;
  }

  lemma CodedBetween(q: Parser, h: Head, trailer: seq<Header>, t: Parser, r: Parser)
    requires HeadOk(h) && LinesOk(trailer) && HeadOk(WithTrailer(h, trailer))
    requires BehindHead(q, h) && q.flags.chunked && t == AtTrailer(q)
    requires r.kind == t.kind && r.line == t.line && r.flags == FlaggedAll(t.flags, trailer) && r.state == NewMessage(r)
    ensures Between(r, WithTrailer(h, trailer), r.nread)
  {
    NextWhole(r, h, trailer);
    hide HeadOk, LinesOk, NextState, NewMessage, StateBehind, FlaggedAll, Chunked, Keeps, Closes, Upgrades, LastLength;
  }

  lemma HeadedBehind(p: Parser, q: Parser, h: Head)
    requires HeadOk(h) && Headed(p, q, h) && Ready(p, h.start)
    ensures BehindHead(q, h)
  {
    hide HeadOk, Read, StateBehind, LineOf;
  }

  /** A body of known length. */
  lemma SizedFeeds(q: Parser, body: bytes)
    requires q.state.BodyIdentity? && 0 < |body| == q.contentLength < ULLONG_MAX
    ensures Feed(q, body) ==
            Fed(q.(state := NewMessage(q), contentLength := 0), Tag(Body, body) + [Noted(MessageComplete)], |body|, Ran)
  {
    hide Feed, Tag, NewMessage;
    BulkFeed(q, body);
    LengthAfter(q);
  }

  /** A whole coding, its trailer, and the blank line that ends the message. */
  lemma CodedFeeds(q: Parser, h: Head, coding: bytes, body: bytes, trailer: seq<Header>, rest: bytes)
    returns (r: Parser)
    requires HeadOk(h) && BehindHead(q, h) && FramingOf(h).Coded? && !Switches(h) && TrailerOk(trailer)
    requires Decode(coding + (TrailerText(trailer) + rest)) == Done(body, |coding|)
    ensures HeadOk(WithTrailer(h, trailer)) && Between(r, WithTrailer(h, trailer), |TrailerText(trailer)|)
    ensures Feed(q, coding + TrailerText(trailer)) ==
            Fed(r, Tag(Body, body) + (Flatten(LineEvents(trailer)) + [Noted(MessageComplete)]),
                |coding| + |TrailerText(trailer)|, Ran)
  {
    hide Feed, Tag, Decode, NewMessage, HeadOk, BehindHead, Between, FramingOf, Switches, Flatten, LineEvents,
         FlaggedAll, LinesText, LinesOk, AtTrailer;
    CodedBehind(q, h);
    WithTrailerOk(h, trailer);
    var t := AtTrailer(q);
    var s := coding + (TrailerText(trailer) + rest);
    DecodeTells(q, s);
    assert s[..|coding|] == coding;
    AtTrailerState(q);
    r := TrailerFed(t, trailer);
    FeedConcat(q, coding, TrailerText(trailer));
    CodedBetween(q, h, trailer, t, r);
  }

  lemma AtTrailerState(q: Parser)
    requires AtSize(q)
    ensures var t := AtTrailer(q);
            t.state.HeaderFieldStart? && t.flags.trailing && t.nread == 0
  {
  }

  // ----- WithTrailer messages -----

  /** A message: its header, its body in the pieces that a chunked coding makes of it, and the trailer of that. */
  datatype Message = Message(h: Head, pieces: seq<bytes>, trailer: seq<Header>)

  /** The body is what the header announces, and its end can be found. */
  predicate MessageOk(m: Message) {
    && HeadOk(m.h) && !Switches(m.h)
    && match FramingOf(m.h)
       case NoBody => m.pieces == [] && m.trailer == []
       case Measured(n) => |Concat(m.pieces)| == n && m.trailer == []
       case Coded => (forall i :: 0 <= i < |m.pieces| ==> PieceOk(m.pieces[i])) && TrailerOk(m.trailer)
       case ToEof => false
  }

  /** All header lines of a message. */
  function Lines(m: Message): Head {
    WithTrailer(m.h, m.trailer)
  }

  lemma LinesFine(m: Message)
    requires MessageOk(m)
    ensures HeadOk(m.h) && HeadOk(Lines(m)) && (!FramingOf(m.h).Coded? ==> Lines(m) == m.h)
  {
    hide HeadOk, FramingOf, Switches, HeaderOk;
    WithTrailerOk(m.h, if FramingOf(m.h).Coded? then m.trailer else []);
  }

  function BodyText(m: Message): bytes
    requires MessageOk(m)
  {
    if FramingOf(m.h).Coded? then Coding(m.pieces) + TrailerText(m.trailer) else Concat(m.pieces)
  }

  function MessageText(m: Message): bytes
    requires MessageOk(m)
  {
    HeadText(m.h) + BodyText(m)
  }

  /** Header, exactly the body, the lines of the trailer, and one message_complete. */
  function MessageItems(m: Message): seq<Item> {
    HeadItems(m.h) + BodyItems(m)
  }

  function BodyItems(m: Message): seq<Item> {
    Tag(Body, Concat(m.pieces)) + (Flatten(LineEvents(m.trailer)) + [Noted(MessageComplete)])
  }

  /** Header bytes counted when the message is over: those of its trailer. */
  function CountLeft(m: Message): nat
    requires MessageOk(m)
  {
    if FramingOf(m.h).Coded? then |TrailerText(m.trailer)| else 0
  }

  lemma NoTrailer(items: seq<Item>)
    ensures items + (Flatten(LineEvents([])) + [Noted(MessageComplete)]) == items + [Noted(MessageComplete)]
  {
    FlattenNone();
  }

  lemma BodyFeeds(q: Parser, m: Message) returns (r: Parser)
    requires MessageOk(m) && BehindHead(q, m.h) && !EndsThere(m.h)
    ensures HeadOk(Lines(m)) && Between(r, Lines(m), CountLeft(m))
    ensures Feed(q, BodyText(m)) == Fed(r, BodyItems(m), |BodyText(m)|, Ran)
  {
    hide Feed, Tag, HeadOk, BehindHead, Between, Switches, Concat, Coding, PieceOk, NewMessage, AtTrailer, Read,
         Flatten, LineEvents, TrailerOk, TrailerText;
    var body := Concat(m.pieces);
    LinesFine(m);
    if FramingOf(m.h).Measured? {
      SizedBetween(q, m.h, |body|);
      SizedFeeds(q, body);
      r := q.(state := NewMessage(q), contentLength := 0);
      NoTrailer(Tag(Body, body));
    } else {
      CodingDecodes(m.pieces, TrailerText(m.trailer) + []);
      r := CodedFeeds(q, m.h, Coding(m.pieces), body, m.trailer, []);
    }
  }

  lemma PartsOk(m: Message)
    requires MessageOk(m)
    ensures HeadOk(m.h) && HeadOk(Lines(m)) && !Switches(m.h)
    ensures EndsThere(m.h) <==> FramingOf(m.h).NoBody?
    ensures FramingOf(m.h).NoBody? ==> BodyText(m) == [] && CountLeft(m) == 0 && Lines(m) == m.h
    ensures FramingOf(m.h).NoBody? ==> BodyItems(m) == [Noted(MessageComplete)]
  {
    LinesFine(m);
    hide HeadOk, Switches, FramingOf, Flatten, LineEvents;
    TagNone(Body);
    NoTrailer([]);
    var none: seq<Item> := [];
    assert none + [Noted(MessageComplete)] == [Noted(MessageComplete)];
    assert none + (Flatten(LineEvents([])) + [Noted(MessageComplete)]) ==
           Flatten(LineEvents([])) + [Noted(MessageComplete)];
  }

  /** A whole message, on any parser that expects one of its kind. */
  lemma MessageFeeds(p: Parser, m: Message) returns (q: Parser)
    requires MessageOk(m) && Ready(p, m.h.start) && p.nread + |HeadText(m.h)| <= MAX_HEADER_SIZE
    ensures HeadOk(Lines(m)) && Between(q, Lines(m), CountLeft(m))
    ensures Feed(p, MessageText(m)) == Fed(q, MessageItems(m), |MessageText(m)|, Ran)
  {
    hide Feed, HeadOk, HeadText, HeadItems, BodyItems, Ready, Headed, BehindHead, Between, MessageOk, Switches,
         EndsThere, BodyText, FramingOf, CountLeft, Lines;
    PartsOk(m);
    var r := HeadFeeds(p, m.h);
    HeadedBehind(p, r, m.h);
    FeedConcat(p, HeadText(m.h), BodyText(m));
    if EndsThere(m.h) {
      q := r;
      NoBodyBetween(q, m.h);
      FeedNone(r);
      assert HeadItems(m.h) + [Noted(MessageComplete)] + [] == HeadItems(m.h) + [Noted(MessageComplete)];
    } else {
      q := BodyFeeds(r, m);
      assert HeadItems(m.h) + [] == HeadItems(m.h);
    }
  }

  /**
   * What is expected behind a whole request is decided by its version and its
   * Connection lines: from version 1.1 on another request, unless one says close; in
   * version 1.0 none, unless one says keep-alive.
   */
  lemma ConnectionDecides(p: Parser, m: Message)
    requires MessageOk(m) && m.h.start.RequestStart?
    requires Ready(p, m.h.start) && p.nread + |HeadText(m.h)| <= MAX_HEADER_SIZE
    ensures var f, s, lines := Feed(p, MessageText(m)), m.h.start, m.h.lines + m.trailer;
            && f.stop == Ran
            && (f.p.state.StartReq? || f.p.state.Dead?)
            && (s.major >= 1 && s.minor >= 1 ==>
                  (f.p.state.Dead? <==> exists h <- lines :: IsConnection(h.name) && Word(h.value, "close")))
            && (s.minor == 0 ==>
                  (f.p.state.StartReq? <==> exists h <- lines :: IsConnection(h.name) && Word(h.value, "keep-alive")))
  {
    hide Feed, HeadText, MessageText, MessageItems, IsConnection, Word, Ready, HeadOk, Switches;
    var q := MessageFeeds(p, m);
  }

  // ----- Streams of messages -----

  /** Messages of one kind; all but the last keep the connection open; n header bytes are counted already. */
  predicate StreamOk(ms: seq<Message>, kind: Kind, n: nat) {
    ms == [] ||
    (&& MessageOk(ms[0]) && KindOf(ms[0].h.start) == kind && n + |HeadText(ms[0].h)| <= MAX_HEADER_SIZE
     && (|ms| > 1 ==> HeadOk(Lines(ms[0])) && KeepsOpen(Lines(ms[0]))) && StreamOk(ms[1..], kind, CountLeft(ms[0])))
  }

  function StreamText(ms: seq<Message>): bytes
    requires forall m <- ms :: MessageOk(m)
  {
    if ms == [] then [] else MessageText(ms[0]) + StreamText(ms[1..])
  }

  function StreamItems(ms: seq<Message>): seq<Item> {
    if ms == [] then [] else MessageItems(ms[0]) + StreamItems(ms[1..])
  }

  lemma {:induction false} AllOk(ms: seq<Message>, kind: Kind, n: nat)
    requires StreamOk(ms, kind, n)
    ensures forall m <- ms :: MessageOk(m)
    decreases |ms|
  {
    hide MessageOk, HeadText;
    if ms != [] {
      AllOk(ms[1..], kind, CountLeft(ms[0]));
      assert forall m :: m in ms <==> m == ms[0] || m in ms[1..];
    }
  }

  /** A parser of that kind, between two messages. */
  predicate Idle(p: Parser, kind: Kind, n: nat) {
    && p.kind == kind && p.nread == n
    && (kind == Request || (kind == Response && p.line.verb != CONNECT))
    && if kind == Request then p.state.StartReq? else p.state.StartRes?
  }

  lemma IdleReady(p: Parser, kind: Kind, n: nat, s: Start)
    requires Idle(p, kind, n) && KindOf(s) == kind
    ensures Ready(p, s)
  {
  }

  lemma OpenIdle(q: Parser, h: Head, n: nat)
    requires HeadOk(h) && Between(q, h, n)
    ensures q.nread == n && if KeepsOpen(h) then Idle(q, KindOf(h.start), n) else q.state.Dead?
  {
    hide HeadOk, KeepsOpen;
  }

  /** The first message of a stream, and the others. */
  lemma StreamParts(ms: seq<Message>, kind: Kind, n: nat)
    requires StreamOk(ms, kind, n) && ms != []
    ensures MessageOk(ms[0]) && HeadOk(Lines(ms[0])) && KindOf(ms[0].h.start) == kind
    ensures n + |HeadText(ms[0].h)| <= MAX_HEADER_SIZE && (|ms| > 1 ==> HeadOk(Lines(ms[0])) && KeepsOpen(Lines(ms[0])))
    ensures StreamOk(ms[1..], kind, CountLeft(ms[0]))
  {
    LinesFine(ms[0]);
    hide HeadOk, KeepsOpen, FramingOf, Switches, HeadText;
  }

  /** What the parser is ready for behind the stream. */
  predicate Behind(q: Parser, ms: seq<Message>, kind: Kind)
    requires forall m <- ms :: MessageOk(m)
  {
    if ms == [] then Idle(q, kind, q.nread)
    else
      && (forall m <- ms :: HeadOk(Lines(m)))
      && var last := ms[|ms| - 1];
         q.nread == CountLeft(last) && if KeepsOpen(Lines(last)) then Idle(q, kind, q.nread) else q.state.Dead?
  }

  lemma BehindOne(q: Parser, m: Message, kind: Kind)
    requires MessageOk(m) && HeadOk(Lines(m)) && Between(q, Lines(m), CountLeft(m)) && kind == KindOf(m.h.start)
    ensures Behind(q, [m], kind)
  {
    hide HeadOk, KeepsOpen, FramingOf, Switches, Between, Idle, MessageOk, CountLeft;
    OpenIdle(q, Lines(m), CountLeft(m));
  }

  lemma BehindMore(q: Parser, ms: seq<Message>, kind: Kind)
    requires |ms| > 1 && (forall m <- ms :: MessageOk(m)) && HeadOk(Lines(ms[0])) && Behind(q, ms[1..], kind)
    ensures Behind(q, ms, kind)
  {
    hide HeadOk, KeepsOpen, Idle, MessageOk, CountLeft;
    assert ms[|ms| - 1] == ms[1..][|ms| - 2];
    assert forall m :: m in ms <==> m == ms[0] || m in ms[1..];
  }

  lemma {:induction false} StreamFeeds(p: Parser, ms: seq<Message>, kind: Kind, n: nat) returns (q: Parser)
    requires StreamOk(ms, kind, n) && Idle(p, kind, n)
    ensures (forall m <- ms :: MessageOk(m)) && Behind(q, ms, kind)
    ensures Feed(p, StreamText(ms)) == Fed(q, StreamItems(ms), |StreamText(ms)|, Ran)
    decreases |ms|
  {
    hide Feed, MessageOk, MessageText, MessageItems, HeadText, HeadOk, Idle, Ready, Between, Behind, CountLeft,
         KeepsOpen;
    AllOk(ms, kind, n);
    if ms == [] {
      q := p;
      FeedNone(p);
      EmptyBehind(p, ms, kind, n);
    } else {
      var m := ms[0];
      StreamParts(ms, kind, n);
      IdleReady(p, kind, n, m.h.start);
      IdleCount(p, kind, n);
      var r := MessageFeeds(p, m);
      FeedConcat(p, MessageText(m), StreamText(ms[1..]));
      if |ms| == 1 {
        q := r;
        BehindOne(q, m, kind);
        FeedNone(q);
        assert ms == [m] && ms[1..] == [];
        assert MessageItems(m) + [] == MessageItems(m) && MessageText(m) + [] == MessageText(m);
      } else {
        OpenIdle(r, Lines(m), CountLeft(m));
        q := StreamFeeds(r, ms[1..], kind, CountLeft(m));
        BehindMore(q, ms, kind);
      }
    }
  }

  lemma EmptyBehind(p: Parser, ms: seq<Message>, kind: Kind, n: nat)
    requires ms == [] && Idle(p, kind, n)
    ensures Behind(p, ms, kind) && StreamText(ms) == [] && StreamItems(ms) == []
  {
  }

  lemma IdleCount(p: Parser, kind: Kind, n: nat)
    requires Idle(p, kind, n)
    ensures p.nread == n
  {
  }

  /**
   * Any number of printed messages of one kind, one behind the other, of which all
   * but the last leave the connection open, and then any rest: however they are
   * divided into calls, the callbacks are those of each message in turn, followed by
   * what a parser behind them makes of the rest.
   */
  lemma StreamHeard(p: Parser, ms: seq<Message>, kind: Kind, rest: bytes, chunks: seq<bytes>) returns (q: Parser)
    requires (forall m <- ms :: MessageOk(m)) && StreamOk(ms, kind, p.nread) && Idle(p, kind, p.nread)
    requires Concat(chunks) == StreamText(ms) + rest
    ensures Behind(q, ms, kind)
    ensures var f, g := RunAll(p, chunks), RunAll(q, [rest]);
            && f.p == g.p && f.stop == g.stop && f.n == |StreamText(ms)| + g.n
            && (!f.stop.Failed? || Loose(f.p.state) ==> f.items == StreamItems(ms) + g.items)
  {
    hide Feed, RunAll, StreamOk, MessageOk, StreamText, StreamItems, Idle, Behind, Loose;
    q := StreamFeeds(p, ms, kind, p.nread);
    FeedConcat(p, StreamText(ms), rest);
    RunAllIsFeed(p, chunks);
    RunAllIsFeed(q, [rest]);
    ConcatOne(rest);
  }

  // ----- The end of a connection -----

  lemma DeadPass(q: Parser, b: byte)
    requires q.state.Dead? && b != '\r' && b != '\n' && q.nread < MAX_HEADER_SIZE
    ensures !BulkState(q.state) && !Overflows(Counted(q)) && Loose(q.state)
    ensures Pass(Counted(q), b, 1) == Error(Ahead(q, 1), ClosedConnection)
  {
  }

  /** Behind a message that closes the connection, any byte but a line end is an error. */
  lemma DeadRefuses(q: Parser, rest: bytes)
    requires q.state.Dead? && q.nread < MAX_HEADER_SIZE && rest != [] && rest[0] != '\r' && rest[0] != '\n'
    ensures RunAll(q, [rest]) == Fed(Ahead(q, 1), [], 0, Failed(ClosedConnection)) && Loose(Ahead(q, 1).state)
  {
    hide Feed, RunAll, Pass, BulkState, Counted, Overflows, Loose;
    DeadPass(q, rest[0]);
    FeedFail(q, rest);
    RunAllIsFeed(q, [rest]);
    ConcatOne(rest);
    AheadState(q);
  }

  lemma AheadState(q: Parser)
    requires q.state.Dead?
    ensures Ahead(q, 1).state.Dead? && Loose(Ahead(q, 1).state)
  {
  }

  /**
   * Messages of which the last closes the connection, and anything but a line end
   * behind it: the callbacks of the messages, and then the error.
   */
  lemma ClosedStream(p: Parser, ms: seq<Message>, kind: Kind, rest: bytes, chunks: seq<bytes>)
    requires (forall m <- ms :: MessageOk(m)) && StreamOk(ms, kind, p.nread) && Idle(p, kind, p.nread)
    requires ms != [] && HeadOk(Lines(ms[|ms| - 1]))
    requires !KeepsOpen(Lines(ms[|ms| - 1])) && CountLeft(ms[|ms| - 1]) < MAX_HEADER_SIZE
    requires rest != [] && rest[0] != '\r' && rest[0] != '\n'
    requires Concat(chunks) == StreamText(ms) + rest
    ensures var f := RunAll(p, chunks);
            f.stop == Failed(ClosedConnection) && f.n == |StreamText(ms)| && f.items == StreamItems(ms)
  {
    hide RunAll, Feed, StreamOk, MessageOk, StreamText, StreamItems, Idle, Loose, HeadOk, KeepsOpen;
    var q := StreamFeeds(p, ms, kind, p.nread);
    DeadRefuses(q, rest);
    RunAllIsFeed(p, chunks);
    FeedConcat(p, StreamText(ms), rest);
    RunAllIsFeed(q, [rest]);
    ConcatOne(rest);
    assert StreamItems(ms) + [] == StreamItems(ms);
  }

  /** The stream may end behind whole messages; within a header, a length or a chunk, its end is an error. */
  lemma StreamEnds(q: Parser, ms: seq<Message>, kind: Kind, inside: Parser)
    requires (forall m <- ms :: MessageOk(m)) && Behind(q, ms, kind)
    requires inside.state.HeaderField? || inside.state.HeaderValue? || inside.state.HeaderFieldStart?
             || inside.state.BodyIdentity? || inside.state.ChunkSizeStart? || inside.state.ChunkData?
    ensures ExecuteSpec(q, []) == Returned(q, [], 0, Ran)
    ensures ExecuteSpec(inside, []) == Returned(inside, [], 1, Failed(InvalidEofState))
  {
    hide HeadOk, KeepsOpen, MessageOk, CountLeft;
  }

  // ----- Other bodies -----

  /** f is start, then what s decodes to, and for a whole coding what a parser at the trailer makes of the rest. */
  predicate BodyHeard(f: Fed, start: seq<Item>, s: bytes, trailer: Parser) {
    match Decode(s)
    case More(body) => f.stop == Ran && f.items == start + Tag(Body, body)
    case Broken(body) => f.stop.Failed? && f.items <= start + Tag(Body, body)
    case Done(body, n) => n <= |s| && WholeBody(f, start + Tag(Body, body), RunAll(trailer, [s[n..]]))
  }

  predicate WholeBody(f: Fed, items: seq<Item>, rest: Fed) {
    && f.p == rest.p && f.stop == rest.stop
    && (!f.stop.Failed? || Loose(f.p.state) ==> f.items == items + rest.items)
  }

  /** A header with a body, and what follows: s is for the parser behind the header. */
  lemma BodyFed(p: Parser, h: Head, s: bytes, chunks: seq<bytes>) returns (q: Parser)
    requires HeadOk(h) && Ready(p, h.start) && p.nread + |HeadText(h)| <= MAX_HEADER_SIZE
    requires !EndsThere(h) && Concat(chunks) == HeadText(h) + s
    ensures BehindHead(q, h)
    ensures var f, g := RunAll(p, chunks), Feed(q, s);
            && f.p == g.p && f.stop == g.stop && f.n == |HeadText(h)| + g.n
            && f.items <= HeadItems(h) + g.items
            && (!f.stop.Failed? || Loose(f.p.state) ==> f.items == HeadItems(h) + g.items)
  {
    hide Feed, RunAll, HeadOk, HeadText, HeadItems, Ready, Headed, BehindHead, EndsThere, FramingOf, Switches, Loose;
    q := HeadFeeds(p, h);
    EndsIfSwitches(h);
    HeadedBehind(p, q, h);
    FeedConcat(p, HeadText(h), s);
    RunAllIsFeed(p, chunks);
    assert HeadItems(h) + [] == HeadItems(h);
  }

  lemma EndsIfSwitches(h: Head)
    requires HeadOk(h) && !EndsThere(h)
    ensures !Switches(h) && !FramingOf(h).NoBody?
  {
    hide HeadOk, Switches, FramingOf;
  }

  /**
   * A chunked message, on any parser that expects one: however its header and
   * whatever bytes s follow are divided into calls, the callbacks of the header are
   * followed by the decoded body, and the parser accepts, waits or fails as the
   * decoder does.
   */
  lemma ChunkedMessage(p: Parser, h: Head, s: bytes, chunks: seq<bytes>) returns (q: Parser)
    requires HeadOk(h) && Ready(p, h.start) && p.nread + |HeadText(h)| <= MAX_HEADER_SIZE
    requires FramingOf(h).Coded? && !Switches(h) && Concat(chunks) == HeadText(h) + s
    ensures AtSize(q) && BehindHead(q, h)
    ensures BodyHeard(RunAll(p, chunks), HeadItems(h), s, AtTrailer(q))
  {
    hide Feed, RunAll, HeadOk, HeadText, HeadItems, Ready, BehindHead, FramingOf, Switches, Decode, Tag, AtTrailer,
         Loose, AtSize;
    CodedOpen(h);
    q := BodyFed(p, h, s, chunks);
    CodedBehind(q, h);
    DecodeTells(q, s);
    if Decode(s).Done? {
      var n := Decode(s).n;
      assert s == s[..n] + s[n..];
      FeedConcat(q, s[..n], s[n..]);
      RunAllIsFeed(AtTrailer(q), [s[n..]]);
      ConcatOne(s[n..]);
      var body := Tag(Body, Decode(s).body);
      assert HeadItems(h) + (body + Feed(AtTrailer(q), s[n..]).items) ==
             HeadItems(h) + body + Feed(AtTrailer(q), s[n..]).items;
    }
  }

  lemma CodedOpen(h: Head)
    requires HeadOk(h) && FramingOf(h).Coded? && !Switches(h)
    ensures !EndsThere(h)
  {
    hide HeadOk, Switches, FramingOf;
  }

  /**
   * The same for a whole coding, with extensions or without, and its trailer: header,
   * exactly the decoded body, the lines of the trailer, one message_complete, and then
   * what a parser between two messages makes of the rest.
   */
  lemma ChunkedWhole(p: Parser, h: Head, coding: bytes, body: bytes, trailer: seq<Header>, rest: bytes,
                     chunks: seq<bytes>)
    returns (q: Parser)
    requires HeadOk(h) && Ready(p, h.start) && p.nread + |HeadText(h)| <= MAX_HEADER_SIZE && TrailerOk(trailer)
    requires FramingOf(h).Coded? && !Switches(h)
    requires Concat(chunks) == HeadText(h) + (coding + TrailerText(trailer) + rest)
    requires Decode(coding + (TrailerText(trailer) + rest)) == Done(body, |coding|)
    ensures HeadOk(WithTrailer(h, trailer)) && Between(q, WithTrailer(h, trailer), |TrailerText(trailer)|)
    ensures var f, g := RunAll(p, chunks), RunAll(q, [rest]);
            && f.p == g.p && f.stop == g.stop
            && (!f.stop.Failed? || Loose(f.p.state) ==>
                  f.items == HeadItems(h) + Tag(Body, body) + (Flatten(LineEvents(trailer)) + [Noted(MessageComplete)])
                             + g.items)
  {
    hide Feed, RunAll, HeadOk, HeadText, HeadItems, Ready, BehindHead, Between, FramingOf, Switches, Decode, Tag,
         Flatten, LineEvents, Loose, AtSize, TrailerOk, TrailerText, WithTrailer;
    CodedOpen(h);
    var r := BodyFed(p, h, coding + TrailerText(trailer) + rest, chunks);
    q := CodedFeeds(r, h, coding, body, trailer, rest);
    FeedConcat(r, coding + TrailerText(trailer), rest);
    RunAllIsFeed(q, [rest]);
    ConcatOne(rest);
    WholeJoin(HeadItems(h), Tag(Body, body), Flatten(LineEvents(trailer)) + [Noted(MessageComplete)],
              Feed(q, rest).items);
  }

  lemma WholeJoin(a: seq<Item>, b: seq<Item>, c: seq<Item>, d: seq<Item>)
    ensures a + (b + c + d) == a + b + c + d
  {
  }

  lemma EofTakes(q: Parser, body: bytes)
    requires q.state.BodyIdentityEof? && body != []
    ensures Takes(q, |body|) && BulkAfter(q, |body|) == q && BulkNotes(q, |body|) == []
  {
  }

  /**
   * A response without a length, whose body goes on to the end of the stream: every
   * byte behind the header is body, and the end of the stream completes the message.
   */
  lemma UntilEof(p: Parser, h: Head, body: bytes, chunks: seq<bytes>)
    requires HeadOk(h) && Ready(p, h.start) && p.nread + |HeadText(h)| <= MAX_HEADER_SIZE
    requires FramingOf(h).ToEof? && !Switches(h) && Concat(chunks) == HeadText(h) + body
    ensures var f := RunAll(p, chunks);
            && f.stop == Ran && f.n == |HeadText(h)| + |body| && f.items == HeadItems(h) + Tag(Body, body)
            && ExecuteSpec(f.p, []) == Returned(f.p, [Note(MessageComplete)], 0, Ran)
  {
    hide Feed, RunAll, HeadOk, HeadText, HeadItems, Ready, Read, FramingOf, Switches, Tag, Loose;
    EofOpen(h);
    var q := BodyFed(p, h, body, chunks);
    if body == [] {
      FeedNone(q);
      TagNone(Body);
    } else {
      EofTakes(q, body);
      BulkFeed(q, body);
      assert Tag(Body, body) + [] == Tag(Body, body);
    }
  }

  lemma EofOpen(h: Head)
    requires HeadOk(h) && FramingOf(h).ToEof? && !Switches(h)
    ensures !EndsThere(h) && StateBehind(h).BodyIdentityEof?
  {
    hide HeadOk, Switches, FramingOf;
  }
}
