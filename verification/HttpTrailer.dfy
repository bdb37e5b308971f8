/** The trailer of a chunked message: header lines behind the last chunk, and the blank line that ends the message. */
module HttpTrailer {
  import opened Bytes
  import opened HttpSyntax
  import opened HttpMachine
  import opened HttpExecute
  import opened HttpSplit
  import opened HttpBatch
  import opened HttpBody
  import opened HttpChunked
  import opened HttpRequestLine
  import opened HttpHeaders
  import opened HttpHead

  /** The header of a message with the lines of its trailer: both decide what may follow. */
  function WithTrailer(h: Head, trailer: seq<Header>): Head {
    Head(h.start, h.lines + trailer)
  }

  function TrailerText(trailer: seq<Header>): bytes {
    LinesText(trailer) + CRLF
  }

  /** A trailer is limited as a header is. */
  predicate TrailerOk(trailer: seq<Header>) {
    LinesOk(trailer) && |TrailerText(trailer)| <= MAX_HEADER_SIZE
  }

  lemma WithTrailerOk(h: Head, trailer: seq<Header>)
    requires HeadOk(h) && LinesOk(trailer)
    ensures HeadOk(WithTrailer(h, trailer))
    ensures trailer == [] ==> WithTrailer(h, trailer) == h
  {
    hide HeaderOk, StartOk;
    assert h.lines + [] == h.lines;
  }

  // ----- Reading it -----

  lemma EndPass(p: Parser)
    requires p.state.HeadersAlmostDone? && p.flags.trailing && p.nread < MAX_HEADER_SIZE
    ensures !BulkState(p.state) && Counted(p) == Ahead(p, 1) && !Overflows(Counted(p))
    ensures Pass(Counted(p), '\n', 1) == Complete(Ahead(p, 1))
  {
    hide NewMessage;
  }

  /** The last byte of the trailer. */
  lemma TrailerLf(data: bytes, i: nat, c: Call)
    requires i + 1 == |data| && data[i] == '\n' && c.p.state.HeadersAlmostDone? && c.marks == map[]
    requires c.p.flags.trailing && c.p.nread < MAX_HEADER_SIZE
    ensures Loop(data, i, c) ==
            Returned(Complete(Ahead(c.p, 1)).p, c.events + [Note(MessageComplete)], |data|, Ran)
  {
    hide Loop, Pass, Switch, Overflows, Counted, NewMessage, BulkState;
    EndPass(c.p);
    CountedLoop(data, i, c);
    var p := Ahead(c.p, 1);
    PlainSwitch(data, i, c.(p := p), Complete(p));
    assert c.events + [] == c.events;
    var events := c.events + [Note(MessageComplete)];
    LoopEnd(data, Call(Complete(p).p, map[], events));
    LeftoversNone(data, events);
  }

  lemma PastFlags(p: Parser, q: Parser, hs: seq<Header>)
    requires LinesOk(hs) && PastAll(p, q, hs)
    ensures q.flags == FlaggedAll(p.flags, hs) && q.flags.trailing == p.flags.trailing
    ensures q.kind == p.kind && q.line == p.line && q.nread == p.nread + |LinesText(hs)| && q.state.HeaderFieldStart?
  {
    FlagsText(p.flags, hs);
    hide FlaggedAll, LengthAll, LinesOk;
  }

  lemma CompleteIs(p: Parser)
    ensures var q := Complete(p).p;
            q == p.(state := NewMessage(p)) && NewMessage(q) == NewMessage(p)
  {
  }

  /** A trailer in one call: its callbacks, one message_complete, and the flags that its lines set. */
  lemma TrailerRuns(t: Parser, hs: seq<Header>) returns (q: Parser)
    requires t.state.HeaderFieldStart? && t.flags.trailing && t.nread == 0 && TrailerOk(hs)
    ensures q.kind == t.kind && q.line == t.line && q.flags == FlaggedAll(t.flags, hs)
    ensures q.nread == |TrailerText(hs)| && q.state == NewMessage(q)
    ensures Run(t, TrailerText(hs)) ==
            Returned(q, LineEvents(hs) + [Note(MessageComplete)], |TrailerText(hs)|, Ran)
  {
    hide Run, Loop, Switch, LinesOk, LinesText, LineEvents, PastAll, FlaggedAll, NewMessage, Counted, Overflows;
    var data, n := TrailerText(hs), |LinesText(hs)|;
    assert data[0..|data|] == data;
    StartsBare(t);
    RunIsLoop(t, data);
    CountedStart(t);
    CountedLoop(data, 0, Call(t, map[], []));
    BlankOk();
    var p1 := Ahead(t, 1);
    var p2 := LinesLoop(data, 0, Call(p1, map[], []), hs, CRLF);
    PastFlags(p1, p2, hs);
    HoldsByte(data, n, CRLF);
    HoldsByte(data, n + 1, CRLF[1..]);
    var none: seq<Event> := [];
    assert none + LineEvents(hs) == LineEvents(hs);
    BlankCr(data, n, Call(p2, map[], LineEvents(hs)));
    var p3 := p2.(state := HeadersAlmostDone);
    TrailerLf(data, n + 1, Call(p3, map[], LineEvents(hs)));
    CompleteIs(Ahead(p3, 1));
    q := Complete(Ahead(p3, 1)).p;
  }

  lemma StartsBare(t: Parser)
    requires t.state.HeaderFieldStart?
    ensures StartMarks(t.state) == map[]
  {
  }

  lemma TrailerFlat(hs: seq<Header>)
    ensures Flatten(LineEvents(hs) + [Note(MessageComplete)]) == Flatten(LineEvents(hs)) + [Noted(MessageComplete)]
  {
    hide LineEvents, Flatten;
    FlattenConcat(LineEvents(hs), [Note(MessageComplete)]);
    FlattenOne(Note(MessageComplete));
  }

  lemma TrailerFed(t: Parser, hs: seq<Header>) returns (q: Parser)
    requires t.state.HeaderFieldStart? && t.flags.trailing && t.nread == 0 && TrailerOk(hs)
    ensures q.kind == t.kind && q.line == t.line && q.flags == FlaggedAll(t.flags, hs)
    ensures q.nread == |TrailerText(hs)| && q.state == NewMessage(q)
    ensures Feed(t, TrailerText(hs)) ==
            Fed(q, Flatten(LineEvents(hs)) + [Noted(MessageComplete)], |TrailerText(hs)|, Ran)
  {
    hide Run, Feed, TrailerOk, TrailerText, LineEvents, FlaggedAll, NewMessage, Flatten;
    q := TrailerRuns(t, hs);
    BatchIsBytes(t, TrailerText(hs));
    TrailerFlat(hs);
    var items := Feed(t, TrailerText(hs)).items;
    assert [] + items == items;
  }

  // ----- What may follow -----

  lemma LinesJoin(a: seq<Header>, b: seq<Header>)
    ensures Chunked(a + b) <==> Chunked(a) || Chunked(b)
    ensures Keeps(a + b) <==> Keeps(a) || Keeps(b)
    ensures Closes(a + b) <==> Closes(a) || Closes(b)
  {
    hide Lowered, Word, IsConnection;
    assert forall h :: h in a + b <==> h in a || h in b;
  }

  /** Which message may follow is decided by the lines of header and trailer together. */
  lemma NextWhole(q: Parser, h: Head, trailer: seq<Header>)
    requires HeadOk(h) && LinesOk(trailer) && HeadOk(WithTrailer(h, trailer)) && Chunked(h.lines)
    requires q.kind == KindOf(h.start) && q.line == LineOf(h.start, q.line)
    requires var fl := Flags(Chunked(h.lines), Keeps(h.lines), Closes(h.lines), true, Upgrades(h.lines));
             q.flags == FlaggedAll(fl, trailer)
    ensures NewMessage(q) == NextState(WithTrailer(h, trailer))
  {
    var fl := Flags(Chunked(h.lines), Keeps(h.lines), Closes(h.lines), true, Upgrades(h.lines));
    FlagsText(fl, trailer);
    LinesJoin(h.lines, trailer);
    hide HeadOk, LinesOk, Chunked, Keeps, Closes, Upgrades, LastLength, FlaggedAll;
  }
}
