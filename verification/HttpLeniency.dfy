/**
 * What the parser forgives: bare line feeds, empty lines between messages, folded
 * header values, first lines that are cut short; and how a parser for both kinds of
 * message settles on one.
 */
module HttpLeniency {
  import opened Bytes
  import opened HttpSyntax
  import opened HttpMachine
  import opened HttpExecute
  import opened HttpSplit
  import opened HttpBatch
  import opened HttpBody
  import opened HttpRequestLine

  // ----- Single bytes -----

  lemma ByteFed(p: Parser, b: byte, a: Arm)
    requires !BulkState(p.state) && !Overflows(Counted(p)) && a == Pass(Counted(p), b, 1) && a.control.Break?
    ensures Feed(p, [b]) == Fed(a.p, StepItems(a, PartOf(p.state), b), 1, Ran)
  {
    hide Feed, Pass, BulkState, Counted, Overflows, PartOf, StepItems;
    assert [b][1..] == [];
    FeedStep(p, [b]);
    FeedNone(a.p);
    var items := StepItems(a, PartOf(p.state), b);
    assert items + [] == items;
  }

  /** A byte that makes no callback. */
  lemma SilentFed(p: Parser, b: byte, q: Parser)
    requires !BulkState(p.state) && !Overflows(Counted(p)) && PartOf(p.state).None? && Pass(Counted(p), b, 1) == Go(q)
    ensures Feed(p, [b]) == Fed(q, [], 1, Ran)
  {
    hide Feed, Pass, BulkState, Counted, Overflows, PartOf;
    QuietStep(p, b, Go(q));
  }

  lemma OneFed(p: Parser, b: byte)
    ensures var r := Run(p, [b]);
            Feed(p, [b]) == Fed(r.p, Flatten(r.events), if r.stop == Ran then 1 else r.n, r.stop)
  {
    hide Run, Flatten;
    assert [b][1..] == [];
    if Run(p, [b]).stop == Ran {
      FeedOn(p, [b]);
      FeedNone(Run(p, [b]).p);
      assert Flatten(Run(p, [b]).events) + [] == Flatten(Run(p, [b]).events);
    } else {
      FeedOver(p, [b]);
    }
  }

  /** Two parsers that a byte takes the same way. */
  lemma SameByte(p: Parser, q: Parser, b: byte)
    requires !BulkState(p.state) && !BulkState(q.state) && PartOf(p.state).None? && PartOf(q.state).None?
    requires !Overflows(Counted(p)) && !Overflows(Counted(q))
    requires Pass(Counted(p), b, 1) == Retry(Counted(q), Counted(q).state)
    ensures Feed(p, [b]) == Feed(q, [b])
  {
    hide Loop, Switch, Pass, BulkState, Counted, Overflows, PartOf;
    NoMarks(p.state);
    NoMarks(q.state);
    RunIsLoop(p, [b]);
    RunIsLoop(q, [b]);
    var c, d := Call(p, map[], []), Call(q, map[], []);
    CountedLoop([b], 0, c);
    CountedLoop([b], 0, d);
    CountedState(p);
    PlainSwitch([b], 0, c.(p := Counted(p)), Retry(Counted(q), Counted(q).state));
    assert AfterArm([b], 0, 0, c.(p := Counted(p)), Retry(Counted(q), Counted(q).state)) == d.(p := Counted(q));
    OneFed(p, b);
    OneFed(q, b);
  }

  lemma NoMarks(s: State)
    requires PartOf(s).None?
    ensures StartMarks(s) == map[]
  {
  }

  // ----- Bare line feeds -----

  /** States of a line that may end here: all but the value of a header. */
  predicate LineMayEnd(s: State) {
    || UrlDone(s) || s.ReqHttpMinor? || s.ResStatusCode? || s.ResStatusStart? || s.ResStatus?
    || s.HeaderValueDiscardWs?
  }

  /** CR leads to a state from which LF leads to where a bare LF does; each hands over the marked data. */
  predicate EndsAlike(p: Parser) {
    var a, b := Pass(Counted(p), '\r', 1), Pass(Counted(Ahead(p, 1)), '\n', 1);
    && !BulkState(p.state) && !Overflows(Counted(p)) && !Overflows(Counted(Ahead(p, 1)))
    && a.control.Break? && b.control.Break? && a.mark == b.mark == None && a.notice == b.notice == None
    && a.flush == b.flush == PartOf(p.state)
    && (a.p.state.ReqLineAlmostDone? || a.p.state.ResLineAlmostDone? || a.p.state.HeaderValueDiscardWsAlmostDone?)
    && a.p.nread + 1 == b.p.nread && a.p.nread == p.nread + 1
    && Pass(Counted(a.p), '\n', 1) == Go(b.p)
  }

  /** A line that is over but for its LF. */
  lemma AlmostPass(p: Parser)
    requires p.nread < MAX_HEADER_SIZE
    ensures p.state.ReqLineAlmostDone? ==> Pass(Counted(p), '\n', 1) == Go(Ahead(p, 1).(state := HeaderFieldStart))
    ensures p.state.HeaderValueDiscardWsAlmostDone? ==>
              Pass(Counted(p), '\n', 1) == Go(Ahead(p, 1).(state := HeaderValueDiscardLws))
  {
  }

  lemma UrlEndPass(p: Parser, b: byte)
    requires UrlDone(p.state) && p.nread < MAX_HEADER_SIZE && (b == '\r' || b == '\n')
    ensures !BulkState(p.state) && !Overflows(Counted(p))
    ensures Pass(Counted(p), b, 1) ==
            Go(Ahead(p, 1).(state := if b == '\r' then ReqLineAlmostDone else HeaderFieldStart,
                            line := p.line.(major := 0, minor := 9))).(flush := PartOf(p.state))
  {
    hide ParseUrlChar, UrlStep;
  }

  lemma UrlEndsAlike(p: Parser)
    requires UrlDone(p.state) && p.nread + 2 <= MAX_HEADER_SIZE
    ensures EndsAlike(p)
  {
    hide Pass, BulkState, Counted, Overflows, UrlDone, PartOf;
    UrlEndPass(p, '\r');
    UrlEndPass(Ahead(p, 1), '\n');
    AlmostPass(Pass(Counted(p), '\r', 1).p);
  }

  lemma ResponseEndsAlike(p: Parser)
    requires p.state.ResStatusCode? || p.state.ResStatusStart? || p.state.ResStatus?
    requires p.nread + 2 <= MAX_HEADER_SIZE
    ensures EndsAlike(p)
  {
    hide MoreDigit, FirstDigit, Shifted;
  }

  lemma OtherEndPass(p: Parser, b: byte)
    requires p.nread < MAX_HEADER_SIZE && (b == '\r' || b == '\n')
    ensures p.state.ReqHttpMinor? ==>
              && !BulkState(p.state) && !Overflows(Counted(p)) && PartOf(p.state) == None
              && Pass(Counted(p), b, 1) ==
                 Go(Ahead(p, 1).(state := if b == '\r' then ReqLineAlmostDone else HeaderFieldStart))
    ensures p.state.HeaderValueDiscardWs? ==>
              && !BulkState(p.state) && !Overflows(Counted(p)) && PartOf(p.state) == None
              && Pass(Counted(p), b, 1) ==
                 Go(Ahead(p, 1).(state := if b == '\r' then HeaderValueDiscardWsAlmostDone else HeaderValueDiscardLws))
  {
    hide MoreDigit, FirstDigit, Shifted, ArmValueStart;
  }

  lemma OtherEndsAlike(p: Parser)
    requires p.state.ReqHttpMinor? || p.state.HeaderValueDiscardWs?
    requires p.nread + 2 <= MAX_HEADER_SIZE
    ensures EndsAlike(p)
  {
    hide Pass, BulkState, Counted, Overflows, PartOf;
    OtherEndPass(p, '\r');
    OtherEndPass(Ahead(p, 1), '\n');
    AlmostPass(Pass(Counted(p), '\r', 1).p);
  }

  lemma LineEndPasses(p: Parser)
    requires LineMayEnd(p.state) && p.nread + 2 <= MAX_HEADER_SIZE
    ensures EndsAlike(p)
  {
    hide EndsAlike, UrlDone;
    if UrlDone(p.state) {
      UrlEndsAlike(p);
    } else if p.state.ReqHttpMinor? || p.state.HeaderValueDiscardWs? {
      OtherEndsAlike(p);
    } else {
      ResponseEndsAlike(p);
    }
  }

  lemma EndStates(s: State)
    requires s.ReqLineAlmostDone? || s.ResLineAlmostDone? || s.HeaderValueDiscardWsAlmostDone?
    ensures !BulkState(s) && PartOf(s).None?
  {
  }

  lemma NotCounted(p: Parser)
    requires p.nread < MAX_HEADER_SIZE
    ensures !Overflows(Counted(p))
  {
  }

  lemma FlushedItems(a: Arm, h: Option<Part>, b: byte)
    requires a.mark == None && a.notice == None && a.flush == h
    ensures StepItems(a, h, b) == []
  {
  }

  /** A bare LF ends a line as CR LF does, one byte counted less. */
  lemma LfEndsLine(p: Parser)
    requires LineMayEnd(p.state) && p.nread + 2 <= MAX_HEADER_SIZE
    ensures var a, b := Feed(p, CRLF), Feed(Ahead(p, 1), ['\n']);
            a.p == b.p && a.items == b.items == [] && a.stop == b.stop == Ran
  {
    hide Feed, Pass, BulkState, Counted, Overflows, PartOf, StepItems, UrlDone, LineMayEnd;
    LineEndPasses(p);
    var a, b := Pass(Counted(p), '\r', 1), Pass(Counted(Ahead(p, 1)), '\n', 1);
    ByteFed(p, '\r', a);
    FlushedItems(a, PartOf(p.state), '\r');
    ByteFed(Ahead(p, 1), '\n', b);
    FlushedItems(b, PartOf(p.state), '\n');
    EndStates(a.p.state);
    NotCounted(a.p);
    SilentFed(a.p, '\n', b.p);
    assert ['\r'] + ['\n'] == CRLF;
    FeedConcat(p, ['\r'], ['\n']);
  }

  lemma BlankPasses(p: Parser)
    requires p.state.HeaderFieldStart? && p.nread + 2 <= MAX_HEADER_SIZE
    ensures var q := Ahead(p, 1).(state := HeadersAlmostDone);
            && !BulkState(p.state) && !BulkState(q.state) && PartOf(p.state).None? && PartOf(q.state).None?
            && !Overflows(Counted(p)) && !Overflows(Counted(q)) && !Overflows(Counted(Ahead(p, 1)))
            && Pass(Counted(p), '\r', 1) == Go(q)
            && Pass(Counted(Ahead(p, 1)), '\n', 1) == Retry(Counted(q), Counted(q).state)
  {
    hide NewMessage;
  }

  /** The blank line behind a header, likewise. */
  lemma LfEndsHeader(p: Parser)
    requires p.state.HeaderFieldStart? && p.nread + 2 <= MAX_HEADER_SIZE
    ensures var a, b := Feed(p, CRLF), Feed(Ahead(p, 1), ['\n']);
            a.p == b.p && a.items == b.items && a.stop == b.stop
  {
    hide Feed, Pass, BulkState, Counted, Overflows, PartOf;
    BlankPasses(p);
    var q := Ahead(p, 1).(state := HeadersAlmostDone);
    SilentFed(p, '\r', q);
    SameByte(Ahead(p, 1), q, '\n');
    assert ['\r'] + ['\n'] == CRLF;
    FeedConcat(p, ['\r'], ['\n']);
    var f := Feed(q, ['\n']);
    assert [] + f.items == f.items;
  }

  // ----- Values and names at the end of a line -----

  lemma ValueCrPass(p: Parser)
    requires p.state.HeaderValue? && p.nread + 2 <= MAX_HEADER_SIZE
    ensures !BulkState(p.state) && PartOf(p.state) == Some(Value)
    ensures !Overflows(Counted(p)) && !Overflows(Counted(Ahead(p, 1)))
    ensures Pass(Counted(p), '\r', 1) == Go(Ahead(p, 1).(state := HeaderAlmostDone)).(flush := Some(Value))
    ensures Pass(Counted(Ahead(p, 1)), '\n', 1) == Retry(Ahead(p, 2), HeaderAlmostDone).(flush := Some(Value))
  {
    hide ValueChar;
  }

  lemma ValueLfPass(p: Parser)
    requires p.state.HeaderAlmostDone?
    ensures Pass(p, '\n', 1) == Go(p.(state := HeaderValueLws))
  {
  }

  lemma ValueEndPass(p: Parser)
    requires p.state.HeaderValue? && p.nread + 2 <= MAX_HEADER_SIZE
    ensures var q := Ahead(p, 1).(state := HeaderAlmostDone);
            && !BulkState(p.state) && !BulkState(q.state) && PartOf(p.state) == Some(Value) && PartOf(q.state).None?
            && !Overflows(Counted(p)) && !Overflows(Counted(q)) && !Overflows(Counted(Ahead(p, 1)))
            && Pass(Counted(p), '\r', 1) == Go(q).(flush := Some(Value))
            && Pass(Counted(q), '\n', 1) == Go(Ahead(p, 2).(state := HeaderValueLws))
            && Pass(Counted(Ahead(p, 1)), '\n', 1) == Retry(Ahead(p, 2), HeaderAlmostDone).(flush := Some(Value))
            && Pass(Ahead(p, 2).(state := HeaderAlmostDone), '\n', 1) == Go(Ahead(p, 2).(state := HeaderValueLws))
  {
    hide Pass;
    ValueCrPass(p);
    ValueLfPass(Ahead(p, 2).(state := HeaderAlmostDone));
  }

  /** The call on a bare LF behind a value. */
  lemma LfAtValue(p: Parser)
    requires p.state.HeaderValue? && p.nread + 2 <= MAX_HEADER_SIZE
    ensures Run(Ahead(p, 1), ['\n']) ==
            Returned(Ahead(p, 2).(state := HeaderValueLws), [Data(Value, [])], 1, Ran)
  {
    hide Loop, Switch, Pass, BulkState, Overflows, Counted;
    ValueEndPass(p);
    var data: bytes := ['\n'];
    var c := Call(Ahead(p, 1), map[Value := 0], []);
    ValueMarks(p);
    OneMark(Value, 0, 0);
    RunIsLoop(Ahead(p, 1), data);
    CountedLoop(data, 0, c);
    CountedValue(p);
    PlainSwitch(data, 0, c.(p := Ahead(p, 2)), Retry(Ahead(p, 2), HeaderAlmostDone).(flush := Some(Value)));
    var d := Call(Ahead(p, 2).(state := HeaderAlmostDone), map[], [Data(Value, [])]);
    FlushEmpty(data, c.(p := Ahead(p, 2)), d);
    AlmostPlain();
    PlainSwitch(data, 0, d, Go(Ahead(p, 2).(state := HeaderValueLws)));
    assert d.events + [] + [] == d.events;
    LoopEnd(data, Call(Ahead(p, 2).(state := HeaderValueLws), map[], d.events));
    LeftoversNone(data, d.events);
  }

  lemma AlmostPlain()
    ensures !BulkState(HeaderAlmostDone)
  {
  }

  lemma ValueMarks(p: Parser)
    requires p.state.HeaderValue?
    ensures StartMarks(Ahead(p, 1).state) == map[Value := 0]
  {
  }

  lemma CountedValue(p: Parser)
    requires p.state.HeaderValue?
    ensures Counted(Ahead(p, 1)) == Ahead(p, 2)
  {
  }

  lemma FlushEmpty(data: bytes, c: Call, d: Call)
    requires c.marks == map[Value := 0] && c.events == []
    requires d == Call(c.p.(state := HeaderAlmostDone), map[], [Data(Value, [])])
    ensures MarksOk(c.marks, 0)
    ensures AfterArm(data, 0, 0, c, Retry(c.p, HeaderAlmostDone).(flush := Some(Value))) == d
  {
    assert data[0..0] == [] && map[Value := 0] - {Value} == map[];
    var none: seq<Event> := [];
    assert none + [Data(Value, [])] + [] == [Data(Value, [])];
  }

  lemma EmptyData()
    ensures Flatten([Data(Value, [])]) == []
  {
    FlattenOne(Data(Value, []));
    TagNone(Value);
  }

  /** A bare LF ends a header value as CR LF does, one byte counted less. */
  lemma LfEndsValue(p: Parser)
    requires p.state.HeaderValue? && p.nread + 2 <= MAX_HEADER_SIZE
    ensures Feed(p, CRLF) == Fed(Ahead(p, 2).(state := HeaderValueLws), [], 2, Ran)
    ensures Feed(Ahead(p, 1), ['\n']) == Fed(Ahead(p, 2).(state := HeaderValueLws), [], 1, Ran)
  {
    hide Feed, Run, Pass, BulkState, Counted, Overflows, PartOf, StepItems;
    ValueEndPass(p);
    var q := Ahead(p, 1).(state := HeaderAlmostDone);
    ByteFed(p, '\r', Go(q).(flush := Some(Value)));
    FlushedItems(Go(q).(flush := Some(Value)), Some(Value), '\r');
    SilentFed(q, '\n', Ahead(p, 2).(state := HeaderValueLws));
    assert ['\r'] + ['\n'] == CRLF;
    FeedConcat(p, ['\r'], ['\n']);
    LfAtValue(p);
    EmptyData();
    OneFed(Ahead(p, 1), '\n');
  }

  lemma NamePasses(p: Parser)
    requires p.state.HeaderField? && p.nread + 2 <= MAX_HEADER_SIZE
    ensures !BulkState(p.state) && !Overflows(Counted(p)) && PartOf(p.state) == Some(Field)
    ensures Pass(Counted(p), '\r', 1) == Go(Ahead(p, 1).(state := HeaderAlmostDone)).(flush := Some(Field))
    ensures Pass(Counted(p), '\n', 1) == Go(Ahead(p, 1).(state := HeaderFieldStart)).(flush := Some(Field))
  {
    hide FieldChar;
  }

  lemma AlmostDonePass(p: Parser)
    requires p.state.HeaderAlmostDone? && p.nread < MAX_HEADER_SIZE
    ensures !BulkState(p.state) && !Overflows(Counted(p)) && PartOf(p.state).None?
    ensures Pass(Counted(p), '\n', 1) == Go(Ahead(p, 1).(state := HeaderValueLws))
  {
  }

  /** A name may stand alone on its line; behind CR LF, not behind a bare LF, a blank line would go on with it. */
  lemma NameAlone(p: Parser)
    requires p.state.HeaderField? && p.nread + 2 <= MAX_HEADER_SIZE
    ensures Feed(p, CRLF) == Fed(Ahead(p, 2).(state := HeaderValueLws), [], 2, Ran)
    ensures Feed(p, ['\n']) == Fed(Ahead(p, 1).(state := HeaderFieldStart), [], 1, Ran)
  {
    hide Feed, Pass, BulkState, Counted, Overflows, PartOf, StepItems;
    NamePasses(p);
    var q, r := Ahead(p, 1).(state := HeaderAlmostDone), Ahead(p, 1).(state := HeaderFieldStart);
    ByteFed(p, '\r', Go(q).(flush := Some(Field)));
    FlushedItems(Go(q).(flush := Some(Field)), Some(Field), '\r');
    ByteFed(p, '\n', Go(r).(flush := Some(Field)));
    FlushedItems(Go(r).(flush := Some(Field)), Some(Field), '\n');
    AlmostDonePass(q);
    SilentFed(q, '\n', Ahead(p, 2).(state := HeaderValueLws));
    assert ['\r'] + ['\n'] == CRLF;
    FeedConcat(p, ['\r'], ['\n']);
  }

  // ----- Blanks -----

  lemma BlankPass(p: Parser, b: byte)
    requires p.nread < MAX_HEADER_SIZE && (b == ' ' || b == '\t')
    ensures p.state.HeaderValueDiscardWs? || p.state.HeaderValueDiscardLws? ==>
              && !BulkState(p.state) && !Overflows(Counted(p)) && PartOf(p.state).None?
              && Pass(Counted(p), b, 1) == Go(Ahead(p, 1).(state := HeaderValueDiscardWs))
  {
    hide ArmValueStart;
  }

  lemma LengthPass(p: Parser, b: byte)
    requires p.state.HeaderValue? && p.header.ContentLengthHeader? && p.nread < MAX_HEADER_SIZE
    requires b != '\r' && b != '\n' && !IsDigit(b)
    ensures !BulkState(p.state) && !Overflows(Counted(p)) && PartOf(p.state) == Some(Value)
    ensures if b == ' ' then Pass(Counted(p), b, 1) == Go(Ahead(p, 1))
            else Pass(Counted(p), b, 1).control == Fail(InvalidContentLength)
  {
  }

  /** Blanks in front of a value are skipped, onto a further line as well; in a length a space is, and nothing else. */
  lemma BlanksSkipped(p: Parser, b: byte)
    requires p.nread < MAX_HEADER_SIZE
    ensures (p.state.HeaderValueDiscardWs? || p.state.HeaderValueDiscardLws?) && (b == ' ' || b == '\t') ==>
              Feed(p, [b]) == Fed(Ahead(p, 1).(state := HeaderValueDiscardWs), [], 1, Ran)
    ensures p.state.HeaderValue? && p.header.ContentLengthHeader? && b != '\r' && b != '\n' && !IsDigit(b) ==>
              if b == ' ' then Feed(p, [b]) == Fed(Ahead(p, 1), [Piece(Value, b)], 1, Ran)
              else Feed(p, [b]).stop == Failed(InvalidContentLength)
  {
    hide Feed, Pass, BulkState, Counted, Overflows, PartOf;
    if (p.state.HeaderValueDiscardWs? || p.state.HeaderValueDiscardLws?) && (b == ' ' || b == '\t') {
      BlankPass(p, b);
      SilentFed(p, b, Ahead(p, 1).(state := HeaderValueDiscardWs));
    }
    if p.state.HeaderValue? && p.header.ContentLengthHeader? && b != '\r' && b != '\n' && !IsDigit(b) {
      LengthPass(p, b);
      if b == ' ' {
        ByteFed(p, b, Go(Ahead(p, 1)));
      } else {
        FeedFail(p, [b]);
      }
    }
  }

  lemma FirstLengthPass(p: Parser, b: byte)
    requires p.state.HeaderValueDiscardWs? && p.header.ContentLengthHeader? && p.nread < MAX_HEADER_SIZE
    requires b != '\r' && b != '\n' && b != ' ' && b != '\t' && !IsDigit(b)
    ensures !BulkState(p.state) && !Overflows(Counted(p))
    ensures Pass(Counted(p), b, 1).control == Fail(InvalidContentLength)
  {
  }

  /** A length has to begin with a digit. */
  lemma LengthNeedsDigit(p: Parser, b: byte)
    requires p.state.HeaderValueDiscardWs? && p.header.ContentLengthHeader? && p.nread < MAX_HEADER_SIZE
    requires b != '\r' && b != '\n' && b != ' ' && b != '\t' && !IsDigit(b)
    ensures Feed(p, [b]).stop == Failed(InvalidContentLength)
  {
    hide Feed, Pass, BulkState, Counted, Overflows;
    FirstLengthPass(p, b);
    FeedFail(p, [b]);
  }

  // ----- Lines that are cut short -----

  /**
   * A request line without a version is one of version 0.9; a status line may lack its reason, or the space
   * before it.
   */
  lemma ShortLines(p: Parser)
    requires p.nread + 2 <= MAX_HEADER_SIZE
    ensures UrlDone(p.state) ==>
              Feed(p, CRLF) ==
              Fed(Ahead(p, 2).(state := HeaderFieldStart, line := p.line.(major := 0, minor := 9)), [], 2, Ran)
    ensures p.state.ResStatusCode? || p.state.ResStatusStart? ==>
              Feed(p, CRLF) == Fed(Ahead(p, 2).(state := HeaderFieldStart), [], 2, Ran)
  {
    hide Feed, Pass, BulkState, Counted, Overflows, PartOf, StepItems, UrlDone;
    if UrlDone(p.state) || p.state.ResStatusCode? || p.state.ResStatusStart? {
      LfEndsLine(p);
      LineEndPasses(p);
      var b := Pass(Counted(Ahead(p, 1)), '\n', 1);
      ByteFed(Ahead(p, 1), '\n', b);
      ShortPass(Ahead(p, 1));
      assert ['\r'] + ['\n'] == CRLF;
      FeedConcat(p, ['\r'], ['\n']);
      TwoTaken(p);
    }
  }

  lemma ShortPass(p: Parser)
    requires p.nread < MAX_HEADER_SIZE
    ensures UrlDone(p.state) ==>
              Pass(Counted(p), '\n', 1).p ==
              Ahead(p, 1).(state := HeaderFieldStart, line := p.line.(major := 0, minor := 9))
    ensures p.state.ResStatusCode? || p.state.ResStatusStart? ==>
              Pass(Counted(p), '\n', 1).p == Ahead(p, 1).(state := HeaderFieldStart)
  {
  }

  lemma TwoTaken(p: Parser)
    requires Feed(p, CRLF).stop == Ran
    ensures Feed(p, CRLF).n == 2
  {
    hide Feed;
    FeedConcat(p, CRLF, []);
    assert CRLF + [] == CRLF;
  }

  // ----- The first line -----

  lemma SpacePass(p: Parser)
    requires p.nread < MAX_HEADER_SIZE
    requires p.state.ReqSpacesBeforeUrl? || p.state.ReqHttpStart? || p.state.ResFirstStatusCode?
    ensures !BulkState(p.state) && !Overflows(Counted(p)) && PartOf(p.state).None?
    ensures Pass(Counted(p), ' ', 1) == Go(Ahead(p, 1))
  {
  }

  /** Further spaces in front of the URL, of the version and of the status code are skipped. */
  lemma SpacesSkipped(p: Parser)
    requires p.nread < MAX_HEADER_SIZE
    requires p.state.ReqSpacesBeforeUrl? || p.state.ReqHttpStart? || p.state.ResFirstStatusCode?
    ensures Feed(p, [' ']) == Fed(Ahead(p, 1), [], 1, Ran)
  {
    hide Feed, Pass, BulkState, Counted, Overflows, PartOf;
    SpacePass(p);
    SilentFed(p, ' ', Ahead(p, 1));
  }

  lemma DigitPass(p: Parser, b: byte)
    requires p.nread < MAX_HEADER_SIZE
    ensures p.state.ReqFirstHttpMajor? ==>
              && !BulkState(p.state) && !Overflows(Counted(p))
              && if IsDigit(b) && b != '0' then Pass(Counted(p), b, 1).control.Break?
                 else Pass(Counted(p), b, 1).control == Fail(InvalidVersion)
    ensures p.state.ReqFirstHttpMinor? || p.state.ResFirstHttpMajor? || p.state.ResFirstHttpMinor? ==>
              && !BulkState(p.state) && !Overflows(Counted(p))
              && if IsDigit(b) then Pass(Counted(p), b, 1).control.Break?
                 else Pass(Counted(p), b, 1).control == Fail(InvalidVersion)
    ensures p.state.ResFirstStatusCode? && b != ' ' ==>
              && !BulkState(p.state) && !Overflows(Counted(p))
              && if IsDigit(b) then Pass(Counted(p), b, 1).control.Break?
                 else Pass(Counted(p), b, 1).control == Fail(InvalidStatus)
  {
  }

  /** A number in a first line begins with a digit, and the version of a request not with 0. */
  lemma NumbersBegin(p: Parser, b: byte)
    requires p.nread < MAX_HEADER_SIZE
    ensures p.state.ReqFirstHttpMajor? ==>
              Feed(p, [b]).stop == if IsDigit(b) && b != '0' then Ran else Failed(InvalidVersion)
    ensures p.state.ReqFirstHttpMinor? || p.state.ResFirstHttpMajor? || p.state.ResFirstHttpMinor? ==>
              Feed(p, [b]).stop == if IsDigit(b) then Ran else Failed(InvalidVersion)
    ensures p.state.ResFirstStatusCode? && b != ' ' ==>
              Feed(p, [b]).stop == if IsDigit(b) then Ran else Failed(InvalidStatus)
  {
    hide Feed, Pass, BulkState, Counted, Overflows, StepItems;
    DigitPass(p, b);
    if p.state.ReqFirstHttpMajor? || p.state.ReqFirstHttpMinor? || p.state.ResFirstHttpMajor?
       || p.state.ResFirstHttpMinor? || (p.state.ResFirstStatusCode? && b != ' ') {
      if Pass(Counted(p), b, 1).control.Break? {
        ByteFed(p, b, Pass(Counted(p), b, 1));
      } else {
        FeedFail(p, [b]);
      }
    }
  }

  lemma FurtherPass(p: Parser, b: byte)
    requires p.nread < MAX_HEADER_SIZE && IsDigit(b)
    ensures p.state.ReqHttpMajor? || p.state.ResHttpMajor? ==>
              && !BulkState(p.state) && !Overflows(Counted(p))
              && if 10 * p.line.major + DigitValue(b) <= 999 then Pass(Counted(p), b, 1).control.Break?
                 else Pass(Counted(p), b, 1).control == Fail(InvalidVersion)
    ensures p.state.ReqHttpMinor? || p.state.ResHttpMinor? ==>
              && !BulkState(p.state) && !Overflows(Counted(p))
              && if 10 * p.line.minor + DigitValue(b) <= 999 then Pass(Counted(p), b, 1).control.Break?
                 else Pass(Counted(p), b, 1).control == Fail(InvalidVersion)
    ensures p.state.ResStatusCode? ==>
              && !BulkState(p.state) && !Overflows(Counted(p))
              && if 10 * p.line.status + DigitValue(b) <= 999 then Pass(Counted(p), b, 1).control.Break?
                 else Pass(Counted(p), b, 1).control == Fail(InvalidStatus)
  {
  }

  /** It goes on up to 999. */
  lemma NumbersLimited(p: Parser, b: byte)
    requires p.nread < MAX_HEADER_SIZE && IsDigit(b)
    ensures p.state.ReqHttpMajor? || p.state.ResHttpMajor? ==>
              Feed(p, [b]).stop == if 10 * p.line.major + DigitValue(b) <= 999 then Ran else Failed(InvalidVersion)
    ensures p.state.ReqHttpMinor? || p.state.ResHttpMinor? ==>
              Feed(p, [b]).stop == if 10 * p.line.minor + DigitValue(b) <= 999 then Ran else Failed(InvalidVersion)
    ensures p.state.ResStatusCode? ==>
              Feed(p, [b]).stop == if 10 * p.line.status + DigitValue(b) <= 999 then Ran else Failed(InvalidStatus)
  {
    hide Feed, Pass, BulkState, Counted, Overflows, StepItems;
    FurtherPass(p, b);
    if p.state.ReqHttpMajor? || p.state.ResHttpMajor? || p.state.ReqHttpMinor? || p.state.ResHttpMinor?
       || p.state.ResStatusCode? {
      if Pass(Counted(p), b, 1).control.Break? {
        ByteFed(p, b, Pass(Counted(p), b, 1));
      } else {
        FeedFail(p, [b]);
      }
    }
  }

  // ----- Empty lines between messages -----

  /** Between messages CR and LF are skipped; by a parser for responses with a message_begin for each. */
  lemma EmptyLine(p: Parser, b: byte)
    requires b == '\r' || b == '\n'
    requires p.nread < MAX_HEADER_SIZE
    ensures p.state.StartReq? || p.state.StartReqOrRes? || p.state.Dead? ==>
              Feed(p, [b]) == Fed(Ahead(p, 1), [], 1, Ran)
    ensures p.state.StartRes? ==>
              Feed(p, [b]) ==
              Fed(Ahead(p, 1).(flags := NO_FLAGS, contentLength := ULLONG_MAX), [Noted(MessageBegin)], 1, Ran)
  {
    hide Feed, Pass, BulkState, Counted, Overflows, PartOf;
    EmptyPass(p, b);
    if p.state.StartReq? || p.state.StartReqOrRes? || p.state.Dead? {
      SilentFed(p, b, Ahead(p, 1));
    } else if p.state.StartRes? {
      QuietStep(p, b, Go(Ahead(p, 1).(flags := NO_FLAGS, contentLength := ULLONG_MAX)).(notice := Some(MessageBegin)));
    }
  }

  lemma EmptyPass(p: Parser, b: byte)
    requires b == '\r' || b == '\n'
    requires p.nread < MAX_HEADER_SIZE
    ensures p.state.StartReq? || p.state.StartReqOrRes? || p.state.Dead? || p.state.StartRes? ==>
              && !BulkState(p.state) && !Overflows(Counted(p)) && PartOf(p.state).None?
              && Pass(Counted(p), b, 1) ==
                 if p.state.StartRes? then
                   Go(Ahead(p, 1).(flags := NO_FLAGS, contentLength := ULLONG_MAX)).(notice := Some(MessageBegin))
                 else Go(Ahead(p, 1))
  {
  }

  // ----- Folded values -----

  lemma FoldPass(p: Parser, b: byte)
    requires p.state.HeaderValueLws? && p.nread < MAX_HEADER_SIZE && (b == ' ' || b == '\t')
    ensures !BulkState(p.state) && !Overflows(Counted(p)) && PartOf(p.state).None?
    ensures Pass(Ahead(p, 1), b, 1) == Retry(Ahead(p, 1), HeaderValueStart)
  {
    hide HeaderDone;
  }

  lemma FoldStart(q: Parser, b: byte)
    requires q.state.HeaderValueStart?
    requires q.header.General? || q.header.ChunkedValue? || q.header.KeepAliveValue? || q.header.CloseValue?
    ensures !BulkState(q.state)
    ensures Pass(q, b, 1) == Go(q.(state := HeaderValue, index := 0, header := General)).(mark := Some(Value))
  {
  }

  lemma FoldRuns(p: Parser, b: byte)
    requires p.state.HeaderValueLws? && p.nread < MAX_HEADER_SIZE && (b == ' ' || b == '\t')
    requires p.header.General? || p.header.ChunkedValue? || p.header.KeepAliveValue? || p.header.CloseValue?
    ensures var r := Ahead(p, 1).(state := HeaderValue, index := 0, header := General);
            Run(p, [b]) == Loop([b], 1, Call(r, map[Value := 0], []))
  {
    hide Loop, Switch, Pass, BulkState, Counted, Overflows, PartOf;
    FoldPass(p, b);
    var q := Ahead(p, 1).(state := HeaderValueStart);
    FoldStart(q, b);
    var r := q.(state := HeaderValue, index := 0, header := General);
    var c := Call(p, map[], []);
    NoMarks(p.state);
    RunIsLoop(p, [b]);
    CountedLoop([b], 0, c);
    CountedLws(p);
    PlainSwitch([b], 0, c.(p := Ahead(p, 1)), Retry(Ahead(p, 1), HeaderValueStart));
    PlainSwitch([b], 0, Call(q, map[], []), Go(r).(mark := Some(Value)));
    var none: seq<Event> := [];
    assert none + [] + [] == none;
  }

  /** A value folded onto a further line goes on with its blank; what it said before the fold is forgotten. */
  lemma FoldForgets(p: Parser, b: byte)
    requires p.state.HeaderValueLws? && p.nread < MAX_HEADER_SIZE && (b == ' ' || b == '\t')
    requires p.header.General? || p.header.ChunkedValue? || p.header.KeepAliveValue? || p.header.CloseValue?
    ensures Feed(p, [b]) ==
            Fed(Ahead(p, 1).(state := HeaderValue, index := 0, header := General), [Piece(Value, b)], 1, Ran)
  {
    hide Run, Loop, Feed, Leftovers;
    FoldRuns(p, b);
    var marks := map[Value := 0];
    OneMark(Value, 0, 1);
    LoopEnd([b], Call(Ahead(p, 1).(state := HeaderValue, index := 0, header := General), marks, []));
    assert marks == Mk(Some(Value), 0);
    LeftoversOne([b], Some(Value), 0);
    assert [b][0..1] == [b] && [] + Leftovers([b], marks) == Leftovers([b], marks);
    OneFed(p, b);
  }

  lemma CountedLws(p: Parser)
    requires p.state.HeaderValueLws?
    ensures Counted(p) == Ahead(p, 1)
  {
  }

  // ----- Both kinds of message -----

  lemma FirstPasses(p: Parser, b: byte)
    requires p.state.StartReqOrRes? && p.nread < MAX_HEADER_SIZE && b != '\r' && b != '\n'
    ensures !BulkState(p.state) && !Overflows(Counted(p)) && PartOf(p.state).None?
    ensures var q := p.(flags := NO_FLAGS, contentLength := ULLONG_MAX, kind := Request, state := StartReq);
            && !BulkState(q.state) && !Overflows(Counted(q)) && PartOf(q.state).None?
            && (b != 'H' ==> Pass(Counted(p), b, 1) == Retry(Counted(q), Counted(q).state))
            && (b == 'H' ==>
                  Pass(Counted(p), b, 1) ==
                  Go(Ahead(p, 1).(flags := NO_FLAGS, contentLength := ULLONG_MAX, state := ResOrRespH)).(
                    notice := Some(MessageBegin)))
            && Pass(Counted(q), 'H', 1) ==
               Go(Ahead(q, 1).(state := ReqMethod, index := 1, line := p.line.(verb := HEAD))).(
                 notice := Some(MessageBegin))
  {
  }

  lemma SecondPasses(p: Parser, b: byte)
    requires p.state.ResOrRespH? && p.nread < MAX_HEADER_SIZE
    ensures !BulkState(p.state) && !Overflows(Counted(p)) && PartOf(p.state).None?
    ensures Pass(Counted(p), 'T', 1) == Go(Ahead(p, 1).(kind := Response, state := ResHT))
    ensures Pass(Counted(p), 'E', 1) ==
            Go(Ahead(p, 1).(kind := Request, state := ReqMethod, index := 2, line := p.line.(verb := HEAD)))
    ensures b != 'T' && b != 'E' ==> Pass(Counted(p), b, 1).control == Fail(InvalidConstant)
  {
  }

  lemma ThirdPasses(p: Parser)
    requires p.nread < MAX_HEADER_SIZE
    ensures p.state.ResH? ==>
              && !BulkState(p.state) && !Overflows(Counted(p)) && PartOf(p.state).None?
              && Pass(Counted(p), 'T', 1) == Go(Ahead(p, 1).(state := ResHT))
    ensures p.state.ReqMethod? && p.index == 1 && p.line.verb == HEAD ==>
              && !BulkState(p.state) && !Overflows(Counted(p)) && PartOf(p.state).None?
              && Pass(Counted(p), 'E', 1) == Go(Ahead(p, 1).(index := 2))
    ensures p.state.StartRes? ==>
              && !BulkState(p.state) && !Overflows(Counted(p)) && PartOf(p.state).None?
              && Pass(Counted(p), 'H', 1) ==
                 Go(Ahead(p, 1).(flags := NO_FLAGS, contentLength := ULLONG_MAX, state := ResH)).(
                   notice := Some(MessageBegin))
  {
  }

  /** A parser for both kinds goes on as one for requests from any first letter but H. */
  lemma BothRequest(p: Parser, b: byte)
    requires p.state.StartReqOrRes? && p.nread < MAX_HEADER_SIZE && b != '\r' && b != '\n' && b != 'H'
    ensures Feed(p, [b]) ==
            Feed(p.(flags := NO_FLAGS, contentLength := ULLONG_MAX, kind := Request, state := StartReq), [b])
  {
    hide Feed, Pass, BulkState, Counted, Overflows, PartOf;
    FirstPasses(p, b);
    SameByte(p, p.(flags := NO_FLAGS, contentLength := ULLONG_MAX, kind := Request, state := StartReq), b);
  }

  /** From "HT" it goes on as one for responses, from "HE" as one for requests; other words with H are refused. */
  lemma BothSettles(p: Parser, b: byte)
    requires p.state.StartReqOrRes? && p.nread + 2 <= MAX_HEADER_SIZE
    ensures Feed(p, ['H', 'T']) == Feed(p.(kind := Response, state := StartRes), ['H', 'T'])
    ensures Feed(p, ['H', 'E']) == Feed(p.(kind := Request, state := StartReq), ['H', 'E'])
    ensures b != 'T' && b != 'E' ==> Feed(p, ['H', b]).stop == Failed(InvalidConstant)
  {
    hide Feed, Pass, BulkState, Counted, Overflows, PartOf;
    FirstPasses(p, 'H');
    var both := Ahead(p, 1).(flags := NO_FLAGS, contentLength := ULLONG_MAX, state := ResOrRespH);
    QuietStep(p, 'H', Go(both).(notice := Some(MessageBegin)));
    SecondPasses(both, b);
    FeedConcat(p, ['H'], ['T']);
    FeedConcat(p, ['H'], ['E']);
    FeedConcat(p, ['H'], [b]);
    assert ['H'] + ['T'] == ['H', 'T'] && ['H'] + ['E'] == ['H', 'E'] && ['H'] + [b] == ['H', b];
    SilentFed(both, 'T', Ahead(both, 1).(kind := Response, state := ResHT));
    SilentFed(both, 'E', Ahead(both, 1).(kind := Request, state := ReqMethod, index := 2,
                                         line := p.line.(verb := HEAD)));
    if b != 'T' && b != 'E' {
      FeedFail(both, [b]);
    }
    ResponseFirst(p);
    RequestFirst(p);
  }

  lemma ResponseFirst(p: Parser)
    requires p.nread + 2 <= MAX_HEADER_SIZE
    ensures Feed(p.(kind := Response, state := StartRes), ['H', 'T']) ==
            Fed(Ahead(p, 2).(kind := Response, flags := NO_FLAGS, contentLength := ULLONG_MAX, state := ResHT),
                [Noted(MessageBegin)] + [], 2, Ran)
  {
    hide Feed, Pass, BulkState, Counted, Overflows, PartOf;
    var s := p.(kind := Response, state := StartRes);
    var t := Ahead(s, 1).(flags := NO_FLAGS, contentLength := ULLONG_MAX, state := ResH);
    ThirdPasses(s);
    ThirdPasses(t);
    QuietStep(s, 'H', Go(t).(notice := Some(MessageBegin)));
    SilentFed(t, 'T', Ahead(t, 1).(state := ResHT));
    FeedConcat(s, ['H'], ['T']);
    assert ['H'] + ['T'] == ['H', 'T'];
  }

  lemma RequestFirst(p: Parser)
    requires p.nread + 2 <= MAX_HEADER_SIZE
    ensures Feed(p.(kind := Request, state := StartReq), ['H', 'E']) ==
            Fed(Ahead(p, 2).(kind := Request, flags := NO_FLAGS, contentLength := ULLONG_MAX, state := ReqMethod,
                             index := 2, line := p.line.(verb := HEAD)),
                [Noted(MessageBegin)] + [], 2, Ran)
  {
    hide Feed, Pass, BulkState, Counted, Overflows, PartOf;
    var s := p.(kind := Request, state := StartReq);
    var t := Ahead(s, 1).(flags := NO_FLAGS, contentLength := ULLONG_MAX, state := ReqMethod, index := 1,
                          line := p.line.(verb := HEAD));
    FirstPasses(p.(state := StartReqOrRes, kind := Request), 'H');
    RequestPass(s);
    ThirdPasses(t);
    QuietStep(s, 'H', Go(t).(notice := Some(MessageBegin)));
    SilentFed(t, 'E', Ahead(t, 1).(index := 2));
    FeedConcat(s, ['H'], ['E']);
    assert ['H'] + ['E'] == ['H', 'E'];
  }

  lemma RequestPass(p: Parser)
    requires p.state.StartReq? && p.nread < MAX_HEADER_SIZE
    ensures !BulkState(p.state) && !Overflows(Counted(p)) && PartOf(p.state).None?
    ensures Pass(Counted(p), 'H', 1) ==
            Go(Ahead(p, 1).(flags := NO_FLAGS, contentLength := ULLONG_MAX, state := ReqMethod, index := 1,
                            line := p.line.(verb := HEAD))).(notice := Some(MessageBegin))
  {
  }

  // ----- The limit -----

  /** Header bytes are taken up to a count of 80 * 1024, and the next one is refused. */
  lemma HeaderLimit(p: Parser, b: byte)
    requires ParsingHeader(p.state)
    ensures p.nread >= 81920 ==> Feed(p, [b]) == Fed(Counted(p), [], 0, Failed(HeaderOverflow))
    ensures p.nread < 81920 ==> !Overflows(Counted(p))
  {
    hide Feed;
    if p.nread >= 81920 {
      FeedOverflow(p, [b]);
    }
  }

  // ----- Characters -----

  /** The characters of a token are those of section 2.2 of RFC 2616. */
  lemma TokenCharacters(c: byte)
    ensures Token(c) != '\0' <==> '!' <= c <= '~' && c !in "()<>@,;:\\\"/[]?={}"
    ensures Token(c) != '\0' ==> Token(c) == if 'A' <= c <= 'Z' then (c as int + 32) as char else c
  {
  }

  /** Those of the user information in a URL are those of section 3.2.2 of RFC 2396. */
  lemma UserinfoCharacters(c: byte)
    ensures IsUserinfoChar(c) <==> '!' <= c <= '~' && c !in "\"#/<>?@[\\]^`{|}"
    ensures IsUrlChar(c) <==> ' ' < c <= '~' && c !in "#?"
  {
  }

  /** The value of a hexadecimal digit, in either case. */
  lemma HexDigits(i: nat)
    requires i < 16
    ensures Unhex("0123456789abcdef"[i]) == Unhex("0123456789ABCDEF"[i]) == i
  {
    var lower, upper := "0123456789abcdef", "0123456789ABCDEF";
    if i < 10 {
      assert lower[i] == upper[i] == DigitOf(i);
    } else {
      assert lower[i] as int == i - 10 + 'a' as int && upper[i] as int == i - 10 + 'A' as int;
    }
  }
}
