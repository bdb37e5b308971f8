/** Message bodies: what reaches on_body, for a length and for the chunked coding. */
module HttpBody {
  import opened Bytes
  import opened HttpSyntax
  import opened HttpMachine
  import opened HttpExecute
  import opened HttpSplit
  import opened HttpBatch

  // ----- One byte in a state that is not a bulk state -----

  /** What a pass over byte b yields, in a call of its own. */
  function StepItems(a: Arm, h: Option<Part>, b: byte): seq<Item> {
    Notes(a) + (if HeldAfter(a, h).Some? then [Piece(HeldAfter(a, h).value, b)] else [])
  }

  lemma PendOne(h: Option<Part>, b: byte)
    ensures Pend([b], h, 0, 1) == if h.Some? then [Piece(h.value, b)] else []
    ensures Pend([b], h, 0, 0) == []
  {
    assert [b][0..1] == [b];
  }

  lemma StepMarks(p: Parser, b: byte)
    requires !BulkState(p.state) && !Overflows(Counted(p)) && !Pass(Counted(p), b, 1).control.Again?
    ensures var a, h, r := Pass(Counted(p), b, 1), PartOf(p.state), Run(p, [b]);
            match a.control
            case Break => r.p == a.p && r.n == 1 && r.stop == Ran && Flatten(r.events) == StepItems(a, h, b)
            case Fail(e) => r.p == a.p && r.n == 0 && r.stop == Failed(e) && Flatten(r.events) == Notes(a)
            case _ => true
  {
    hide Pass, AfterPass, Loop, Switch, HeldOk, Flatten, HeldAfter, Notes, Leftovers, BulkState, Counted, Overflows;
    var a, h := Pass(Counted(p), b, 1), PartOf(p.state);
    var c := Call(p, Mk(h, 0), []);
    var c' := c.(p := Counted(p));
    RunIsLoop(p, [b]);
    CountedState(p);
    CountedLoop([b], 0, c);
    HeldAtStart(p.state);
    PassHeld(c'.p, b, 1, h);
    AfterPlainPass([b], 0, c', h, 0);
    PassPlain(c'.p, b, 1);
    var r := AfterPass([b], 0, c');
    var after := HeldAfter(a, h);
    PendOne(h, b);
    PendOne(after, b);
    FlattenNone();
    Bare(Flatten(r.events), Notes(a));
    StepSwitch(b, c');
    if a.control.Break? {
      LoopEnd([b], r);
      LeftoversOne([b], after, 0);
      FlattenConcat(r.events, Leftovers([b], r.marks));
    }
  }

  lemma Bare(x: seq<Item>, y: seq<Item>)
    requires x + [] == [] + [] + y
    ensures x == y
  {
    assert x + [] == x && [] + [] + y == y;
  }

  lemma HeldAtStart(s: State)
    ensures HeldOk(PartOf(s), s)
  {
  }

  lemma StepSwitch(b: byte, c: Call)
    requires MarksOk(c.marks, 0) && !BulkState(c.p.state)
    ensures var a, r := Pass(c.p, b, 1), AfterPass([b], 0, c);
            match a.control
            case Break => Switch([b], 0, c) == Loop([b], 1, r)
            case Fail(e) => Switch([b], 0, c) == Returned(r.p, r.events, 0, Failed(e))
            case _ => true
  {
    hide Pass, AfterPass, Loop;
  }

  /** The parser after one more byte of s. */
  lemma FeedStep(p: Parser, s: bytes)
    requires s != [] && !BulkState(p.state) && !Overflows(Counted(p)) && Pass(Counted(p), s[0], 1).control.Break?
    ensures var a := Pass(Counted(p), s[0], 1);
            var f := Feed(a.p, s[1..]);
            Feed(p, s) == Fed(f.p, StepItems(a, PartOf(p.state), s[0]) + f.items, 1 + f.n, f.stop)
  {
    hide Run, Pass, Counted, Overflows, StepItems, Flatten;
    StepMarks(p, s[0]);
    FeedOn(p, s);
  }

  /** A single byte outside any data. */
  lemma QuietStep(p: Parser, b: byte, a: Arm)
    requires !BulkState(p.state) && PartOf(p.state).None? && !Overflows(Counted(p))
    requires a == Pass(Counted(p), b, 1) && a.control.Break? && a.mark.None? && a.flush.None?
    ensures Feed(p, [b]) == Fed(a.p, Notes(a), 1, Ran)
  {
    hide Feed, Pass, BulkState, Counted, Overflows, PartOf;
    assert [b][1..] == [];
    FeedStep(p, [b]);
    FeedNone(a.p);
    assert Notes(a) + [] + [] == Notes(a);
  }

  lemma FeedFail(p: Parser, s: bytes)
    requires s != [] && !BulkState(p.state) && !Overflows(Counted(p)) && Pass(Counted(p), s[0], 1).control.Fail?
    ensures var a := Pass(Counted(p), s[0], 1);
            Feed(p, s) == Fed(a.p, Notes(a), 0, Failed(a.control.errno))
  {
    hide Run, Pass, Counted, Overflows, Flatten;
    StepMarks(p, s[0]);
    FeedOver(p, s);
  }

  lemma FeedOverflow(p: Parser, s: bytes)
    requires s != [] && !BulkState(p.state) && Overflows(Counted(p))
    ensures Feed(p, s) == Fed(Counted(p), [], 0, Failed(HeaderOverflow))
  {
    hide Run, Loop, Flatten, Counted, Overflows;
    RunIsLoop(p, [s[0]]);
    OverflowLoop([s[0]], 0, Call(p, StartMarks(p.state), []));
    FlattenNone();
    FeedOver(p, s);
  }

  // ----- Bodies of known length -----

  const LENGTH_LIMIT: nat := (ULLONG_MAX - 10) / 10

  /** A length the parser accepts: without its last digit, it is within a conservative limit. */
  predicate LengthFits(n: nat) {
    n / 10 <= LENGTH_LIMIT
  }

  lemma LengthPasses(p: Parser, d: nat)
    requires d <= 9 && p.nread < MAX_HEADER_SIZE && p.header.ContentLengthHeader?
    requires p.state.HeaderValueDiscardWs? || p.state.HeaderValue?
    ensures !BulkState(p.state) && !Overflows(Counted(p))
    ensures p.state.HeaderValueDiscardWs? ==>
              Pass(Counted(p), DigitOf(d), 1) ==
              Go(p.(nread := p.nread + 1, state := HeaderValue, index := 0, contentLength := d)).(mark := Some(Value))
    ensures p.state.HeaderValue? ==>
              Pass(Counted(p), DigitOf(d), 1) == Accumulate(p.(nread := p.nread + 1), 10, d)
  {
  }

  lemma FirstLengthDigit(p: Parser, d: nat)
    requires d <= 9 && p.nread < MAX_HEADER_SIZE && p.header.ContentLengthHeader? && p.state.HeaderValueDiscardWs?
    ensures Feed(p, [DigitOf(d)]) ==
            Fed(p.(nread := p.nread + 1, state := HeaderValue, index := 0, contentLength := d),
                [Piece(Value, DigitOf(d))], 1, Ran)
  {
    hide Feed, Pass, BulkState, Overflows, Counted;
    LengthPasses(p, d);
    assert [DigitOf(d)][1..] == [];
    FeedStep(p, [DigitOf(d)]);
    FeedNone(p.(nread := p.nread + 1, state := HeaderValue, index := 0, contentLength := d));
  }

  lemma NextLengthDigit(p: Parser, d: nat)
    requires d <= 9 && p.nread < MAX_HEADER_SIZE && p.header.ContentLengthHeader? && p.state.HeaderValue?
    ensures if p.contentLength <= LENGTH_LIMIT then
              && p.contentLength * 10 + d < ULLONG_MAX
              && Feed(p, [DigitOf(d)]) ==
                 Fed(p.(nread := p.nread + 1, contentLength := p.contentLength * 10 + d),
                     [Piece(Value, DigitOf(d))], 1, Ran)
            else Feed(p, [DigitOf(d)]).stop == Failed(InvalidContentLength)
  {
    hide Feed, Pass, BulkState, Overflows, Counted;
    LengthPasses(p, d);
    assert [DigitOf(d)][1..] == [];
    if p.contentLength <= LENGTH_LIMIT {
      FeedStep(p, [DigitOf(d)]);
      FeedNone(p.(nread := p.nread + 1, contentLength := p.contentLength * 10 + d));
    } else {
      FeedFail(p, [DigitOf(d)]);
    }
  }

  /** The registers after the digits of n. */
  function AfterLength(p: Parser, n: nat): Parser
    requires n < ULLONG_MAX
  {
    p.(nread := p.nread + |Decimal(n)|, state := HeaderValue, index := 0, contentLength := n)
  }

  /** The digits of a Content-Length give its value, or are refused; nothing wraps. */
  lemma {:induction false} LengthValue(p: Parser, n: nat)
    requires p.state.HeaderValueDiscardWs? && p.header.ContentLengthHeader?
    requires p.nread + |Decimal(n)| <= MAX_HEADER_SIZE
    ensures if LengthFits(n) then
              && n < ULLONG_MAX
              && Feed(p, Decimal(n)) == Fed(AfterLength(p, n), Tag(Value, Decimal(n)), |Decimal(n)|, Ran)
            else Feed(p, Decimal(n)).stop == Failed(InvalidContentLength)
  {
    hide Feed;
    if n < 10 {
      FirstLengthDigit(p, n);
    } else {
      var m, d := n / 10, n % 10;
      LengthValue(p, m);
      FeedConcat(p, Decimal(m), [DigitOf(d)]);
      if LengthFits(m) {
        NextLengthDigit(AfterLength(p, m), d);
      }
    }
  }

  /**
   * With a length of n, exactly the next n bytes reach on_body, in order, before
   * one message_complete; the parser goes on with the rest as a new message.
   */
  lemma LengthBody(p: Parser, body: bytes, rest: bytes, chunks: seq<bytes>)
    requires p.state.BodyIdentity? && 0 < p.contentLength == |body| < ULLONG_MAX
    requires Concat(chunks) == body + rest
    ensures var q := p.(state := NewMessage(p), contentLength := 0);
            var f, g := RunAll(p, chunks), RunAll(q, [rest]);
            && f.p == g.p && f.stop == g.stop && f.n == |body| + g.n
            && (!f.stop.Failed? ==> f.items == Tag(Body, body) + [Noted(MessageComplete)] + g.items)
  {
    hide Feed, NewMessage, RunAll;
    var q := p.(state := NewMessage(p), contentLength := 0);
    BulkFeed(p, body);
    LengthAfter(p);
    FeedConcat(p, body, rest);
    RunAllIsFeed(p, chunks);
    RunAllIsFeed(q, [rest]);
    assert Concat([rest]) == rest by { ConcatOne(rest); }
  }

  lemma ConcatOne(s: bytes)
    ensures Concat([s]) == s
  {
  }

  lemma LengthAfter(p: Parser)
    requires p.state.BodyIdentity? && 0 < p.contentLength < ULLONG_MAX
    ensures Takes(p, p.contentLength)
    ensures BulkAfter(p, p.contentLength) == p.(state := NewMessage(p), contentLength := 0)
    ensures BulkNotes(p, p.contentLength) == [Noted(MessageComplete)]
  {
  }
}
