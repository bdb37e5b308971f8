/** Executing a buffer comes to the same as executing its bytes one at a time; hence buffers can be cut anywhere. */
module HttpBatch {
  import opened Bytes
  import opened HttpSyntax
  import opened HttpMachine
  import opened HttpExecute
  import opened HttpSplit

  // ----- A buffer is its bytes -----

  /** The bytes of s executed one by one. */
  datatype Fed = Fed(p: Parser, items: seq<Item>, n: nat, stop: Stop)

  function Feed(p: Parser, s: bytes): Fed
    decreases |s|
  {
    if s == [] then Fed(p, [], 0, Ran)
    else
      var r := Run(p, [s[0]]);
      if r.stop != Ran then Fed(r.p, Flatten(r.events), r.n, r.stop)
      else
        var f := Feed(r.p, s[1..]);
        f.(items := Flatten(r.events) + f.items, n := 1 + f.n)
  }

  lemma {:induction false} FeedConcat(p: Parser, a: bytes, b: bytes)
    ensures var f := Feed(p, a);
            Feed(p, a + b) == if f.stop != Ran then f
                              else
                                var g := Feed(f.p, b);
                                Fed(g.p, f.items + g.items, |a| + g.n, g.stop)
    ensures Feed(p, a).stop == Ran ==> Feed(p, a).n == |a|
    decreases |a|
  {
    hide Run, Flatten;
    if a == [] {
      assert a + b == b;
    } else {
      assert (a + b)[1..] == a[1..] + b;
      FeedConcat(Run(p, [a[0]]).p, a[1..], b);
    }
  }

  /** A bulk state in which the assertions hold, with at least k more bytes of body. */
  predicate Takes(p: Parser, k: nat) {
    BulkState(p.state) && BodyAsserts(p) && 0 < k && (!p.state.BodyIdentityEof? ==> k <= p.contentLength)
  }

  function BulkAfter(p: Parser, k: nat): Parser
    requires Takes(p, k)
  {
    if p.state.BodyIdentityEof? then p
    else
      var q := p.(contentLength := p.contentLength - k);
      if q.contentLength > 0 then q
      else if p.state.BodyIdentity? then Complete(q.(state := MessageDone)).p
      else q.(state := ChunkDataAlmostDone)
  }

  function BulkNotes(p: Parser, k: nat): seq<Item> {
    if p.state.BodyIdentity? && p.contentLength == k then [Noted(MessageComplete)] else []
  }

  lemma BodyPass(p: Parser, b: byte, avail: nat)
    requires avail > 0 && GroupOf(p.state) == BodyGroup
    ensures Pass(p, b, avail) == ArmBody(p, avail) && Counted(p) == p && !Overflows(p)
  {
    hide ArmBody;
  }

  lemma CompletePass(p: Parser, b: byte, avail: nat)
    requires avail > 0 && p.state.MessageDone?
    ensures Pass(p, b, avail) == Complete(p) && Taken(p, avail) == 1
  {
    BodyPass(p, b, avail);
    hide Pass;
  }

  lemma BulkArm(p: Parser, avail: nat, k: nat)
    requires avail > 0 && k == Taken(p, avail) && Takes(p, k)
    ensures BulkNotes(p, k) == [] ==> ArmBody(p, avail) == Arm(BulkAfter(p, k), Some(Body), None, None, Break)
    ensures BulkNotes(p, k) != [] ==>
              ArmBody(p, avail) ==
              Arm(p.(contentLength := 0, state := MessageDone), Some(Body), Some(Body), None, Again)
  {
  }

  lemma LoopToSwitch(data: bytes, i: nat, c: Call)
    requires i < |data| && MarksOk(c.marks, i) && GroupOf(c.p.state) == BodyGroup
    ensures Loop(data, i, c) == Switch(data, i, c)
  {
    hide Pass, Switch, Leftovers;
    BodyPass(c.p, data[i], |data| - i);
  }

  /** Body bytes up to the end of the buffer or of a chunk. */
  lemma BulkLoop(data: bytes, i: nat, c: Call, k: nat)
    requires i < |data| && MarksOk(c.marks, i) && k == Taken(c.p, |data| - i) && Takes(c.p, k)
    requires BulkNotes(c.p, k) == []
    ensures var marks := WithMark(c.marks, Some(Body), i);
            MarksOk(marks, i) && Loop(data, i, c) == Loop(data, i + k, Call(BulkAfter(c.p, k), marks, c.events))
  {
    hide Pass, Counted, Overflows, Loop, ArmBody, BulkAfter, BulkNotes, Taken;
    LoopToSwitch(data, i, c);
    BodyPass(c.p, data[i], |data| - i);
    BulkArm(c.p, |data| - i, k);
    assert c.events + [] + [] == c.events;
  }

  lemma CompleteSwitch(data: bytes, j: nat, c: Call)
    requires j < |data| && MarksOk(c.marks, j) && c.p.state.MessageDone?
    ensures Switch(data, j, c) ==
            Loop(data, j + 1, Call(Complete(c.p).p, c.marks, c.events + [Note(MessageComplete)]))
  {
    hide Pass, Loop, NewMessage;
    CompletePass(c.p, data[j], |data| - j);
    assert c.events + [] == c.events;
  }

  lemma IdentityEndPass(data: bytes, i: nat, c: Call, k: nat)
    requires i < |data| && MarksOk(c.marks, i) && k == Taken(c.p, |data| - i) && Takes(c.p, k)
    requires BulkNotes(c.p, k) != []
    ensures var marks := WithMark(c.marks, Some(Body), i);
            && Pass(c.p, data[i], |data| - i).control == Again
            && marks[Body] <= i
            && AfterPass(data, i, c) ==
               Call(c.p.(contentLength := 0, state := MessageDone), marks - {Body},
                    c.events + [Data(Body, data[marks[Body]..i + k])])
  {
    hide Pass, ArmBody, Loop;
    BodyPass(c.p, data[i], |data| - i);
    BulkArm(c.p, |data| - i, k);
    var events := c.events + [Data(Body, data[WithMark(c.marks, Some(Body), i)[Body]..i + k])];
    assert events + [] == events;
  }

  lemma AgainSwitch(data: bytes, i: nat, c: Call, k: nat)
    requires i < |data| && MarksOk(c.marks, i) && k == Taken(c.p, |data| - i)
    requires Pass(c.p, data[i], |data| - i).control == Again
    ensures MarksOk(AfterPass(data, i, c).marks, i + k - 1)
    ensures Switch(data, i, c) == Switch(data, i + k - 1, AfterPass(data, i, c))
  {
    hide Pass, AfterPass, Loop, Taken;
  }

  /** The rest of an identity body: its last byte is delivered with it, and the message is complete. */
  lemma IdentityEndLoop(data: bytes, i: nat, c: Call, k: nat)
    requires i < |data| && MarksOk(c.marks, i) && k == Taken(c.p, |data| - i) && Takes(c.p, k)
    requires BulkNotes(c.p, k) != []
    ensures var marks := WithMark(c.marks, Some(Body), i);
            && MarksOk(marks - {Body}, i) && marks[Body] <= i
            && Loop(data, i, c) ==
               Loop(data, i + k, Call(BulkAfter(c.p, k), marks - {Body},
                                      c.events + [Data(Body, data[marks[Body]..i + k])] + [Note(MessageComplete)]))
  {
    hide Pass, AfterPass, Loop, Switch, ArmBody, NewMessage, Taken;
    LoopToSwitch(data, i, c);
    IdentityEndPass(data, i, c, k);
    AgainSwitch(data, i, c, k);
    CompleteSwitch(data, i + k - 1, AfterPass(data, i, c));
  }

  lemma RunBodyByte(p: Parser, b: byte)
    requires Takes(p, 1)
    ensures var r := Run(p, [b]);
            && r.p == BulkAfter(p, 1) && r.n == 1 && r.stop == Ran
            && Flatten(r.events) == [Piece(Body, b)] + BulkNotes(p, 1)
  {
    hide Loop, Pass, BulkAfter, Leftovers;
    var c := Call(p, StartMarks(p.state), []);
    var q := BulkAfter(p, 1);
    assert c.marks == map[] && Taken(p, 1) == 1;
    assert [b][0..1] == [b] && Tag(Body, [b]) == [Piece(Body, b)];
    FlattenOne(Data(Body, [b]));
    if BulkNotes(p, 1) == [] {
      BulkLoop([b], 0, c, 1);
      var c' := Call(q, map[Body := 0], []);
      assert map[Body := 0] == Mk(Some(Body), 0);
      LoopEnd([b], c');
      LeftoversOne([b], Some(Body), 0);
      assert [] + Leftovers([b], c'.marks) == Leftovers([b], c'.marks);
    } else {
      IdentityEndLoop([b], 0, c, 1);
      var events := [Data(Body, [b])] + [Note(MessageComplete)];
      assert map[Body := 0] - {Body} == map[] == Mk(None, 0);
      assert [] + [Data(Body, [b])] == [Data(Body, [b])];
      LoopEnd([b], Call(q, map[], events));
      LeftoversNone([b], events);
      FlattenConcat([Data(Body, [b])], [Note(MessageComplete)]);
      FlattenOne(Note(MessageComplete));
    }
  }

  lemma LeftoversNone(data: bytes, events: seq<Event>)
    ensures events + Leftovers(data, map[]) == events
  {
  }

  lemma TagSplit(part: Part, w: bytes)
    requires w != []
    ensures Tag(part, w) == [Piece(part, w[0])] + Tag(part, w[1..])
  {
  }

  lemma TagNone(part: Part)
    ensures Tag(part, []) == []
  {
  }

  lemma TakesFewer(p: Parser, k: nat)
    requires Takes(p, k)
    ensures k > 0 && Takes(p, 1)
  {
  }

  lemma BulkStep(p: Parser, k: nat)
    requires Takes(p, k) && k > 1
    ensures BulkNotes(p, 1) == []
    ensures Takes(BulkAfter(p, 1), k - 1) && BulkAfter(BulkAfter(p, 1), k - 1) == BulkAfter(p, k)
    ensures BulkNotes(BulkAfter(p, 1), k - 1) == BulkNotes(p, k)
  {
  }

  /** Body bytes come through one at a time as they do in bulk. */
  lemma {:induction false} BulkFeed(p: Parser, w: bytes)
    requires Takes(p, |w|)
    ensures Feed(p, w) == Fed(BulkAfter(p, |w|), Tag(Body, w) + BulkNotes(p, |w|), |w|, Ran)
    decreases |w|
  {
    hide Run, BulkAfter, BulkNotes, Takes, Flatten, Tag;
    TakesFewer(p, |w|);
    RunBodyByte(p, w[0]);
    TagSplit(Body, w);
    if |w| == 1 {
      assert w == [w[0]] && w[1..] == [] && Tag(Body, w[1..]) == [] by { TagNone(Body); }
    } else {
      BulkStep(p, |w|);
      BulkFeed(BulkAfter(p, 1), w[1..]);
    }
  }

  /** Call r, from position i on, did what f says; base is what went before.  A failure drops undelivered data. */
  predicate Agrees(r: Returned, f: Fed, i: nat, base: seq<Item>) {
    && r.p == f.p && r.n == i + f.n && r.stop == f.stop
    && Flatten(r.events) <= base + f.items
    && (!f.stop.Failed? || Loose(f.p.state) ==> Flatten(r.events) == base + f.items)
  }

  lemma LoopDone(data: bytes, c: Call, h: Option<Part>, m: nat)
    requires m <= |data| && c.marks == Mk(h, m)
    ensures MarksOk(c.marks, |data|)
    ensures Agrees(Loop(data, |data|, c), Fed(c.p, [], 0, Ran), |data|, Flatten(c.events) + Pend(data, h, m, |data|))
  {
    hide Loop, Leftovers, Flatten;
    LoopEnd(data, c);
    LeftoversOne(data, h, m);
    FlattenConcat(c.events, Leftovers(data, c.marks));
  }

  lemma FeedOver(p: Parser, s: bytes)
    requires s != [] && Run(p, [s[0]]).stop != Ran
    ensures var r := Run(p, [s[0]]);
            Feed(p, s) == Fed(r.p, Flatten(r.events), r.n, r.stop)
  {
    hide Run, Flatten;
  }

  lemma FeedOn(p: Parser, s: bytes)
    requires s != [] && Run(p, [s[0]]).stop == Ran
    ensures var r := Run(p, [s[0]]);
            var f := Feed(r.p, s[1..]);
            Feed(p, s) == Fed(f.p, Flatten(r.events) + f.items, 1 + f.n, f.stop)
  {
    hide Run, Flatten;
  }

  lemma AgreesLater(r: Returned, f: Fed, i: nat, k: nat, base: seq<Item>, items: seq<Item>)
    requires Agrees(r, f, i + k, base + items)
    ensures Agrees(r, Fed(f.p, items + f.items, k + f.n, f.stop), i, base)
  {
    assert base + items + f.items == base + (items + f.items);
  }

  lemma CountedState(p: Parser)
    ensures Counted(p).state == p.state
  {
  }

  /** Too many header bytes: the same in both. */
  lemma OverflowLoop(data: bytes, i: nat, c: Call)
    requires i < |data| && MarksOk(c.marks, i) && Overflows(Counted(c.p))
    ensures Loop(data, i, c) == Returned(Counted(c.p), c.events, i, Failed(HeaderOverflow))
  {
    hide Switch;
  }

  lemma CountedLoop(data: bytes, i: nat, c: Call)
    requires i < |data| && MarksOk(c.marks, i) && !Overflows(Counted(c.p))
    ensures Loop(data, i, c) == Switch(data, i, Call(Counted(c.p), c.marks, c.events))
  {
    hide Switch;
  }

  /** The loop at a byte in a state that is not a bulk state. */
  lemma PlainByte(data: bytes, i: nat, c: Call, h: Option<Part>, m: nat, base: seq<Item>)
    returns (h': Option<Part>, m': nat, events: seq<Event>)
    requires m <= i < |data| && c.marks == Mk(h, m) && HeldOk(h, c.p.state) && !BulkState(c.p.state)
    requires Flatten(c.events) + Pend(data, h, m, i) == base
    ensures MarksOk(c.marks, i) && ByteDone(data, i, Loop(data, i, c), Run(c.p, [data[i]]), base, h', m', events)
  {
    hide Loop, Switch, Pass;
    var p := Counted(c.p);
    CountedState(c.p);
    var s := Call(c.p, StartMarks(c.p.state), []);
    if Overflows(p) {
      OverflowLoop(data, i, c);
      OverflowLoop([data[i]], 0, s);
      h', m', events := h, m, [];
      assert Flatten(c.events) <= base + Flatten([]);
      if Loose(c.p.state) {
        LooseNone(h, c.p.state);
        assert Flatten(c.events) + [] == Flatten(c.events) && base + Flatten([]) == base by { FlattenNone(); }
      }
    } else {
      CountedLoop(data, i, c);
      CountedLoop([data[i]], 0, s);
      assert base + Flatten([]) == base;
      h', m', events := SwitchTogether(data, i, c.(p := p), s.(p := p), h, m, base);
    }
  }

  /** A body that the code's own assertions refuse. */
  lemma RefusedBody(data: bytes, i: nat, c: Call)
    requires i < |data| && MarksOk(c.marks, i) && BulkState(c.p.state) && !BodyAsserts(c.p)
    ensures Loop(data, i, c) == Returned(c.p, c.events, i, Failed(AssertionFailed))
  {
    hide Pass, Switch;
    LoopToSwitch(data, i, c);
    BodyPass(c.p, data[i], |data| - i);
    RefusedSwitch(data, i, c);
  }

  lemma RefusedSwitch(data: bytes, i: nat, c: Call)
    requires i < |data| && MarksOk(c.marks, i) && BulkState(c.p.state) && !BodyAsserts(c.p)
    requires Pass(c.p, data[i], |data| - i) == ArmBody(c.p, |data| - i)
    ensures Switch(data, i, c) == Returned(c.p, c.events, i, Failed(AssertionFailed))
  {
    hide Pass, Loop;
    assert c.events + [] + [] == c.events;
  }

  /** The data and notice after a stretch of body. */
  lemma BodyEvents(data: bytes, h: Option<Part>, m: nat, i: nat, k: nat)
    requires m <= i && i + k <= |data| && HeldOk(h, BodyIdentity)
    ensures var m' := if h.None? then i else m;
            Pend(data, Some(Body), m', i + k) == Pend(data, h, m, i) + Tag(Body, data[i..i + k])
  {
  }

  lemma HeldBulk(p: Parser, k: nat)
    requires Takes(p, k)
    ensures BulkNotes(p, k) == [] ==> HeldOk(Some(Body), BulkAfter(p, k).state)
    ensures BulkNotes(p, k) != [] ==> HeldOk(None, BulkAfter(p, k).state)
    ensures BulkNotes(p, k) != [] ==> BulkNotes(p, k) == [Noted(MessageComplete)]
  {
  }

  /** Where the loop is after a stretch of body. */
  lemma BulkBytes(data: bytes, i: nat, c: Call, h: Option<Part>, m: nat, base: seq<Item>, k: nat)
    returns (c': Call, h': Option<Part>, m': nat)
    requires m <= i < |data| && c.marks == Mk(h, m) && HeldOk(h, BodyIdentity)
    requires k == Taken(c.p, |data| - i) && Takes(c.p, k)
    requires Flatten(c.events) + Pend(data, h, m, i) == base
    ensures MarksOk(c.marks, i) && c'.p == BulkAfter(c.p, k) && m' <= i + k && c'.marks == Mk(h', m')
    ensures HeldOk(h', c'.p.state)
    ensures MarksOk(c'.marks, i + k) && Loop(data, i, c) == Loop(data, i + k, c')
    ensures Flatten(c'.events) + Pend(data, h', m', i + k) == base + (Tag(Body, data[i..i + k]) + BulkNotes(c.p, k))
  {
    hide Loop, BulkAfter, BulkNotes, Taken, Takes, Flatten, Tag;
    var w := Tag(Body, data[i..i + k]);
    m' := if h.None? then i else m;
    HeldBulk(c.p, k);
    BodyEvents(data, h, m, i, k);
    var marks := WithMark(c.marks, Some(Body), i);
    assert marks == Mk(Some(Body), m');
    if BulkNotes(c.p, k) == [] {
      BulkLoop(data, i, c, k);
      c', h' := Call(BulkAfter(c.p, k), marks, c.events), Some(Body);
      assert Flatten(c.events) + (Pend(data, h, m, i) + w) == base + (w + []);
    } else {
      IdentityEndLoop(data, i, c, k);
      var body := Data(Body, data[m'..i + k]);
      c' := Call(BulkAfter(c.p, k), marks - {Body}, c.events + [body] + [Note(MessageComplete)]);
      h' := None;
      FlattenConcat(c.events + [body], [Note(MessageComplete)]);
      FlattenConcat(c.events, [body]);
      FlattenOne(body);
      FlattenOne(Note(MessageComplete));
      assert Flatten(c.events) + (Pend(data, h, m, i) + w) + [Noted(MessageComplete)] + []
          == base + (w + [Noted(MessageComplete)]);
    }
  }

  /** The call on a buffer, told by the calls on its bytes. */
  lemma {:induction false} LoopIsFeed(data: bytes, i: nat, c: Call, h: Option<Part>, m: nat, base: seq<Item>)
    requires m <= i <= |data| && c.marks == Mk(h, m) && HeldOk(h, c.p.state)
    requires Flatten(c.events) + Pend(data, h, m, i) == base
    ensures MarksOk(c.marks, i) && Agrees(Loop(data, i, c), Feed(c.p, data[i..]), i, base)
    decreases |data| - i
  {
    hide Loop, Feed, Run, HeldOk, Flatten, BulkState, BodyAsserts, Agrees, ByteDone;
    if i == |data| {
      LoopDone(data, c, h, m);
      FeedNone(c.p);
      assert data[i..] == [];
    } else if !BulkState(c.p.state) {
      PlainIsFeed(data, i, c, h, m, base);
    } else {
      BulkIsFeed(data, i, c, h, m, base);
    }
  }

  lemma FeedNone(p: Parser)
    ensures Feed(p, []) == Fed(p, [], 0, Ran)
  {
  }

  lemma {:induction false} PlainIsFeed(data: bytes, i: nat, c: Call, h: Option<Part>, m: nat, base: seq<Item>)
    requires m <= i < |data| && c.marks == Mk(h, m) && HeldOk(h, c.p.state) && !BulkState(c.p.state)
    requires Flatten(c.events) + Pend(data, h, m, i) == base
    ensures MarksOk(c.marks, i) && Agrees(Loop(data, i, c), Feed(c.p, data[i..]), i, base)
    decreases |data| - i, 0
  {
    hide Loop, Feed, Run, HeldOk, Flatten, Agrees;
    var h', m', events := PlainByte(data, i, c, h, m, base);
    var x := Run(c.p, [data[i]]);
    var rest := data[i..];
    assert rest[0] == data[i] && rest[1..] == data[i + 1..];
    if x.stop == Ran {
      FeedOn(c.p, rest);
      var c' := Call(x.p, Mk(h', m'), events);
      LoopIsFeed(data, i + 1, c', h', m', base + Flatten(x.events));
      AgreesLater(Loop(data, i + 1, c'), Feed(x.p, data[i + 1..]), i, 1, base, Flatten(x.events));
    } else {
      FeedOver(c.p, rest);
      AgreesAtOnce(data, i, Loop(data, i, c), x, base, h', m', events);
    }
  }

  lemma AgreesAtOnce(data: bytes, i: nat, r: Returned, x: Returned, base: seq<Item>,
                     h: Option<Part>, m: nat, events: seq<Event>)
    requires i < |data| && x.stop != Ran && ByteDone(data, i, r, x, base, h, m, events)
    ensures Agrees(r, Fed(x.p, Flatten(x.events), x.n, x.stop), i, base)
  {
    hide Loop, Flatten;
  }

  lemma {:induction false} BulkIsFeed(data: bytes, i: nat, c: Call, h: Option<Part>, m: nat, base: seq<Item>)
    requires m <= i < |data| && c.marks == Mk(h, m) && HeldOk(h, c.p.state) && BulkState(c.p.state)
    requires Flatten(c.events) + Pend(data, h, m, i) == base
    ensures MarksOk(c.marks, i) && Agrees(Loop(data, i, c), Feed(c.p, data[i..]), i, base)
    decreases |data| - i, 0
  {
    hide Loop, Feed, Run, Flatten, BodyAsserts, Taken;
    var rest := data[i..];
    if BodyAsserts(c.p) {
      var k := Taken(c.p, |data| - i);
      TakenTakes(c.p, |data| - i);
      HeldInBody(h, c.p.state);
      var c', h', m' := BulkBytes(data, i, c, h, m, base, k);
      var w := data[i..i + k];
      BulkFeed(c.p, w);
      assert rest == w + data[i + k..];
      FeedConcat(c.p, w, data[i + k..]);
      var items := Tag(Body, w) + BulkNotes(c.p, k);
      LoopIsFeed(data, i + k, c', h', m', base + items);
      AgreesLater(Loop(data, i + k, c'), Feed(c'.p, data[i + k..]), i, k, base, items);
    } else {
      RefusedBody(data, i, c);
      RefusedBody([data[i]], 0, Call(c.p, StartMarks(c.p.state), []));
      RunIsLoop(c.p, [data[i]]);
      FeedOver(c.p, rest);
      assert base + Flatten([]) == base by { FlattenNone(); }
    }
  }

  lemma FlattenNone()
    ensures Flatten([]) == []
  {
  }

  lemma RunIsLoop(p: Parser, data: bytes)
    ensures MarksOk(StartMarks(p.state), 0) && Run(p, data) == Loop(data, 0, Call(p, StartMarks(p.state), []))
  {
  }

  lemma HeldInBody(h: Option<Part>, s: State)
    requires BulkState(s) && HeldOk(h, s)
    ensures HeldOk(h, BodyIdentity)
  {
  }

  lemma TakenTakes(p: Parser, avail: nat)
    requires avail > 0 && BulkState(p.state) && BodyAsserts(p)
    ensures Takes(p, Taken(p, avail))
  {
  }

  // ----- Cutting buffers -----

  /** http_parser_execute on a buffer, told byte by byte: callbacks up to merging of adjacent data. */
  lemma BatchIsBytes(p: Parser, data: bytes)
    ensures Agrees(Run(p, data), Feed(p, data), 0, [])
  {
    hide Loop, Feed, Flatten, Agrees;
    var h := PartOf(p.state);
    RunIsLoop(p, data);
    FlattenNone();
    assert StartMarks(p.state) == Mk(h, 0) && data[0..] == data;
    LoopIsFeed(data, 0, Call(p, StartMarks(p.state), []), h, 0, []);
  }

  /**
   * Executing a then b comes to the same as executing a + b: registers, error,
   * bytes taken and, unless there is an error, callbacks.
   */
  lemma SplitInvariance(p: Parser, a: bytes, b: bytes)
    ensures var whole, x := Run(p, a + b), Run(p, a);
            var y := Run(x.p, b);
            if x.stop != Ran then
              && whole.p == x.p && whole.stop == x.stop && whole.n == x.n
              && (x.stop == Left ==> Flatten(whole.events) == Flatten(x.events))
            else
              && x.n == |a|
              && whole.p == y.p && whole.stop == y.stop && whole.n == |a| + y.n
              && (!y.stop.Failed? ==> Flatten(whole.events) == Flatten(x.events) + Flatten(y.events))
  {
    hide Run, Feed, Flatten;
    BatchIsBytes(p, a + b);
    BatchIsBytes(p, a);
    FeedConcat(p, a, b);
    if Feed(p, a).stop == Ran {
      BatchIsBytes(Feed(p, a).p, b);
    }
  }

  /** One call after the other, until one does not take its whole buffer. */
  function RunAll(p: Parser, chunks: seq<bytes>): Fed
    decreases |chunks|
  {
    if chunks == [] then Fed(p, [], 0, Ran)
    else
      var r := Run(p, chunks[0]);
      if r.stop != Ran then Fed(r.p, Flatten(r.events), r.n, r.stop)
      else
        var f := RunAll(r.p, chunks[1..]);
        Fed(f.p, Flatten(r.events) + f.items, r.n + f.n, f.stop)
  }

  /** Calls of http_parser_execute in a row, where an empty buffer tells the end of the stream. */
  function ExecuteAll(p: Parser, buffers: seq<bytes>): Fed
    decreases |buffers|
  {
    if buffers == [] then Fed(p, [], 0, Ran)
    else
      var r := ExecuteSpec(p, buffers[0]);
      if r.stop != Ran then Fed(r.p, Flatten(r.events), r.n, r.stop)
      else
        var f := ExecuteAll(r.p, buffers[1..]);
        Fed(f.p, Flatten(r.events) + f.items, r.n + f.n, f.stop)
  }

  /** As long as the stream does not end, these are the calls of RunAll. */
  lemma {:induction false} ExecuteChunks(p: Parser, buffers: seq<bytes>)
    requires [] !in buffers
    ensures ExecuteAll(p, buffers) == RunAll(p, buffers)
    decreases |buffers|
  {
    hide Run, Flatten;
    if buffers != [] && Run(p, buffers[0]).stop == Ran {
      ExecuteChunks(Run(p, buffers[0]).p, buffers[1..]);
    }
  }

  /** The same but for data callbacks missing before an error. */
  predicate SameRun(f: Fed, g: Fed) {
    && f.p == g.p && f.n == g.n && f.stop == g.stop
    && f.items <= g.items
    && (!g.stop.Failed? || Loose(g.p.state) ==> f.items == g.items)
  }

  lemma {:induction false} RunAllIsFeed(p: Parser, chunks: seq<bytes>)
    ensures SameRun(RunAll(p, chunks), Feed(p, Concat(chunks)))
    decreases |chunks|
  {
    hide Run, Feed, Flatten;
    if chunks == [] {
      FeedNone(p);
    } else {
      var a, rest := chunks[0], Concat(chunks[1..]);
      BatchIsBytes(p, a);
      FeedConcat(p, a, rest);
      if Feed(p, a).stop == Ran {
        RunAllIsFeed(Feed(p, a).p, chunks[1..]);
      }
    }
  }

  /** However a stream is cut into calls, the parser ends in the same state, after the same callbacks. */
  lemma AnyDivision(p: Parser, chunks: seq<bytes>, others: seq<bytes>)
    requires Concat(chunks) == Concat(others)
    ensures var f, g := RunAll(p, chunks), RunAll(p, others);
            f.p == g.p && f.n == g.n && f.stop == g.stop
            && (!f.stop.Failed? || Loose(f.p.state) ==> f.items == g.items)
  {
    RunAllIsFeed(p, chunks);
    RunAllIsFeed(p, others);
    hide RunAll, Feed, Concat;
  }
}
