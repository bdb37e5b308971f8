/** One byte of a buffer does what it does in a call of its own. */
module HttpSplit {
  import opened Bytes
  import opened HttpSyntax
  import opened HttpMachine
  import opened HttpExecute

  /** A callback trace with data callbacks taken apart: cutting or merging adjacent data callbacks does not show. */
  datatype Item = Piece(part: Part, b: byte) | Noted(notice: Notice)

  function Tag(part: Part, s: bytes): seq<Item> {
    seq(|s|, i requires 0 <= i < |s| => Piece(part, s[i]))
  }

  function ItemsOf(e: Event): seq<Item> {
    match e
    case Data(part, s) => Tag(part, s)
    case Note(n) => [Noted(n)]
  }

  function Flatten(events: seq<Event>): seq<Item> {
    if events == [] then [] else ItemsOf(events[0]) + Flatten(events[1..])
  }

  lemma {:induction false} FlattenConcat(a: seq<Event>, b: seq<Event>)
    ensures Flatten(a + b) == Flatten(a) + Flatten(b)
  {
    if a == [] {
      assert a + b == b;
    } else {
      assert (a + b)[1..] == a[1..] + b;
      FlattenConcat(a[1..], b);
    }
  }

  lemma FlattenOne(e: Event)
    ensures Flatten([e]) == ItemsOf(e)
  {
    assert [e][1..] == [];
  }

  // ----- Which mark is set in which state -----

  predicate BodyState(s: State) {
    s.ChunkData? || s.ChunkDataAlmostDone? || s.BodyIdentity? || s.BodyIdentityEof?
  }

  /** h: the part whose mark is set in state s. */
  predicate HeldOk(h: Option<Part>, s: State) {
    if PartOf(s).Some? then h == PartOf(s)
    else if BodyState(s) then h == None || h == Some(Body)
    else h == None
  }

  /** No data is under a mark in state s. */
  predicate Loose(s: State) {
    PartOf(s).None? && !BodyState(s)
  }

  function Marked(a: Arm, h: Option<Part>): Option<Part> {
    if a.mark.Some? && h.None? then a.mark else h
  }

  function HeldAfter(a: Arm, h: Option<Part>): Option<Part> {
    if a.flush.Some? && a.flush == Marked(a, h) then None else Marked(a, h)
  }

  /** What a pass may do to marks. */
  predicate ArmHeld(a: Arm, h: Option<Part>) {
    && (a.mark.Some? && h.Some? ==> a.mark == h)
    && (a.flush.Some? && Marked(a, h).Some? ==> a.flush == Marked(a, h))
    && (a.notice.Some? ==> Marked(a, h) == None)
    && (!a.control.Fail? ==> HeldOk(HeldAfter(a, h), a.p.state))
    && (a.control.Fail? && h.Some? ==> !Loose(a.p.state))
    && (a.control == Exit ==> HeldAfter(a, h) == None)
  }

  lemma StartHeld(p: Parser, ch: byte)
    requires GroupOf(p.state) == StartGroup
    ensures ArmHeld(ArmStart(p, ch), None)
  {
  }

  lemma ResponseHeld(p: Parser, ch: byte, h: Option<Part>)
    requires GroupOf(p.state) == ResponseGroup && HeldOk(h, p.state)
    ensures ArmHeld(ArmResponse(p, ch), h)
  {
  }

  lemma MethodHeld(p: Parser, ch: byte)
    requires GroupOf(p.state) == MethodGroup
    ensures ArmHeld(ArmMethod(p, ch), None)
  {
  }

  lemma UrlHeld(p: Parser, ch: byte, h: Option<Part>)
    requires GroupOf(p.state) == UrlGroup && HeldOk(h, p.state)
    ensures ArmHeld(ArmUrl(p, ch), h)
  {
  }

  lemma VersionHeld(p: Parser, ch: byte)
    requires GroupOf(p.state) == VersionGroup
    ensures ArmHeld(ArmVersion(p, ch), None)
  {
  }

  lemma FieldHeld(p: Parser, ch: byte, h: Option<Part>)
    requires GroupOf(p.state) == FieldGroup && HeldOk(h, p.state)
    ensures ArmHeld(ArmField(p, ch), h)
  {
  }

  lemma ValueStartHeld(p: Parser, ch: byte)
    ensures ArmHeld(ArmValueStart(p, ch), None)
  {
  }

  lemma ValueCharHeld(p: Parser, ch: byte)
    requires p.state.HeaderValue?
    ensures ArmHeld(ValueChar(p, ch), Some(Value))
  {
  }

  lemma ValueHeld(p: Parser, ch: byte, h: Option<Part>)
    requires GroupOf(p.state) == ValueGroup && HeldOk(h, p.state)
    ensures ArmHeld(ArmValue(p, ch), h)
  {
    hide ArmValueStart, ValueChar;
    ValueStartHeld(p, ch);
    if p.state.HeaderValue? {
      ValueCharHeld(p, ch);
    }
  }

  lemma EndHeld(p: Parser, ch: byte)
    requires GroupOf(p.state) == EndGroup
    ensures ArmHeld(ArmHeadersEnd(p, ch), None)
  {
  }

  lemma ChunkHeld(p: Parser, ch: byte, h: Option<Part>)
    requires GroupOf(p.state) == ChunkGroup && HeldOk(h, p.state)
    ensures ArmHeld(ArmChunk(p, ch), h)
  {
  }

  lemma BodyHeld(p: Parser, avail: nat, h: Option<Part>)
    requires GroupOf(p.state) == BodyGroup && HeldOk(h, p.state) && avail > 0
    ensures ArmHeld(ArmBody(p, avail), h)
  {
  }

  lemma PassHeld(p: Parser, ch: byte, avail: nat, h: Option<Part>)
    requires HeldOk(h, p.state) && avail > 0
    ensures ArmHeld(Pass(p, ch, avail), h)
  {
    match GroupOf(p.state)
    case StartGroup => StartHeld(p, ch);
    case ResponseGroup => ResponseHeld(p, ch, h);
    case MethodGroup => MethodHeld(p, ch);
    case UrlGroup => UrlHeld(p, ch, h);
    case VersionGroup => VersionHeld(p, ch);
    case FieldGroup => FieldHeld(p, ch, h);
    case ValueGroup => ValueHeld(p, ch, h);
    case EndGroup => EndHeld(p, ch);
    case ChunkGroup => ChunkHeld(p, ch, h);
    case BodyGroup => BodyHeld(p, avail, h);
  }

  /** Only bulk states look at how many bytes are left. */
  lemma PassPlain(p: Parser, ch: byte, avail: nat)
    requires avail > 0 && !BulkState(p.state)
    ensures Pass(p, ch, avail) == Pass(p, ch, 1) && Taken(p, avail) == 1 && !Inclusive(p)
  {
    hide ArmStart, ArmResponse, ArmMethod, ArmUrl, ArmVersion, ArmField, ArmValue, ArmHeadersEnd, ArmChunk;
  }

  // ----- One byte -----

  function Mk(h: Option<Part>, m: nat): Marks {
    if h.Some? then map[h.value := m] else map[]
  }

  /** Bytes under the mark, not yet delivered. */
  function Pend(data: bytes, h: Option<Part>, m: nat, i: nat): seq<Item>
    requires m <= i <= |data|
  {
    if h.Some? then Tag(h.value, data[m..i]) else []
  }

  function Notes(a: Arm): seq<Item> {
    if a.notice.Some? then [Noted(a.notice.value)] else []
  }

  lemma AfterArmMarks(data: bytes, i: nat, c: Call, a: Arm, h: Option<Part>, m: nat)
    requires m <= i <= |data| && c.marks == Mk(h, m) && ArmHeld(a, h)
    ensures AfterArm(data, i, i, c, a).p == a.p
    ensures AfterArm(data, i, i, c, a).marks == Mk(HeldAfter(a, h), if h.None? then i else m)
  {
    assert WithMark(c.marks, a.mark, i) == Mk(Marked(a, h), if h.None? then i else m);
  }

  lemma AfterArmEvents(data: bytes, i: nat, c: Call, a: Arm, h: Option<Part>, m: nat)
    requires m <= i <= |data| && c.marks == Mk(h, m) && ArmHeld(a, h)
    ensures Flatten(AfterArm(data, i, i, c, a).events) + Pend(data, HeldAfter(a, h), if h.None? then i else m, i) ==
            Flatten(c.events) + Pend(data, h, m, i) + Notes(a)
  {
    var m' := if h.None? then i else m;
    var marks := WithMark(c.marks, a.mark, i);
    assert marks == Mk(Marked(a, h), m');
    var flushed := if a.flush.Some? then Delivery(data, marks, a.flush.value, i) else [];
    var noted := if a.notice.Some? then [Note(a.notice.value)] else [];
    FlattenConcat(c.events, flushed);
    FlattenConcat(c.events + flushed, noted);
    if noted != [] {
      FlattenOne(noted[0]);
    }
    if flushed != [] {
      FlattenOne(flushed[0]);
    }
  }

  /** Marks and trace after a pass over one byte in a state that is not a bulk state. */
  lemma AfterPlainPass(data: bytes, i: nat, c: Call, h: Option<Part>, m: nat)
    requires i < |data| && m <= i && c.marks == Mk(h, m)
    requires !BulkState(c.p.state) && ArmHeld(Pass(c.p, data[i], |data| - i), h)
    ensures var a := Pass(c.p, data[i], |data| - i);
            var r := AfterPass(data, i, c);
            var m' := if h.None? then i else m;
            && r.p == a.p && r.marks == Mk(HeldAfter(a, h), m')
            && Flatten(r.events) + Pend(data, HeldAfter(a, h), m', i) ==
               Flatten(c.events) + Pend(data, h, m, i) + Notes(a)
  {
    hide Pass, AfterArm;
    PassPlain(c.p, data[i], |data| - i);
    var a := Pass(c.p, data[i], |data| - i);
    AfterArmMarks(data, i, c, a, h, m);
    AfterArmEvents(data, i, c, a, h, m);
  }

  /** How far the calls on a buffer and on its byte at i have come: base is what the bytes before i yielded. */
  predicate Together(data: bytes, i: nat, c: Call, s: Call, h: Option<Part>, m: nat, base: seq<Item>)
    requires m <= i < |data|
  {
    && c.p == s.p && c.marks == Mk(h, m)
    && (s.marks == Mk(h, 0) || (c.p.state.ChunkDataAlmostDone? && s.marks == map[]))
    && HeldOk(h, c.p.state) && !BulkState(c.p.state)
    && Flatten(c.events) + Pend(data, h, m, i) == base + Flatten(s.events)
  }

  /**
   * What the byte at i does to the call on the buffer, told by the call on that
   * byte alone; if the call goes on, it does so with mark m for part h.
   */
  predicate ByteDone(data: bytes, i: nat, r: Returned, x: Returned, base: seq<Item>,
                     h: Option<Part>, m: nat, events: seq<Event>)
    requires i < |data|
  {
    match x.stop
    case Failed(_) =>
      && r.p == x.p && r.n == i && x.n == 0 && r.stop == x.stop
      && Flatten(r.events) <= base + Flatten(x.events)
      && (Loose(x.p.state) ==> Flatten(r.events) == base + Flatten(x.events))
    case Left =>
      && r.p == x.p && r.n == i + 1 && x.n == 1 && r.stop == x.stop
      && Flatten(r.events) == base + Flatten(x.events)
    case Ran =>
      && m <= i + 1 && HeldOk(h, x.p.state)
      && r == Loop(data, i + 1, Call(x.p, Mk(h, m), events))
      && Flatten(events) + Pend(data, h, m, i + 1) == base + Flatten(x.events)
  }

  lemma AgainPlain(p: Parser, ch: byte, avail: nat)
    requires avail > 0 && Pass(p, ch, avail).control == Again
    ensures !BulkState(Pass(p, ch, avail).p.state)
    ensures !Pass(p, ch, avail).p.state.ChunkDataAlmostDone?
  {
  }

  lemma CrEndsChunk(p: Parser, ch: byte, avail: nat)
    requires avail > 0 && p.state.ChunkDataAlmostDone?
    ensures var a := Pass(p, ch, avail);
            a.control.Fail? || (a.control == Break && a.flush == Some(Body))
  {
  }

  lemma PendGrows(data: bytes, h: Option<Part>, m: nat, i: nat)
    requires m <= i < |data|
    ensures Pend(data, h, m, i + 1) == Pend(data, h, m, i) + Pend([data[i]], h, 0, 1)
  {
    assert [data[i]][0..1] == [data[i]];
    assert data[m..i + 1] == data[m..i] + [data[i]];
  }

  lemma LeftoversOne(data: bytes, h: Option<Part>, m: nat)
    requires m <= |data|
    ensures Flatten(Leftovers(data, Mk(h, m))) == Pend(data, h, m, |data|)
  {
    if h.Some? {
      var e := Data(h.value, data[m..|data|]);
      var marks := Mk(h, m);
      assert forall k: Part :: Delivery(data, marks, k, |data|) == if k == h.value then [e] else [];
      assert Leftovers(data, marks) == [e];
      FlattenOne(e);
    } else {
      assert Leftovers(data, Mk(h, m)) == [];
    }
  }

  lemma Level(x: seq<Item>, pend: seq<Item>, x': seq<Item>, pend': seq<Item>, y: seq<Item>, y': seq<Item>,
              base: seq<Item>, notes: seq<Item>)
    requires x' + pend' == x + pend + notes && x + pend == base + y && y' + [] == y + [] + notes
    ensures x' + pend' == base + y'
  {
    assert y' + [] == y' && y + [] == y;
    assert base + y + notes == base + (y + notes);
  }

  lemma HeldNone()
    ensures HeldOk(None, ChunkDataAlmostDone)
  {
  }

  lemma LoopEnd(data: bytes, c: Call)
    requires MarksOk(c.marks, |data|) && |c.marks| <= 1
    ensures Loop(data, |data|, c) == Returned(c.p, c.events + Leftovers(data, c.marks), |data|, Ran)
  {
  }

  /** One pass keeps the two calls together, unless it ends the byte; a is the pass, hs what the second call holds. */
  lemma PassTogether(data: bytes, i: nat, c: Call, s: Call, h: Option<Part>, m: nat, base: seq<Item>,
                     a: Arm, hs: Option<Part>)
    requires m <= i < |data| && MarksOk(c.marks, i) && MarksOk(s.marks, 0)
    requires Together(data, i, c, s, h, m, base) && s.marks == Mk(hs, 0)
    requires a == Pass(c.p, data[i], |data| - i) == Pass(c.p, data[i], 1) && ArmHeld(a, h) && ArmHeld(a, hs)
    ensures var c', s' := AfterPass(data, i, c), AfterPass([data[i]], 0, s);
            var m' := if h.None? then i else m;
            && c'.p == s'.p == a.p
            && c'.marks == Mk(HeldAfter(a, h), m') && s'.marks == Mk(HeldAfter(a, hs), 0)
            && Flatten(c'.events) + Pend(data, HeldAfter(a, h), m', i) == base + Flatten(s'.events)
  {
    hide Pass, AfterPass, ArmHeld, HeldOk, PartOf, BodyState, Notes, Flatten, HeldAfter;
    var one := [data[i]];
    AfterPlainPass(data, i, c, h, m);
    AfterPlainPass(one, 0, s, hs, 0);
    var m' := if h.None? then i else m;
    var c', s' := AfterPass(data, i, c), AfterPass(one, 0, s);
    assert Pend(one, hs, 0, 0) == [] && Pend(one, HeldAfter(a, hs), 0, 0) == [];
    Level(Flatten(c.events), Pend(data, h, m, i), Flatten(c'.events), Pend(data, HeldAfter(a, h), m', i),
          Flatten(s.events), Flatten(s'.events), base, Notes(a));
  }

  lemma SamePass(data: bytes, i: nat, c: Call, s: Call, h: Option<Part>, m: nat, base: seq<Item>)
    returns (a: Arm, hs: Option<Part>)
    requires m <= i < |data|
    requires Together(data, i, c, s, h, m, base)
    ensures a == Pass(c.p, data[i], |data| - i) == Pass(c.p, data[i], 1) && Taken(c.p, |data| - i) == 1
    ensures ArmHeld(a, h) && ArmHeld(a, hs) && s.marks == Mk(hs, 0)
    ensures !a.control.Fail? ==> HeldOk(HeldAfter(a, h), a.p.state) && HeldAfter(a, hs) == HeldAfter(a, h)
    ensures a.control.Fail? && h.Some? ==> !Loose(a.p.state)
    ensures a.control == Exit ==> HeldAfter(a, h) == None
  {
    hide Pass, ArmHeld, HeldOk, HeldAfter;
    HeldNone();
    a := Pass(c.p, data[i], 1);
    hs := if s.marks == Mk(h, 0) then h else None;
    PassPlain(c.p, data[i], |data| - i);
    PassHeld(c.p, data[i], 1, h);
    PassHeld(s.p, data[i], 1, hs);
    ControlHeld(a, h, hs, c.p, data[i]);
  }

  /** The byte is done, and the call on it delivers what it holds. */
  lemma BreakTogether(data: bytes, i: nat, c': Call, s': Call, h: Option<Part>, m: nat, base: seq<Item>)
    requires m <= i < |data| && c'.p == s'.p && c'.marks == Mk(h, m) && s'.marks == Mk(h, 0)
    requires MarksOk(c'.marks, i + 1) && MarksOk(s'.marks, 1) && HeldOk(h, c'.p.state)
    requires Flatten(c'.events) + Pend(data, h, m, i) == base + Flatten(s'.events)
    ensures ByteDone(data, i, Loop(data, i + 1, c'), Loop([data[i]], 1, s'), base, h, m, c'.events)
  {
    hide Loop, Leftovers, Flatten, HeldOk;
    var one := [data[i]];
    LoopEnd(one, s');
    PendGrows(data, h, m, i);
    LeftoversOne(one, h, 0);
    FlattenConcat(s'.events, Leftovers(one, s'.marks));
    var pend, grown := Pend(data, h, m, i), Pend(one, h, 0, 1);
    assert Flatten(c'.events) + (pend + grown) == Flatten(c'.events) + pend + grown;
    assert base + Flatten(s'.events) + grown == base + (Flatten(s'.events) + grown);
  }

  lemma {:induction false} SwitchTogether(
    data: bytes, i: nat, c: Call, s: Call, h: Option<Part>, m: nat, base: seq<Item>)
    returns (h': Option<Part>, m': nat, events: seq<Event>)
    requires m <= i < |data| && MarksOk(c.marks, i) && MarksOk(s.marks, 0)
    requires Together(data, i, c, s, h, m, base)
    ensures ByteDone(data, i, Switch(data, i, c), Switch([data[i]], 0, s), base, h', m', events)
    decreases Rank(c.p.state)
  {
    hide Pass, AfterPass, Loop, ArmHeld, HeldOk, PartOf, BodyState, Flatten, HeldAfter, Taken;
    var a, hs := SamePass(data, i, c, s, h, m, base);
    PassTogether(data, i, c, s, h, m, base, a, hs);
    var c', s' := AfterPass(data, i, c), AfterPass([data[i]], 0, s);
    h', m', events := HeldAfter(a, h), if h.None? then i else m, c'.events;
    match a.control
    case Again =>
      AgainPlain(c.p, data[i], 1);
      h', m', events := SwitchTogether(data, i, c', s', h', m', base);
    case Break =>
      BreakTogether(data, i, c', s', h', m', base);
    case Exit =>
      assert Pend(data, None, m', i) == [];
    case Fail(e) =>
      assert Flatten(c'.events) <= Flatten(c'.events) + Pend(data, h', m', i);
      if h.None? {
        assert Pend(data, h', i, i) == [] && Flatten(c'.events) + [] == Flatten(c'.events);
      }
  }

  lemma LooseNone(h: Option<Part>, s: State)
    requires HeldOk(h, s) && Loose(s)
    ensures h.None?
  {
  }

  /** What the controls say about the marks. */
  lemma ControlHeld(a: Arm, h: Option<Part>, hs: Option<Part>, p: Parser, ch: byte)
    requires a == Pass(p, ch, 1) && ArmHeld(a, h) && ArmHeld(a, hs)
    requires hs == h || (hs == None && p.state.ChunkDataAlmostDone?)
    ensures !a.control.Fail? ==> HeldOk(HeldAfter(a, h), a.p.state) && HeldAfter(a, hs) == HeldAfter(a, h)
    ensures a.control.Fail? && h.Some? ==> !Loose(a.p.state)
    ensures a.control == Exit ==> HeldAfter(a, h) == None
  {
    hide Pass;
    if p.state.ChunkDataAlmostDone? {
      CrEndsChunk(p, ch, 1);
    }
  }
}
