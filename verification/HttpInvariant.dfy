/** What every reachable parser state satisfies: the assertions of http_parser_execute never fail. */
module HttpInvariant {
  import opened Bytes
  import opened HttpSyntax
  import opened HttpMachine
  import opened HttpExecute
  import opened HttpSplit
  import opened HttpBatch

  /** The word a header state is in the middle of. */
  function WordOf(h: HeaderState): Option<bytes> {
    match h
    case MatchingConnection => Some(CONNECTION)
    case MatchingProxyConnection => Some(PROXY_CONNECTION)
    case MatchingContentLength => Some(CONTENT_LENGTH)
    case MatchingTransferEncoding => Some(TRANSFER_ENCODING)
    case MatchingUpgrade => Some(UPGRADE)
    case MatchingChunked => Some(CHUNKED)
    case MatchingKeepAlive => Some(KEEP_ALIVE)
    case MatchingClose => Some(CLOSE)
    case _ => None
  }

  /** Header states inside a field name, and how far they have matched. */
  predicate FieldSound(h: HeaderState, index: nat) {
    match h
    case C => index == 0
    case CO => index == 1
    case CON => index == 2
    case General => true
    case ConnectionHeader => true
    case ContentLengthHeader => true
    case TransferEncodingHeader => true
    case UpgradeHeader => true
    case MatchingChunked => false
    case MatchingKeepAlive => false
    case MatchingClose => false
    case _ => WordOf(h).Some? && index + 1 < |WordOf(h).value|
  }

  /** Header states inside a value. */
  predicate ValueSound(h: HeaderState, index: nat) {
    match h
    case General => true
    case ContentLengthHeader => true
    case ChunkedValue => true
    case KeepAliveValue => true
    case CloseValue => true
    case MatchingChunked => index + 1 < |CHUNKED|
    case MatchingKeepAlive => index + 1 < |KEEP_ALIVE|
    case MatchingClose => index + 1 < |CLOSE|
    case _ => false
  }

  /** State against flags and length; n is the header count at the first byte of a chunk size. */
  predicate BodySound(p: Parser, n: nat) {
    match p.state
    case ChunkSizeStart => p.flags.chunked && p.nread == n
    case ChunkSize => p.flags.chunked && p.contentLength < ULLONG_MAX
    case ChunkParameters => p.flags.chunked && p.contentLength < ULLONG_MAX
    case ChunkSizeAlmostDone => p.flags.chunked && p.contentLength < ULLONG_MAX
    case ChunkData => p.flags.chunked && 0 < p.contentLength < ULLONG_MAX
    case ChunkDataAlmostDone => p.flags.chunked && p.contentLength == 0
    case ChunkDataDone => p.flags.chunked
    case BodyIdentity => 0 < p.contentLength < ULLONG_MAX
    case _ => true
  }

  /** The numbers of the start line fit their three digits. */
  predicate LineSound(l: Line) {
    l.major <= 999 && l.minor <= 999 && l.status <= 999
  }

  /** The invariant; n as in BodySound. */
  predicate Sound(p: Parser, n: nat) {
    && (p.state.HeaderField? ==> FieldSound(p.header, p.index))
    && (p.state.HeaderValue? ==> ValueSound(p.header, p.index))
    && (p.state.ReqMethod? ==> 1 <= p.index <= |MethodName(p.line.verb)|)
    && BodySound(p, n) && LineSound(p.line)
    && p.index <= 17 && p.nread <= MAX_HEADER_SIZE
  }

  /** A pass fails no assertion and keeps the invariant. */
  predicate Kept(a: Arm) {
    match a.control
    case Fail(e) => e != AssertionFailed
    case Again => Sound(a.p, 1)
    case Break => Sound(a.p, 0)
    case Exit => Sound(a.p, 0)
  }

  lemma StartKept(p: Parser, ch: byte)
    requires GroupOf(p.state) == StartGroup && Sound(p, 1)
    ensures Kept(ArmStart(p, ch))
  {
    hide FirstGuess, MethodName, FieldSound, ValueSound;
    NamesShort(HEAD);
    if FirstGuess(ch).Some? {
      NamesShort(FirstGuess(ch).value);
    }
  }

  lemma ResponseKept(p: Parser, ch: byte)
    requires GroupOf(p.state) == ResponseGroup && Sound(p, 1)
    ensures Kept(ArmResponse(p, ch))
  {
    hide Shifted, FieldSound, ValueSound, MethodName;
  }

  lemma NamesShort(m: Method)
    ensures 3 <= |MethodName(m)| <= 11
  {
  }

  lemma MethodKept(p: Parser, ch: byte)
    requires GroupOf(p.state) == MethodGroup && Sound(p, 1)
    ensures Kept(ArmMethod(p, ch))
  {
    hide MethodName, NextGuess;
    NamesShort(p.line.verb);
    if NextGuess(p.line.verb, p.index, ch).Some? {
      NextGuessAgrees(p.line.verb, p.index, ch);
      NamesShort(NextGuess(p.line.verb, p.index, ch).value);
    }
  }

  lemma UrlKept(p: Parser, ch: byte)
    requires GroupOf(p.state) == UrlGroup && Sound(p, 1)
    ensures Kept(ArmUrl(p, ch))
  {
    hide ParseUrlChar;
  }

  lemma VersionKept(p: Parser, ch: byte)
    requires GroupOf(p.state) == VersionGroup && Sound(p, 1)
    ensures Kept(ArmVersion(p, ch))
  {
    hide Shifted, FieldSound, ValueSound, MethodName;
  }

  lemma FieldCharKept(p: Parser, ch: byte)
    requires p.state.HeaderField? && Sound(p, 1)
    ensures FieldChar(p, ch).Some? && Sound(FieldChar(p, ch).value, 0)
  {
    hide Token;
  }

  lemma FieldKept(p: Parser, ch: byte)
    requires GroupOf(p.state) == FieldGroup && Sound(p, 1)
    ensures Kept(ArmField(p, ch))
  {
    hide Token, FieldChar;
    if p.state.HeaderField? {
      FieldCharKept(p, ch);
    }
  }

  lemma ValueStartKept(p: Parser, ch: byte)
    requires Sound(p, 1)
    ensures Kept(ArmValueStart(p, ch))
  {
    hide Lower;
  }

  lemma ValueCharKept(p: Parser, ch: byte)
    requires p.state.HeaderValue? && Sound(p, 1)
    ensures Kept(ValueChar(p, ch))
  {
    hide Lower;
  }

  lemma ValueKept(p: Parser, ch: byte)
    requires GroupOf(p.state) == ValueGroup && Sound(p, 1)
    ensures Kept(ArmValue(p, ch))
  {
    hide ArmValueStart, ValueChar;
    ValueStartKept(p, ch);
    if p.state.HeaderValue? {
      ValueCharKept(p, ch);
    }
  }

  lemma EndKept(p: Parser, ch: byte)
    requires GroupOf(p.state) == EndGroup && Sound(p, 1)
    ensures Kept(ArmHeadersEnd(p, ch))
  {
    hide ShouldKeepAlive;
  }

  /** The accumulated length is exact: it neither wraps nor reaches the value that stands for no length. */
  lemma AccumulateExact(p: Parser, base: nat, digit: nat)
    requires digit < base && (base == 10 || base == 16)
    ensures var a := Accumulate(p, base, digit);
            if a.control.Fail? then p.contentLength * base + digit > ULLONG_MAX - 2 * base
            else a.p.contentLength == p.contentLength * base + digit < ULLONG_MAX
  {
  }

  lemma ChunkKept(p: Parser, ch: byte)
    requires GroupOf(p.state) == ChunkGroup && Sound(p, 1)
    ensures Kept(ArmChunk(p, ch))
  {
    hide Unhex, Accumulate;
    if p.state.ChunkSize? && Unhex(ch) != -1 {
      AccumulateKept(p, Unhex(ch));
    }
  }

  lemma AccumulateKept(p: Parser, digit: nat)
    requires p.state.ChunkSize? && Sound(p, 1) && digit < 16
    ensures Kept(Accumulate(p, 16, digit))
  {
    AccumulateExact(p, 16, digit);
  }

  lemma BodyKept(p: Parser, avail: nat)
    requires GroupOf(p.state) == BodyGroup && Sound(p, 1) && avail > 0
    ensures Kept(ArmBody(p, avail))
  {
    hide ShouldKeepAlive;
  }

  lemma PassKept(p: Parser, ch: byte, avail: nat)
    requires Sound(p, 1) && avail > 0
    ensures Kept(Pass(p, ch, avail))
  {
    hide Sound, Kept, ArmStart, ArmResponse, ArmMethod, ArmUrl, ArmVersion, ArmField, ArmValue, ArmHeadersEnd,
      ArmChunk, ArmBody;
    match GroupOf(p.state)
    case StartGroup => StartKept(p, ch);
    case ResponseGroup => ResponseKept(p, ch);
    case MethodGroup => MethodKept(p, ch);
    case UrlGroup => UrlKept(p, ch);
    case VersionGroup => VersionKept(p, ch);
    case FieldGroup => FieldKept(p, ch);
    case ValueGroup => ValueKept(p, ch);
    case EndGroup => EndKept(p, ch);
    case ChunkGroup => ChunkKept(p, ch);
    case BodyGroup => BodyKept(p, avail);
  }

  /** A call, or the calls so far, failed no assertion, and left the parser sound unless something else failed. */
  predicate Safe(p: Parser, stop: Stop) {
    match stop
    case Failed(e) => e != AssertionFailed
    case Ran => Sound(p, 0)
    case Left => Sound(p, 0)
  }

  lemma {:induction false} SwitchSafe(b: byte, c: Call, h: Option<Part>)
    requires c.marks == Mk(h, 0) && HeldOk(h, c.p.state) && !BulkState(c.p.state) && Sound(c.p, 1)
    ensures MarksOk(c.marks, 0) && Safe(Switch([b], 0, c).p, Switch([b], 0, c).stop)
    decreases Rank(c.p.state)
  {
    hide Pass, AfterPass, Loop, HeldOk, Sound, BulkState, Flatten, HeldAfter, Notes;
    var a := Pass(c.p, b, 1);
    PassHeld(c.p, b, 1, h);
    PassKept(c.p, b, 1);
    AfterPlainPass([b], 0, c, h, 0);
    PassPlain(c.p, b, 1);
    var c' := AfterPass([b], 0, c);
    match a.control
    case Again =>
      AgainPlain(c.p, b, 1);
      SwitchSafe(b, c', HeldAfter(a, h));
    case Break =>
      LoopEnd([b], c');
    case Exit =>
    case Fail(e) =>
  }

  lemma BulkSafe(p: Parser)
    requires BulkState(p.state) && Sound(p, 0)
    ensures Takes(p, 1) && Sound(BulkAfter(p, 1), 0)
  {
    hide ShouldKeepAlive;
  }

  lemma CountedSound(p: Parser)
    requires Sound(p, 0) && !BulkState(p.state)
    ensures Overflows(Counted(p)) || Sound(Counted(p), 1)
  {
  }

  lemma RunSafe(p: Parser, b: byte)
    requires Sound(p, 0)
    ensures Safe(Run(p, [b]).p, Run(p, [b]).stop)
  {
    hide Sound, Loop, Pass, Switch, BulkState, BulkAfter;
    if BulkState(p.state) {
      BulkSafe(p);
      RunBodyByte(p, b);
    } else {
      var h := PartOf(p.state);
      var c := Call(p, Mk(h, 0), []);
      RunIsLoop(p, [b]);
      CountedSound(p);
      CountedState(p);
      if Overflows(Counted(p)) {
        OverflowLoop([b], 0, c);
      } else {
        CountedLoop([b], 0, c);
        SwitchSafe(b, c.(p := Counted(p)), h);
      }
    }
  }

  lemma {:induction false} FeedSafe(p: Parser, s: bytes)
    requires Sound(p, 0)
    ensures Safe(Feed(p, s).p, Feed(p, s).stop)
    decreases |s|
  {
    hide Run, Sound, Flatten;
    if s != [] {
      RunSafe(p, s[0]);
      if Run(p, [s[0]]).stop == Ran {
        FeedSafe(Run(p, [s[0]]).p, s[1..]);
      }
    }
  }

  lemma FreshSound(kind: Kind)
    ensures Sound(Fresh(kind), 0)
  {
  }

  lemma {:induction false} ExecuteAllSafe(p: Parser, buffers: seq<bytes>)
    requires Sound(p, 0)
    ensures Safe(ExecuteAll(p, buffers).p, ExecuteAll(p, buffers).stop)
    decreases |buffers|
  {
    hide Run, Feed, Sound, Flatten;
    if buffers != [] {
      BatchIsBytes(p, buffers[0]);
      FeedSafe(p, buffers[0]);
      if ExecuteSpec(p, buffers[0]).stop.Ran? {
        ExecuteAllSafe(ExecuteSpec(p, buffers[0]).p, buffers[1..]);
      }
    }
  }

  /**
   * Over any run of calls, those that tell the end of the stream as well: no
   * assertion fails, and the parser stays sound.
   */
  lemma RunsSafe(kind: Kind, buffers: seq<bytes>)
    ensures Safe(ExecuteAll(Fresh(kind), buffers).p, ExecuteAll(Fresh(kind), buffers).stop)
  {
    FreshSound(kind);
    ExecuteAllSafe(Fresh(kind), buffers);
  }

  // ----- The request method -----

  predicate EndsWith(s: bytes, e: bytes) {
    |e| <= |s| && s[|s| - |e|..] == e
  }

  /** While a method is read, what has been read of it is what the guessed method starts with. */
  predicate MethodSeen(p: Parser, s: bytes) {
    && (p.state.ResOrRespH? ==> EndsWith(s, "H"))
    && (p.state.ReqMethod? ==>
          p.index <= |MethodName(p.line.verb)| && EndsWith(s, MethodName(p.line.verb)[..p.index]))
  }

  lemma EndGrows(s: bytes, e: bytes, b: byte)
    requires EndsWith(s, e)
    ensures EndsWith(s + [b], e + [b])
  {
  }

  lemma FirstSeen(s: bytes, b: byte)
    requires FirstGuess(b).Some?
    ensures MethodName(FirstGuess(b).value) != []
    ensures EndsWith(s + [b], MethodName(FirstGuess(b).value)[..1])
  {
    assert (s + [b])[|s|..] == [b];
  }

  /** How a pass between messages gets into a method. */
  lemma StartLeads(p: Parser, b: byte)
    requires GroupOf(p.state) == StartGroup
    ensures var a := ArmStart(p, b);
            && (a.control == Break && a.p.state.ResOrRespH? ==> b == 'H')
            && (a.control == Break && a.p.state.ReqMethod? ==>
                  if p.state.ResOrRespH? then b == 'E' && a.p.line.verb == HEAD && a.p.index == 2
                  else FirstGuess(b) == Some(a.p.line.verb) && a.p.index == 1)
            && (a.control == Again ==> !a.p.state.ResOrRespH? && !a.p.state.ReqMethod?)
  {
    hide FirstGuess;
  }

  lemma HeadBegins(s: bytes)
    ensures |MethodName(HEAD)| >= 2 && MethodName(HEAD)[..2] == "HE" && EndsWith(s + "H", "H")
  {
  }

  lemma LetterSeen(p: Parser, s: bytes, b: byte)
    requires p.state.ReqMethod? && MethodSeen(p, s)
    ensures var a := ArmMethod(p, b);
            a.control == Break ==> MethodSeen(a.p, s + [b])
  {
    hide MethodName, NextGuess;
    var name, i := MethodName(p.line.verb), p.index;
    EndGrows(s, name[..i], b);
    if NextGuess(p.line.verb, i, b).Some? {
      NextGuessAgrees(p.line.verb, i, b);
      var other := MethodName(NextGuess(p.line.verb, i, b).value);
      assert other[..i + 1] == other[..i] + [b];
    }
    if i < |name| && name[i] == b {
      assert name[..i + 1] == name[..i] + [b];
    }
  }

  /** The pass does not lead into a method. */
  predicate Elsewhere(a: Arm) {
    a.control.Fail? || (!a.p.state.ReqMethod? && !a.p.state.ResOrRespH?)
  }

  lemma LinesElsewhere(p: Parser, b: byte)
    ensures GroupOf(p.state) == ResponseGroup ==> Elsewhere(ArmResponse(p, b))
    ensures GroupOf(p.state) == UrlGroup ==> Elsewhere(ArmUrl(p, b))
  {
    hide Shifted, ParseUrlChar;
  }

  lemma VersionElsewhere(p: Parser, b: byte)
    requires GroupOf(p.state) == VersionGroup
    ensures Elsewhere(ArmVersion(p, b))
  {
    hide Shifted;
  }

  lemma FieldElsewhere(p: Parser, b: byte)
    requires GroupOf(p.state) == FieldGroup
    ensures Elsewhere(ArmField(p, b))
  {
    hide Token;
  }

  lemma ValueElsewhere(p: Parser, b: byte)
    requires GroupOf(p.state) == ValueGroup
    ensures Elsewhere(ArmValue(p, b))
  {
    hide Lower;
  }

  lemma RestElsewhere(p: Parser, b: byte, avail: nat)
    requires avail > 0
    ensures GroupOf(p.state) == EndGroup ==> Elsewhere(ArmHeadersEnd(p, b))
    ensures GroupOf(p.state) == ChunkGroup ==> Elsewhere(ArmChunk(p, b))
    ensures GroupOf(p.state) == BodyGroup ==> Elsewhere(ArmBody(p, avail))
  {
    hide Unhex, ShouldKeepAlive;
  }

  lemma PassElsewhere(p: Parser, b: byte, avail: nat)
    requires avail > 0 && GroupOf(p.state) != StartGroup && GroupOf(p.state) != MethodGroup
    ensures Elsewhere(Pass(p, b, avail))
  {
    hide Elsewhere, ArmStart, ArmResponse, ArmMethod, ArmUrl, ArmVersion, ArmField, ArmValue, ArmHeadersEnd,
      ArmChunk, ArmBody;
    match GroupOf(p.state)
    case ResponseGroup => LinesElsewhere(p, b);
    case UrlGroup => LinesElsewhere(p, b);
    case VersionGroup => VersionElsewhere(p, b);
    case FieldGroup => FieldElsewhere(p, b);
    case ValueGroup => ValueElsewhere(p, b);
    case _ => RestElsewhere(p, b, avail);
  }

  lemma PassSeen(p: Parser, s: bytes, b: byte)
    requires MethodSeen(p, s)
    ensures var a := Pass(p, b, 1);
            (a.control == Break ==> MethodSeen(a.p, s + [b])) && (a.control == Again ==> MethodSeen(a.p, s))
  {
    hide ArmStart, ArmMethod, MethodName;
    if GroupOf(p.state) == StartGroup {
      StartLeads(p, b);
      HeadBegins(s);
      assert b == 'H' ==> s + [b] == s + "H";
      if p.state.ResOrRespH? {
        EndGrows(s, "H", b);
        assert "H" + ['E'] == "HE";
      } else if FirstGuess(b).Some? {
        FirstSeen(s, b);
      }
    } else if GroupOf(p.state) == MethodGroup {
      LetterSeen(p, s, b);
    } else {
      PassElsewhere(p, b, 1);
    }
  }

  lemma {:induction false} SwitchSeen(b: byte, c: Call, h: Option<Part>, s: bytes)
    requires c.marks == Mk(h, 0) && HeldOk(h, c.p.state) && !BulkState(c.p.state) && MethodSeen(c.p, s)
    ensures MarksOk(c.marks, 0)
    ensures Switch([b], 0, c).stop == Ran ==> MethodSeen(Switch([b], 0, c).p, s + [b])
    decreases Rank(c.p.state)
  {
    hide Pass, AfterPass, Loop, HeldOk, MethodSeen, BulkState, Flatten, HeldAfter, Notes;
    var a := Pass(c.p, b, 1);
    PassHeld(c.p, b, 1, h);
    PassSeen(c.p, s, b);
    AfterPlainPass([b], 0, c, h, 0);
    PassPlain(c.p, b, 1);
    var c' := AfterPass([b], 0, c);
    match a.control
    case Again =>
      AgainPlain(c.p, b, 1);
      SwitchSeen(b, c', HeldAfter(a, h), s);
    case Break =>
      LoopEnd([b], c');
    case Exit =>
    case Fail(e) =>
  }

  lemma BulkSeen(p: Parser, s: bytes)
    requires BulkState(p.state) && BodyAsserts(p)
    ensures Takes(p, 1) && MethodSeen(BulkAfter(p, 1), s)
  {
  }

  lemma CountedSeen(p: Parser, s: bytes)
    requires MethodSeen(p, s)
    ensures MethodSeen(Counted(p), s)
  {
  }

  lemma RunSeen(p: Parser, s: bytes, b: byte)
    requires MethodSeen(p, s) && Run(p, [b]).stop == Ran
    ensures MethodSeen(Run(p, [b]).p, s + [b])
  {
    hide MethodSeen, Loop, Pass, Switch, BulkState, BulkAfter, BodyAsserts;
    var h := PartOf(p.state);
    var c := Call(p, Mk(h, 0), []);
    RunIsLoop(p, [b]);
    if BulkState(p.state) {
      if BodyAsserts(p) {
        BulkSeen(p, s + [b]);
        RunBodyByte(p, b);
      } else {
        RefusedBody([b], 0, c);
      }
    } else {
      CountedSeen(p, s);
      CountedState(p);
      if Overflows(Counted(p)) {
        OverflowLoop([b], 0, c);
      } else {
        CountedLoop([b], 0, c);
        SwitchSeen(b, c.(p := Counted(p)), h, s);
      }
    }
  }

  lemma {:induction false} FeedSeen(p: Parser, s: bytes, w: bytes)
    requires MethodSeen(p, s) && Feed(p, w).stop == Ran
    ensures MethodSeen(Feed(p, w).p, s + w)
    decreases |w|
  {
    hide Run, MethodSeen, Flatten;
    if w == [] {
      assert s + w == s;
    } else {
      RunSeen(p, s, w[0]);
      FeedSeen(Run(p, [w[0]]).p, s + [w[0]], w[1..]);
      assert s + [w[0]] + w[1..] == s + w;
    }
  }

  /** In the method, the bytes last read are exactly the first index letters of the guessed method's name. */
  lemma MethodPrefix(kind: Kind, chunks: seq<bytes>)
    ensures var o, s := RunAll(Fresh(kind), chunks), Concat(chunks);
            var p := o.p;
            o.stop.Ran? && p.state.ReqMethod? ==>
            && 1 <= p.index <= |MethodName(p.line.verb)| && p.index <= |s|
            && s[|s| - p.index..] == MethodName(p.line.verb)[..p.index]
  {
    hide RunAll, Feed, MethodName;
    FreshSound(kind);
    FeedSafe(Fresh(kind), Concat(chunks));
    RunAllIsFeed(Fresh(kind), chunks);
    if RunAll(Fresh(kind), chunks).stop.Ran? {
      FeedSeen(Fresh(kind), [], Concat(chunks));
      assert [] + Concat(chunks) == Concat(chunks);
    }
  }
}
