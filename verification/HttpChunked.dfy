/** The chunked transfer coding: what the parser delivers is what section 4.1 of RFC 7230 decodes to. */
module HttpChunked {
  import opened Bytes
  import opened HttpSyntax
  import opened HttpMachine
  import opened HttpExecute
  import opened HttpSplit
  import opened HttpBatch
  import opened HttpBody

  // ----- The coding, on byte strings -----

  predicate AllHex(s: bytes) {
    forall i :: 0 <= i < |s| ==> Unhex(s[i]) != -1
  }

  function HexValue(s: bytes): nat
    requires AllHex(s)
  {
    if s == [] then 0 else HexValue(s[..|s| - 1]) * 16 + Unhex(s[|s| - 1])
  }

  /** How many hexadecimal digits s starts with. */
  function HexCount(s: bytes): (k: nat)
    ensures k <= |s| && AllHex(s[..k]) && (k < |s| ==> Unhex(s[k]) == -1)
  {
    if s == [] || Unhex(s[0]) == -1 then 0 else 1 + HexCount(s[1..])
  }

  /** Where the first CR is, or the length of s. */
  function FirstCr(s: bytes): (e: nat)
    ensures e <= |s| && (e < |s| ==> s[e] == '\r') && forall i :: 0 <= i < e ==> s[i] != '\r'
  {
    if s == [] || s[0] == '\r' then 0 else 1 + FirstCr(s[1..])
  }

  const SIZE_LIMIT: nat := (ULLONG_MAX - 16) / 16

  /** A size the parser accepts: without its last digit, it is within a conservative limit. */
  predicate SizeFits(s: bytes) {
    s != [] && AllHex(s) && HexValue(s[..|s| - 1]) <= SIZE_LIMIT
  }

  /** A chunk size line of n bytes; or only a part of one; or none. */
  datatype SizeLine = Sized(size: nat, n: nat) | Cut | Bad

  function LineEnd(s: bytes, k: nat, e: nat): SizeLine
    requires k <= e < |s| && AllHex(s[..k])
  {
    if e + 1 == |s| then Cut
    else if s[e + 1] == '\n' then Sized(HexValue(s[..k]), e + 2)
    else Bad
  }

  /** What follows k digits: perhaps an extension, then CR LF. */
  function SizeTail(s: bytes, k: nat): SizeLine
    requires k < |s| && AllHex(s[..k])
  {
    if s[k] == '\r' then LineEnd(s, k, k)
    else if s[k] == ';' || s[k] == ' ' then
      var e := k + FirstCr(s[k..]);
      if e == |s| then Cut else LineEnd(s, k, e)
    else Bad
  }

  function ReadSize(s: bytes): SizeLine {
    var k := HexCount(s);
    if k > 0 && !SizeFits(s[..k]) then Bad
    else if k == |s| then Cut
    else if k == 0 then Bad
    else SizeTail(s, k)
  }

  /** A size line is also limited as the header is. */
  function ReadLimited(s: bytes): SizeLine {
    if |s| <= MAX_HEADER_SIZE then ReadSize(s)
    else
      var l := ReadSize(s[..MAX_HEADER_SIZE]);
      if l.Cut? then Bad else l
  }

  /** Done: a whole coding of n bytes, up to its trailer.  More: the start of one.  Broken: neither. */
  datatype Decoded = Done(body: bytes, n: nat) | More(body: bytes) | Broken(body: bytes)

  function After(data: bytes, n: nat, d: Decoded): Decoded {
    match d
    case Done(body, m) => Done(data + body, n + m)
    case More(body) => More(data + body)
    case Broken(body) => Broken(data + body)
  }

  lemma ReadSizeLength(s: bytes)
    ensures ReadSize(s).Sized? ==> 0 < ReadSize(s).n <= |s|
  {
  }

  lemma ReadLimitedLength(s: bytes)
    ensures ReadLimited(s).Sized? ==> 0 < ReadLimited(s).n <= |s|
  {
    ReadSizeLength(s);
    if |s| > MAX_HEADER_SIZE {
      ReadSizeLength(s[..MAX_HEADER_SIZE]);
    }
  }

  /** Chunks up to the last, whose size is 0. */
  function Decode(s: bytes): Decoded
    decreases |s|
  {
    ReadLimitedLength(s);
    match ReadLimited(s)
    case Cut => More([])
    case Bad => Broken([])
    case Sized(size, n) => if size == 0 then Done([], n) else After([], n, DecodeData(s[n..], size))
  }

  /** The data of a chunk, CR LF, and further chunks. */
  function DecodeData(d: bytes, size: nat): Decoded
    decreases |d|
  {
    if |d| <= size then More(d)
    else if d[size] != '\r' then Broken(d[..size])
    else if |d| == size + 1 then More(d[..size])
    else if d[size + 1] != '\n' then Broken(d[..size])
    else After(d[..size], size + 2, Decode(d[size + 2..]))
  }

  // ----- Writing a coding -----

  function HexDigit(d: nat): byte
    requires d < 16
  {
    if d < 10 then DigitOf(d) else (d - 10 + 'a' as int) as char
  }

  function Hex(n: nat): (s: bytes)
    ensures s != []
  {
    if n < 16 then [HexDigit(n)] else Hex(n / 16) + [HexDigit(n % 16)]
  }

  /** A chunk that can be written: not empty, of a size the parser accepts. */
  predicate PieceOk(piece: bytes) {
    piece != [] && |piece| / 16 <= SIZE_LIMIT
  }

  /** The chunks of a body, and the last one, of size 0. */
  function Coding(pieces: seq<bytes>): bytes {
    if pieces == [] then ['0', '\r', '\n']
    else Hex(|pieces[0]|) + ['\r', '\n'] + pieces[0] + ['\r', '\n'] + Coding(pieces[1..])
  }

  lemma {:induction false} HexReads(n: nat)
    ensures AllHex(Hex(n)) && HexValue(Hex(n)) == n
    ensures n / 16 <= SIZE_LIMIT ==> SizeFits(Hex(n))
  {
    if n < 16 {
      assert Hex(n)[..0] == [];
    } else {
      HexReads(n / 16);
      assert Hex(n)[..|Hex(n)| - 1] == Hex(n / 16);
    }
  }

  function Power16(k: nat): nat {
    if k == 0 then 1 else 16 * Power16(k - 1)
  }

  lemma {:induction false} HexShort(n: nat, k: nat)
    requires k > 0 && n < Power16(k)
    ensures |Hex(n)| <= k
  {
    if n >= 16 {
      HexShort(n / 16, k - 1);
    }
  }

  lemma SizeShort(n: nat)
    requires n / 16 <= SIZE_LIMIT
    ensures |Hex(n)| <= 16
  {
    assert Power16(4) == 0x1_0000 && Power16(8) == 0x1_0000_0000;
    assert Power16(12) == 0x1_0000_0000_0000 && Power16(16) == 0x1_0000_0000_0000_0000;
    HexShort(n, 16);
  }

  lemma {:induction false} HexCounted(s: bytes, t: bytes)
    requires AllHex(s) && (t != [] ==> Unhex(t[0]) == -1)
    ensures HexCount(s + t) == |s|
  {
    if s == [] {
      assert s + t == t;
    } else {
      assert (s + t)[1..] == s[1..] + t;
      HexCounted(s[1..], t);
    }
  }

  lemma SizeWritten(n: nat, t: bytes)
    requires n / 16 <= SIZE_LIMIT
    ensures ReadSize(Hex(n) + ['\r', '\n'] + t) == Sized(n, |Hex(n)| + 2)
  {
    var s, tail := Hex(n) + ['\r', '\n'] + t, ['\r', '\n'] + t;
    HexReads(n);
    assert s == Hex(n) + tail;
    HexCounted(Hex(n), tail);
    assert s[..|Hex(n)|] == Hex(n);
  }

  lemma LimitedWritten(n: nat, t: bytes)
    requires n / 16 <= SIZE_LIMIT
    ensures ReadLimited(Hex(n) + ['\r', '\n'] + t) == Sized(n, |Hex(n)| + 2)
  {
    hide ReadSize;
    var head := Hex(n) + ['\r', '\n'];
    SizeShort(n);
    SizeWritten(n, t);
    if |head + t| > MAX_HEADER_SIZE {
      var t' := t[..MAX_HEADER_SIZE - |head|];
      assert (head + t)[..MAX_HEADER_SIZE] == head + t';
      SizeWritten(n, t');
    }
  }

  lemma PieceDecodes(d: bytes, more: bytes)
    ensures DecodeData(d + ['\r', '\n'] + more, |d|) == After(d, |d| + 2, Decode(more))
  {
    hide Decode;
    var s := d + ['\r', '\n'] + more;
    assert s[..|d|] == d && s[|d| + 2..] == more;
  }

  lemma CodingSplits(pieces: seq<bytes>, t: bytes)
    requires pieces != []
    ensures Coding(pieces) + t ==
            Hex(|pieces[0]|) + ['\r', '\n'] + (pieces[0] + ['\r', '\n'] + (Coding(pieces[1..]) + t))
    ensures |Coding(pieces)| == |Hex(|pieces[0]|)| + 2 + |pieces[0]| + 2 + |Coding(pieces[1..])|
  {
    hide Hex;
  }

  /** A written coding decodes to its body, whatever follows. */
  lemma {:induction false} CodingDecodes(pieces: seq<bytes>, t: bytes)
    requires forall i :: 0 <= i < |pieces| ==> PieceOk(pieces[i])
    ensures Decode(Coding(pieces) + t) == Done(Concat(pieces), |Coding(pieces)|)
  {
    hide ReadLimited, DecodeData, Hex, HexDigit;
    if pieces == [] {
      ZeroWritten();
      assert Coding(pieces) == Hex(0) + ['\r', '\n'];
      LimitedWritten(0, t);
    } else {
      var d, more := pieces[0], Coding(pieces[1..]) + t;
      CodingSplits(pieces, t);
      LimitedWritten(|d|, d + ['\r', '\n'] + more);
      CodingDecodes(pieces[1..], t);
      PieceDecodes(d, more);
      var s, n := Coding(pieces) + t, |Hex(|d|)| + 2;
      assert s[n..] == d + ['\r', '\n'] + more;
      hide Coding;
    }
  }

  lemma ZeroWritten()
    ensures Hex(0) == ['0']
  {
  }

  // ----- The size line in the parser -----

  predicate AtSize(p: Parser) {
    p.state.ChunkSizeStart? && p.flags.chunked && p.nread == 0
  }

  /** In the middle of a size line of which n bytes are read. */
  predicate InSize(p: Parser, n: nat) {
    && (p.state.ChunkSizeStart? || p.state.ChunkSize? || p.state.ChunkParameters? || p.state.ChunkSizeAlmostDone?)
    && p.flags.chunked && p.nread == n
  }

  lemma ChunkPass(p: Parser, b: byte)
    requires InSize(p, p.nread)
    ensures Pass(Counted(p), b, 1) == ArmChunk(p.(nread := p.nread + 1), b)
    ensures PartOf(p.state) == None && !BulkState(p.state)
    ensures Overflows(Counted(p)) <==> p.nread >= MAX_HEADER_SIZE
  {
  }

  /** A byte inside a size line, with room for it. */
  lemma SizeStep(p: Parser, b: byte)
    requires InSize(p, p.nread) && p.nread < MAX_HEADER_SIZE
    ensures var a := ArmChunk(p.(nread := p.nread + 1), b);
            match a.control
            case Break => Feed(p, [b]) == Fed(a.p, [], 1, Ran)
            case Fail(e) => Feed(p, [b]).stop == Failed(e) && Feed(p, [b]).items == []
            case _ => true
  {
    hide Pass, Counted, Overflows, Feed, BulkState;
    ChunkPass(p, b);
    ChunkHeld(p.(nread := p.nread + 1), b, None);
    SizeQuiet(p.(nread := p.nread + 1), b);
    var a := ArmChunk(p.(nread := p.nread + 1), b);
    assert [b][1..] == [];
    if a.control.Break? {
      FeedStep(p, [b]);
      FeedNone(a.p);
    } else if a.control.Fail? {
      FeedFail(p, [b]);
    }
  }

  lemma SizeQuiet(p: Parser, b: byte)
    requires p.state.ChunkSizeStart? || p.state.ChunkSize? || p.state.ChunkParameters? || p.state.ChunkSizeAlmostDone?
    ensures Notes(ArmChunk(p, b)) == [] && HeldAfter(ArmChunk(p, b), None) == None
  {
  }

  /** Feeding s and one byte more. */
  lemma FeedSnoc(p: Parser, s: bytes, b: byte, q: Parser)
    requires Feed(p, s) == Fed(q, [], |s|, Ran)
    ensures var g := Feed(q, [b]);
            Feed(p, s + [b]) == Fed(g.p, g.items, |s| + g.n, g.stop)
  {
    hide Feed;
    FeedConcat(p, s, [b]);
    assert [] + Feed(q, [b]).items == Feed(q, [b]).items;
  }

  lemma HexGrows(s: bytes)
    requires s != [] && AllHex(s)
    ensures HexValue(s[..|s| - 1]) <= HexValue(s)
  {
  }

  lemma FirstDigitStep(p: Parser, b: byte)
    requires AtSize(p) && Unhex(b) != -1
    ensures Feed(p, [b]) == Fed(p.(state := ChunkSize, contentLength := Unhex(b), nread := 1), [], 1, Ran)
  {
    hide Unhex, Feed;
    SizeStep(p, b);
  }

  lemma NextDigitStep(p: Parser, b: byte)
    requires p.state.ChunkSize? && p.flags.chunked && p.nread < MAX_HEADER_SIZE && Unhex(b) != -1 && b != '\r'
    ensures if p.contentLength <= SIZE_LIMIT then
              && p.contentLength * 16 + Unhex(b) < ULLONG_MAX
              && Feed(p, [b]) ==
                 Fed(p.(contentLength := p.contentLength * 16 + Unhex(b), nread := p.nread + 1), [], 1, Ran)
            else Feed(p, [b]).stop.Failed? && Feed(p, [b]).items == []
  {
    hide Unhex, Feed;
    SizeStep(p, b);
  }

  lemma HexNotCr(b: byte)
    requires Unhex(b) != -1
    ensures b != '\r'
  {
  }

  /** Size digits: the length becomes their value, or they are refused. */
  lemma {:induction false} SizeDigits(p: Parser, s: bytes)
    requires AtSize(p) && s != [] && AllHex(s) && |s| <= MAX_HEADER_SIZE
    ensures if SizeFits(s) then
              && HexValue(s) < ULLONG_MAX
              && Feed(p, s) == Fed(p.(state := ChunkSize, contentLength := HexValue(s), nread := |s|), [], |s|, Ran)
            else Feed(p, s).stop.Failed? && Feed(p, s).items == []
    decreases |s|
  {
    hide Feed, Unhex;
    var k := |s| - 1;
    var init, b := s[..k], s[k];
    assert s == init + [b];
    HexNotCr(b);
    if k == 0 {
      assert s == [b];
      FirstDigitStep(p, b);
    } else {
      SizeDigits(p, init);
      HexGrows(init);
      FeedConcat(p, init, [b]);
      if SizeFits(init) {
        var q := p.(state := ChunkSize, contentLength := HexValue(init), nread := k);
        FeedSnoc(p, init, b, q);
        NextDigitStep(q, b);
      }
    }
  }

  lemma ParameterStep(p: Parser, b: byte)
    requires p.state.ChunkParameters? && p.flags.chunked && p.nread < MAX_HEADER_SIZE && b != '\r'
    ensures Feed(p, [b]) == Fed(p.(nread := p.nread + 1), [], 1, Ran)
  {
    hide Feed;
    SizeStep(p, b);
  }

  /** An extension is skipped. */
  lemma {:induction false} Parameters(p: Parser, s: bytes)
    requires p.state.ChunkParameters? && p.flags.chunked && p.nread + |s| <= MAX_HEADER_SIZE
    requires forall i :: 0 <= i < |s| ==> s[i] != '\r'
    ensures Feed(p, s) == Fed(p.(nread := p.nread + |s|), [], |s|, Ran)
    decreases |s|
  {
    hide Feed;
    if s == [] {
      FeedNone(p);
    } else {
      var k := |s| - 1;
      assert s == s[..k] + [s[k]];
      Parameters(p, s[..k]);
      var q := p.(nread := p.nread + k);
      ParameterStep(q, s[k]);
      FeedSnoc(p, s[..k], s[k], q);
    }
  }

  /** The parser after a size line. */
  function AfterSize(p: Parser, size: uint64): Parser {
    if size == 0 then
      p.(state := HeaderFieldStart, contentLength := 0, nread := 0, flags := p.flags.(trailing := true))
    else p.(state := ChunkData, contentLength := size, nread := 0)
  }

  /** What the parser does with s, when read says what size line s starts with. */
  predicate SizeRead(p: Parser, s: bytes, read: SizeLine) {
    match read
    case Sized(size, n) => size < ULLONG_MAX && 0 < n <= |s| && Feed(p, s[..n]) == Fed(AfterSize(p, size), [], n, Ran)
    case Cut => Feed(p, s).stop == Ran && Feed(p, s).items == [] && InSize(Feed(p, s).p, |s|)
    case Bad => Feed(p, s).stop.Failed? && Feed(p, s).items == []
  }

  lemma FeedPrefix(p: Parser, s: bytes, n: nat)
    requires n <= |s| && Feed(p, s[..n]).stop.Failed?
    ensures Feed(p, s) == Feed(p, s[..n])
  {
    hide Feed;
    assert s == s[..n] + s[n..];
    FeedConcat(p, s[..n], s[n..]);
  }

  lemma CrStep(p: Parser)
    requires InSize(p, p.nread) && (p.state.ChunkSize? || p.state.ChunkParameters?) && p.nread < MAX_HEADER_SIZE
    ensures Feed(p, ['\r']) == Fed(p.(state := ChunkSizeAlmostDone, nread := p.nread + 1), [], 1, Ran)
  {
    hide Feed;
    SizeStep(p, '\r');
  }

  lemma LfStep(p: Parser, b: byte)
    requires p.state.ChunkSizeAlmostDone? && p.flags.chunked && p.nread < MAX_HEADER_SIZE
    ensures b == '\n' ==> Feed(p, [b]) == Fed(AfterSize(p, p.contentLength), [], 1, Ran)
    ensures b != '\n' ==> Feed(p, [b]).stop.Failed? && Feed(p, [b]).items == []
  {
    hide Feed;
    SizeStep(p, b);
  }

  /** CR LF after the size or its extension; q is the parser in front of the CR, at e. */
  lemma LineEndRead(p: Parser, s: bytes, k: nat, e: nat, q: Parser)
    requires k <= e < |s| <= MAX_HEADER_SIZE && s[e] == '\r' && AllHex(s[..k])
    requires Feed(p, s[..e]) == Fed(q, [], e, Ran)
    requires InSize(q, e) && (q.state.ChunkSize? || q.state.ChunkParameters?)
    requires HexValue(s[..k]) < ULLONG_MAX
    requires q == p.(state := q.state, nread := e, contentLength := HexValue(s[..k]))
    ensures SizeRead(p, s, LineEnd(s, k, e))
  {
    hide Feed, HexValue, AllHex;
    assert s[..e + 1] == s[..e] + ['\r'];
    CrStep(q);
    FeedSnoc(p, s[..e], '\r', q);
    var r := q.(state := ChunkSizeAlmostDone, nread := e + 1);
    if e + 1 == |s| {
      assert s[..e + 1] == s;
    } else {
      assert s[..e + 2] == s[..e + 1] + [s[e + 1]];
      LfStep(r, s[e + 1]);
      FeedSnoc(p, s[..e + 1], s[e + 1], r);
      if s[e + 1] != '\n' {
        FeedPrefix(p, s, e + 2);
      }
    }
  }

  /** The byte after the digits. */
  lemma ExtensionStep(p: Parser, b: byte)
    requires p.state.ChunkSize? && p.flags.chunked && p.nread < MAX_HEADER_SIZE && Unhex(b) == -1 && b != '\r'
    ensures if b == ';' || b == ' ' then
              Feed(p, [b]) == Fed(p.(state := ChunkParameters, nread := p.nread + 1), [], 1, Ran)
            else Feed(p, [b]).stop.Failed? && Feed(p, [b]).items == []
  {
    hide Unhex, Feed;
    SizeStep(p, b);
  }

  lemma NoDigitStep(p: Parser, b: byte)
    requires AtSize(p) && Unhex(b) == -1
    ensures Feed(p, [b]).stop.Failed? && Feed(p, [b]).items == []
  {
    hide Unhex, Feed;
    SizeStep(p, b);
  }

  /** The size line after its digits s[..k]; q is the parser there. */
  lemma AfterDigits(p: Parser, s: bytes, k: nat, q: Parser)
    requires 0 < k < |s| <= MAX_HEADER_SIZE && AllHex(s[..k]) && Unhex(s[k]) == -1
    requires HexValue(s[..k]) < ULLONG_MAX && p.flags.chunked
    requires q == p.(state := ChunkSize, contentLength := HexValue(s[..k]), nread := k)
    requires Feed(p, s[..k]) == Fed(q, [], k, Ran)
    ensures SizeRead(p, s, SizeTail(s, k))
  {
    hide Feed, HexValue, SizeRead, LineEnd, Unhex, AllHex;
    var b := s[k];
    if b == '\r' {
      LineEndRead(p, s, k, k, q);
    } else {
      assert s[..k + 1] == s[..k] + [b];
      ExtensionStep(q, b);
      FeedSnoc(p, s[..k], b, q);
      if b == ';' || b == ' ' {
        ExtensionRead(p, s, k, q.(state := ChunkParameters, nread := k + 1));
      } else {
        FeedPrefix(p, s, k + 1);
        BadRead(p, s);
      }
    }
  }

  lemma BadRead(p: Parser, s: bytes)
    requires Feed(p, s).stop.Failed? && Feed(p, s).items == []
    ensures SizeRead(p, s, Bad)
  {
  }

  /** The extension, of which the first byte is read. */
  lemma ExtensionRead(p: Parser, s: bytes, k: nat, q: Parser)
    requires 0 < k < |s| <= MAX_HEADER_SIZE && AllHex(s[..k]) && s[k] != '\r'
    requires HexValue(s[..k]) < ULLONG_MAX && p.flags.chunked
    requires q == p.(state := ChunkParameters, contentLength := HexValue(s[..k]), nread := k + 1)
    requires Feed(p, s[..k + 1]) == Fed(q, [], k + 1, Ran)
    ensures var e := k + FirstCr(s[k..]);
            SizeRead(p, s, if e == |s| then Cut else LineEnd(s, k, e))
  {
    hide Feed, HexValue, LineEnd, AllHex;
    var e := k + FirstCr(s[k..]);
    assert e > k && forall i :: k < i < e ==> s[i] == s[k..][i - k] != '\r';
    var w := s[k + 1..e];
    assert s[..e] == s[..k + 1] + w;
    Parameters(q, w);
    FeedConcat(p, s[..k + 1], w);
    if e == |s| {
      assert s[..e] == s;
    } else {
      LineEndRead(p, s, k, e, q.(nread := e));
    }
  }

  /** The parser reads a size line as ReadSize does. */
  lemma SizeLineRead(p: Parser, s: bytes)
    requires AtSize(p) && |s| <= MAX_HEADER_SIZE
    ensures SizeRead(p, s, ReadSize(s))
  {
    hide Feed, HexValue, LineEnd, Unhex;
    var k := HexCount(s);
    assert s[..k] == s || k < |s|;
    if s == [] {
      FeedNone(p);
    } else if k == 0 {
      NoDigitStep(p, s[0]);
      assert s[..1] == [s[0]];
      FeedPrefix(p, s, 1);
    } else {
      SizeDigits(p, s[..k]);
      if !SizeFits(s[..k]) {
        FeedPrefix(p, s, k);
      } else if k < |s| {
        AfterDigits(p, s, k, p.(state := ChunkSize, contentLength := HexValue(s[..k]), nread := k));
      }
    }
  }

  lemma LimitedRead(p: Parser, s: bytes)
    requires AtSize(p)
    ensures SizeRead(p, s, ReadLimited(s))
  {
    hide Feed, ReadSize;
    if |s| <= MAX_HEADER_SIZE {
      SizeLineRead(p, s);
    } else {
      var t := s[..MAX_HEADER_SIZE];
      SizeLineRead(p, t);
      match ReadSize(t)
      case Sized(size, n) =>
        assert s[..n] == t[..n];
      case Bad =>
        FeedPrefix(p, s, MAX_HEADER_SIZE);
      case Cut =>
        var q := Feed(p, t).p;
        ChunkPass(q, s[MAX_HEADER_SIZE]);
        assert s == t + s[MAX_HEADER_SIZE..];
        FeedOverflow(q, s[MAX_HEADER_SIZE..]);
        FeedConcat(p, t, s[MAX_HEADER_SIZE..]);
    }
  }

  // ----- Chunks -----

  /** In the middle of a coding. */
  predicate InChunks(p: Parser) {
    match p.state
    case ChunkSizeStart => true
    case ChunkSize => true
    case ChunkParameters => true
    case ChunkSizeAlmostDone => true
    case ChunkData => true
    case ChunkDataAlmostDone => true
    case ChunkDataDone => true
    case _ => false
  }

  /** The parser at the trailer, after the last chunk. */
  function AtTrailer(p: Parser): Parser {
    AfterSize(p, 0)
  }

  /** What the parser does with s, when decoded says what s decodes to. */
  predicate Tells(p: Parser, s: bytes, decoded: Decoded) {
    match decoded
    case Done(body, n) => n <= |s| && Feed(p, s[..n]) == Fed(AtTrailer(p), Tag(Body, body), n, Ran)
    case More(body) => Feed(p, s).stop == Ran && Feed(p, s).items == Tag(Body, body) && InChunks(Feed(p, s).p)
    case Broken(body) => Feed(p, s).stop.Failed? && Feed(p, s).items == Tag(Body, body)
  }

  lemma TagNothing()
    ensures Tag(Body, []) == []
  {
  }

  lemma TagConcat(part: Part, a: bytes, b: bytes)
    ensures Tag(part, a + b) == Tag(part, a) + Tag(part, b)
  {
  }

  /** Part of the data of a chunk. */
  lemma PartOfData(p: Parser, d: bytes)
    requires p.state.ChunkData? && p.flags.chunked && |d| < p.contentLength < ULLONG_MAX
    ensures Feed(p, d) == Fed(p.(contentLength := p.contentLength - |d|), Tag(Body, d), |d|, Ran)
  {
    hide Feed;
    if d == [] {
      FeedNone(p);
      TagNothing();
    } else {
      BulkFeed(p, d);
      assert Tag(Body, d) + [] == Tag(Body, d);
    }
  }

  lemma WholeData(p: Parser, d: bytes)
    requires p.state.ChunkData? && p.flags.chunked && 0 < |d| == p.contentLength < ULLONG_MAX
    ensures Feed(p, d) == Fed(p.(state := ChunkDataAlmostDone, contentLength := 0), Tag(Body, d), |d|, Ran)
  {
    hide Feed;
    BulkFeed(p, d);
    assert Tag(Body, d) + [] == Tag(Body, d);
  }

  /** CR after the data of a chunk. */
  lemma DataCr(p: Parser, b: byte)
    requires p.state.ChunkDataAlmostDone? && p.flags.chunked && p.contentLength == 0
    ensures if b == '\r' then Feed(p, [b]) == Fed(p.(state := ChunkDataDone), [], 1, Ran)
            else Feed(p, [b]).stop.Failed? && Feed(p, [b]).items == []
  {
    hide Feed;
    assert [b][1..] == [];
    if b == '\r' {
      FeedStep(p, [b]);
      FeedNone(p.(state := ChunkDataDone));
    } else {
      FeedFail(p, [b]);
    }
  }

  lemma DataLf(p: Parser, b: byte)
    requires p.state.ChunkDataDone? && p.flags.chunked
    ensures if b == '\n' then Feed(p, [b]) == Fed(p.(state := ChunkSizeStart, nread := 0), [], 1, Ran)
            else Feed(p, [b]).stop.Failed? && Feed(p, [b]).items == []
  {
    hide Feed;
    assert [b][1..] == [];
    if b == '\n' {
      FeedStep(p, [b]);
      FeedNone(p.(state := ChunkSizeStart, nread := 0));
    } else {
      FeedFail(p, [b]);
    }
  }

  /** The data of a chunk and the CR LF after it. */
  predicate DataRead(p: Parser, size: nat, d: bytes) {
    var f := Feed(p, d);
    if |d| <= size then f.stop == Ran && f.items == Tag(Body, d) && InChunks(f.p)
    else if d[size] != '\r' then f.stop.Failed? && f.items == Tag(Body, d[..size])
    else if |d| == size + 1 then f.stop == Ran && f.items == Tag(Body, d[..size]) && InChunks(f.p)
    else if d[size + 1] != '\n' then f.stop.Failed? && f.items == Tag(Body, d[..size])
    else
      Feed(p, d[..size + 2]) ==
      Fed(p.(state := ChunkSizeStart, contentLength := 0, nread := 0), Tag(Body, d[..size]), size + 2, Ran)
  }

  lemma FeedMore(p: Parser, s: bytes, b: byte, q: Parser, items: seq<Item>)
    requires Feed(p, s) == Fed(q, items, |s|, Ran) && Feed(q, [b]).items == []
    ensures var g := Feed(q, [b]);
            Feed(p, s + [b]) == Fed(g.p, items, |s| + g.n, g.stop)
  {
    hide Feed;
    FeedConcat(p, s, [b]);
    assert items + [] == items;
  }

  lemma DataRuns(p: Parser, size: nat, d: bytes)
    requires p.state.ChunkData? && p.flags.chunked && 0 < size == p.contentLength < ULLONG_MAX && p.nread == 0
    ensures DataRead(p, size, d)
  {
    hide Feed, Tag;
    if |d| < size {
      PartOfData(p, d);
    } else {
      var data := d[..size];
      WholeData(p, data);
      var q := p.(state := ChunkDataAlmostDone, contentLength := 0);
      if |d| == size {
        assert data == d;
      } else {
        assert d[..size + 1] == data + [d[size]];
        DataCr(q, d[size]);
        FeedMore(p, data, d[size], q, Tag(Body, data));
        if d[size] != '\r' {
          FeedPrefix(p, d, size + 1);
        } else {
          DataLfRuns(p, size, d, q.(state := ChunkDataDone));
        }
      }
    }
  }

  lemma DataLfRuns(p: Parser, size: nat, d: bytes, q: Parser)
    requires size < |d| && d[size] == '\r' && q.flags.chunked
    requires q == p.(state := ChunkDataDone, contentLength := 0)
    requires Feed(p, d[..size + 1]) == Fed(q, Tag(Body, d[..size]), size + 1, Ran)
    ensures DataRead(p, size, d)
  {
    hide Feed, Tag;
    if |d| == size + 1 {
      assert d[..size + 1] == d;
    } else {
      assert d[..size + 2] == d[..size + 1] + [d[size + 1]];
      DataLf(q, d[size + 1]);
      FeedMore(p, d[..size + 1], d[size + 1], q, Tag(Body, d[..size]));
      if d[size + 1] != '\n' {
        FeedPrefix(p, d, size + 2);
      }
    }
  }

  lemma TellsAfter(p: Parser, s: bytes, q: Parser, n: nat, data: bytes, decoded: Decoded)
    requires n <= |s| && Feed(p, s[..n]) == Fed(q, Tag(Body, data), n, Ran)
    requires Tells(q, s[n..], decoded) && AtTrailer(q) == AtTrailer(p)
    ensures Tells(p, s, After(data, n, decoded))
  {
    hide Feed, Tag, InChunks;
    assert s == s[..n] + s[n..];
    FeedConcat(p, s[..n], s[n..]);
    match decoded
    case Done(body, m) =>
      assert s[..n + m] == s[..n] + s[n..][..m];
      FeedConcat(p, s[..n], s[n..][..m]);
      TagConcat(Body, data, body);
    case More(body) => TagConcat(Body, data, body);
    case Broken(body) => TagConcat(Body, data, body);
  }

  lemma {:induction false} DataTells(p: Parser, size: nat, d: bytes)
    requires p.state.ChunkData? && p.flags.chunked && 0 < size == p.contentLength < ULLONG_MAX && p.nread == 0
    ensures Tells(p, d, DecodeData(d, size))
    decreases |d|
  {
    hide Feed, Tag, Decode;
    DataRuns(p, size, d);
    if |d| > size + 1 && d[size] == '\r' && d[size + 1] == '\n' {
      var r := p.(state := ChunkSizeStart, contentLength := 0, nread := 0);
      DecodeTells(r, d[size + 2..]);
      TellsAfter(p, d, r, size + 2, d[..size], Decode(d[size + 2..]));
    }
  }

  /**
   * Whatever bytes s follow the header of a chunked message: what reaches on_body
   * is the decoded body, and the parser takes s for a whole coding, for the start
   * of one, or for an error, as the decoder does.
   */
  lemma {:induction false} DecodeTells(p: Parser, s: bytes)
    requires AtSize(p)
    ensures Tells(p, s, Decode(s))
    decreases |s|
  {
    hide Feed, Tag, ReadLimited;
    LimitedRead(p, s);
    ReadLimitedLength(s);
    TagNothing();
    match ReadLimited(s)
    case Cut =>
    case Bad =>
    case Sized(size, n) =>
      if size > 0 {
        var q := AfterSize(p, size);
        DataTells(q, size, s[n..]);
        TellsAfter(p, s, q, n, [], DecodeData(s[n..], size));
      }
  }

  /** The same for any division into calls. */
  lemma ChunkedBody(p: Parser, chunks: seq<bytes>)
    requires AtSize(p)
    ensures var f, s := RunAll(p, chunks), Concat(chunks);
            match Decode(s)
            case More(body) => f.stop == Ran && f.items == Tag(Body, body)
            case Broken(body) => f.stop.Failed? && f.items <= Tag(Body, body)
            case Done(body, n) =>
              n <= |s|
              && var rest := RunAll(AtTrailer(p), [s[n..]]);
                 f.p == rest.p && f.stop == rest.stop && (!f.stop.Failed? ==> f.items == Tag(Body, body) + rest.items)
  {
    hide RunAll, Feed, Decode, Tag;
    var s := Concat(chunks);
    DecodeTells(p, s);
    RunAllIsFeed(p, chunks);
    if Decode(s).Done? {
      var n := Decode(s).n;
      assert s == s[..n] + s[n..];
      FeedConcat(p, s[..n], s[n..]);
      RunAllIsFeed(AtTrailer(p), [s[n..]]);
      ConcatOne(s[n..]);
    }
  }

  lemma TrailerPasses(p: Parser)
    requires p.nread < MAX_HEADER_SIZE
    ensures p.state.HeaderFieldStart? || p.state.HeadersAlmostDone? ==>
              !BulkState(p.state) && PartOf(p.state).None? && !Overflows(Counted(p))
    ensures p.state.HeaderFieldStart? ==>
              Pass(Counted(p), '\r', 1) == To(p.(nread := p.nread + 1), HeadersAlmostDone)
    ensures p.state.HeadersAlmostDone? && p.flags.trailing ==>
              Pass(Counted(p), '\n', 1) == Complete(p.(nread := p.nread + 1))
  {
    hide NewMessage;
  }

  lemma TrailerCr(p: Parser)
    requires p.state.HeaderFieldStart? && p.nread < MAX_HEADER_SIZE
    ensures Feed(p, ['\r']) == Fed(p.(state := HeadersAlmostDone, nread := p.nread + 1), [], 1, Ran)
  {
    hide Feed, Pass, BulkState, PartOf, Overflows, Counted;
    TrailerPasses(p);
    QuietStep(p, '\r', To(p.(nread := p.nread + 1), HeadersAlmostDone));
  }

  lemma TrailerLf(p: Parser)
    requires p.state.HeadersAlmostDone? && p.flags.trailing && p.nread < MAX_HEADER_SIZE
    ensures Feed(p, ['\n']) == Fed(p.(state := NewMessage(p), nread := p.nread + 1), [Noted(MessageComplete)], 1, Ran)
  {
    hide Feed, NewMessage, Pass, BulkState, PartOf, Overflows, Counted;
    SameNewMessage(p, p.(nread := p.nread + 1));
    TrailerPasses(p);
    QuietStep(p, '\n', Complete(p.(nread := p.nread + 1)));
  }

  lemma SameNewMessage(p: Parser, q: Parser)
    requires q == p.(state := q.state, nread := q.nread)
    ensures NewMessage(p) == NewMessage(q)
  {
  }

  /** The blank line after the trailer completes the message. */
  lemma TrailerEnds(p: Parser)
    requires p.state.HeaderFieldStart? && p.flags.trailing && p.nread + 2 <= MAX_HEADER_SIZE
    ensures Feed(p, "\r\n") == Fed(p.(state := NewMessage(p), nread := p.nread + 2), [Noted(MessageComplete)], 2, Ran)
  {
    hide Feed, NewMessage;
    var q := p.(state := HeadersAlmostDone, nread := p.nread + 1);
    assert ['\r'] + ['\n'] == "\r\n";
    TrailerCr(p);
    FeedSnoc(p, ['\r'], '\n', q);
    SameNewMessage(p, q);
    TrailerLf(q);
  }
}
