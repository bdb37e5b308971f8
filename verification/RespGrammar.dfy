/**
 * The Redis reply grammar as hiredis reads it, written as a recursive-descent
 * parser over a complete byte string.  It keeps the reader's leniency: a
 * malformed length counts as -1, the two bytes after a bulk payload are skipped
 * unread, and an array below depth 7 is refused on its type byte alone.
 */
module RespGrammar {
  import opened Bytes

  datatype Kind = ErrorKind | StatusKind | IntegerKind | StringKind | ArrayKind

  datatype Reply =
    | ErrorReply(str: bytes)
    | StatusReply(str: bytes)
    | IntegerReply(integer: int)
    | StringReply(str: bytes)
    | NilReply
    | ArrayReply(elements: int, element: seq<Reply>)

  datatype Fault = BadType(b: byte) | TooDeep

  /** More: the bytes end before the item does. */
  datatype Parsed = Done(reply: Reply, rest: bytes) | More | Fail(fault: Fault)

  /** What a whole stream of replies yields. */
  datatype Outcome = Outcome(replies: seq<Reply>, fault: Option<Fault>)

  const MAX_DEPTH: nat := 8

  function KindOf(b: byte): Option<Kind> {
    match b
    case '-' => Some(ErrorKind)
    case '+' => Some(StatusKind)
    case ':' => Some(IntegerKind)
    case '$' => Some(StringKind)
    case '*' => Some(ArrayKind)
    case _ => None
  }

  predicate CrlfAt(s: bytes, i: nat) {
    i + 1 < |s| && s[i] == '\r' && s[i + 1] == '\n'
  }

  /** Position of the first CR LF, or -1. */
  function LineLength(s: bytes): (n: int)
    ensures -1 <= n
    ensures n >= 0 ==> CrlfAt(s, n) && forall k: nat :: k < n ==> !CrlfAt(s, k)
    ensures n < 0 ==> forall k: nat :: !CrlfAt(s, k)
  {
    if |s| < 2 then -1
    else if CrlfAt(s, 0) then 0
    else
      var m := LineLength(s[1..]);
      assert forall k: nat :: k > 0 ==> CrlfAt(s, k) == CrlfAt(s[1..], k - 1);
      if m < 0 then -1 else m + 1
  }

  /** Digits up to the end of the line or a lone CR, added to v; -1 on anything else. */
  function Digits(line: bytes, v: nat): int {
    if line == [] || line[0] == '\r' then v
    else if IsDigit(line[0]) then Digits(line[1..], 10 * v + DigitValue(line[0]))
    else -1
  }

  function Number(line: bytes): int {
    if line != [] && line[0] == '-' then
      var v := Digits(line[1..], 0);
      if v < 0 then -1 else -v
    else if line != [] && line[0] == '+' then Digits(line[1..], 0)
    else Digits(line, 0)
  }

  /** One item at nesting depth d, starting at its type byte. */
  function ParseItem(s: bytes, d: nat): (p: Parsed)
    ensures p.Done? ==> |p.rest| < |s|
    decreases |s|, 0
  {
    if s == [] then More
    else
      match KindOf(s[0])
      case None => Fail(BadType(s[0]))
      case Some(k) => ParseTyped(k, s[1..], d)
  }

  /** The rest of an item whose type byte has been read. */
  function ParseTyped(k: Kind, s: bytes, d: nat): (p: Parsed)
    ensures p.Done? ==> |p.rest| < |s|
    decreases |s|, 2
  {
    if k == ArrayKind && d >= MAX_DEPTH then Fail(TooDeep)
    else
      var n := LineLength(s);
      if n < 0 then More
      else
        var line, rest := s[..n], s[n + 2..];
        match k
        case ErrorKind => Done(ErrorReply(line), rest)
        case StatusKind => Done(StatusReply(line), rest)
        case IntegerKind => Done(IntegerReply(Number(line)), rest)
        case StringKind =>
          var len := Number(line);
          if len < 0 then Done(NilReply, rest)
          else if |rest| < len + 2 then More
          else Done(StringReply(rest[..len]), rest[len + 2..])
        case ArrayKind =>
          var count := Number(line);
          if count == -1 then Done(NilReply, rest)
          else if count <= 0 then Done(ArrayReply(count, []), rest)
          else ParseElements(count, [], rest, d + 1)
  }

  /** The remaining elements of an array of which acc has been read. */
  function ParseElements(count: int, acc: seq<Reply>, s: bytes, d: nat): (p: Parsed)
    ensures p.Done? ==> |p.rest| <= |s|
    decreases |s|, 1
  {
    if |acc| >= count then Done(ArrayReply(count, acc), s)
    else
      match ParseItem(s, d)
      case Done(r, rest) => ParseElements(count, acc + [r], rest, d)
      case More => More
      case Fail(f) => Fail(f)
  }

  function Prepend(rs: seq<Reply>, o: Outcome): Outcome {
    Outcome(rs + o.replies, o.fault)
  }

  function ParseStream(s: bytes): Outcome
    decreases |s|
  {
    match ParseItem(s, 0)
    case More => Outcome([], None)
    case Fail(f) => Outcome([], Some(f))
    case Done(r, rest) => Prepend([r], ParseStream(rest))
  }

  // ----- Suspended parses -----

  /** An array being read: count elements announced, acc of them complete. */
  datatype Frame = Frame(count: int, acc: seq<Reply>)

  /** Completes the enclosing arrays, innermost last in frames. */
  function Unwind(frames: seq<Frame>, p: Parsed): (u: Parsed)
    ensures u.Done? ==> p.Done? && |u.rest| <= |p.rest|
    decreases |frames|
  {
    if !p.Done? || frames == [] then p
    else
      var d := |frames| - 1;
      var f := frames[d];
      Unwind(frames[..d], ParseElements(f.count, f.acc + [p.reply], p.rest, |frames|))
  }

  /** What a parse suspended inside frames, with the type byte read or not, does with s. */
  function Resume(frames: seq<Frame>, kind: Option<Kind>, s: bytes): Parsed {
    Unwind(frames, if kind.None? then ParseItem(s, |frames|) else ParseTyped(kind.value, s, |frames|))
  }

  function ResumeStream(frames: seq<Frame>, kind: Option<Kind>, s: bytes): Outcome {
    match Resume(frames, kind, s)
    case More => Outcome([], None)
    case Fail(f) => Outcome([], Some(f))
    case Done(r, rest) => Prepend([r], ParseStream(rest))
  }

  lemma {:induction false} UnwindStuck(frames: seq<Frame>, p: Parsed)
    requires !p.Done?
    ensures Unwind(frames, p) == p
  {
  }

  /** A completed element either completes its array or leaves it waiting for the next item. */
  lemma UnwindNext(frames: seq<Frame>, r: Reply, rest: bytes)
    requires frames != []
    ensures var d := |frames| - 1;
            var f := frames[d];
            Unwind(frames, Done(r, rest)) ==
              if |f.acc| + 1 >= f.count
              then Unwind(frames[..d], Done(ArrayReply(f.count, f.acc + [r]), rest))
              else Resume(frames[..d] + [f.(acc := f.acc + [r])], None, rest)
  {
    var d := |frames| - 1;
    var f := frames[d];
    if |f.acc| + 1 < f.count {
      var next := frames[..d] + [f.(acc := f.acc + [r])];
      assert next[..d] == frames[..d];
      var p := ParseItem(rest, |frames|);
      if !p.Done? {
        UnwindStuck(next, p);
        UnwindStuck(frames[..d], p);
      }
    }
  }

  /** Entering an array opens a frame. */
  lemma UnwindOpen(frames: seq<Frame>, count: int, rest: bytes)
    requires count > 0
    ensures Unwind(frames, ParseElements(count, [], rest, |frames| + 1)) ==
            Resume(frames + [Frame(count, [])], None, rest)
  {
    var next := frames + [Frame(count, [])];
    assert next[..|frames|] == frames;
    var p := ParseItem(rest, |frames| + 1);
    if p.Done? {
      assert [] + [p.reply] == [p.reply];
    } else {
      UnwindStuck(next, p);
      UnwindStuck(frames, p);
    }
  }

  /** More bytes behind a found line do not move its end. */
  lemma LineLengthStable(s: bytes, e: bytes)
    requires LineLength(s) >= 0
    ensures LineLength(s + e) == LineLength(s)
  {
    var n := LineLength(s);
    assert CrlfAt(s + e, n);
    assert forall k: nat :: k < n ==> CrlfAt(s + e, k) == CrlfAt(s, k);
  }
}
