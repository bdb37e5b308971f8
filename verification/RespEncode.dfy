/**
 * The Redis protocol from the sender's side: how every reply tree is written,
 * byte by byte, and what the reply grammar makes of it.  Nothing here names the
 * grammar's own tables; the type bytes are written out.
 */
module RespEncode {
  import opened Bytes
  import opened RespGrammar
  import opened RespFormat

  /** A line to be ended by CR LF holds none itself. */
  predicate OneLine(s: bytes) {
    forall i :: 0 <= i < |s| - 1 ==> !(s[i] == '\r' && s[i + 1] == '\n')
  }

  function Line(s: bytes): bytes {
    s + ['\r', '\n']
  }

  function Signed(n: int): bytes {
    if n < 0 then ['-'] + Decimal(-n) else Decimal(n)
  }

  /** Trees that can be written: arrays have as many elements as they announce. */
  ghost predicate Writable(r: Reply) {
    match r
    case ErrorReply(s) => OneLine(s)
    case StatusReply(s) => OneLine(s)
    case ArrayReply(n, es) => n == |es| && forall e :: e in es ==> Writable(e)
    case _ => true
  }

  /** Arrays nest to a depth of at most 8, counted from d arrays already open. */
  ghost predicate Fits(r: Reply, d: nat) {
    r.ArrayReply? ==> d < 8 && forall e :: e in r.element ==> Fits(e, d + 1)
  }

  function Encode(r: Reply): (s: bytes)
    ensures |s| >= 1
    decreases r, 1
  {
    match r
    case StatusReply(s) => ['+'] + Line(s)
    case ErrorReply(s) => ['-'] + Line(s)
    case IntegerReply(n) => [':'] + Line(Signed(n))
    case NilReply => ['$', '-', '1', '\r', '\n']
    case StringReply(s) => ['$'] + Line(Decimal(|s|)) + Line(s)
    case ArrayReply(_, es) => ['*'] + Line(Decimal(|es|)) + EncodeElements(es)
  }

  function EncodeElements(es: seq<Reply>): bytes
    decreases es, 0
  {
    if es == [] then [] else Encode(es[0]) + EncodeElements(es[1..])
  }

  // ----- Lines -----

  /** The line at the head of the bytes. */
  lemma LineFound(s: bytes, t: bytes)
    requires OneLine(s)
    ensures var u := Line(s) + t;
            LineLength(u) == |s| && u[..|s|] == s && u[|s| + 2..] == t
  {
    var u := Line(s) + t;
    assert CrlfAt(u, |s|);
    assert forall k: nat :: k < |s| ==> !CrlfAt(u, k);
  }

  lemma SignedNumber(n: int)
    ensures OneLine(Signed(n)) && Number(Signed(n)) == n
  {
    if n < 0 {
      NumberOfDecimal(-n);
      assert Signed(n)[1..] == Decimal(-n);
    } else {
      NumberOfDecimal(n);
    }
  }

  // ----- What is written is read back -----

  lemma LineParses(r: Reply, line: bytes, t: bytes, d: nat)
    requires OneLine(line)
    requires match r
             case StatusReply(s) => line == s
             case ErrorReply(s) => line == s
             case IntegerReply(n) => line == Signed(n)
             case _ => false
    ensures ParseItem(Encode(r) + t, d) == Done(r, t)
  {
    var s := Encode(r) + t;
    assert s[1..] == Line(line) + t;
    LineFound(line, t);
    if r.IntegerReply? {
      SignedNumber(r.integer);
    }
  }

  lemma BulkParsed(p: bytes, t: bytes, d: nat)
    ensures ParseItem(Encode(StringReply(p)) + t, d) == Done(StringReply(p), t)
  {
    var s := Encode(StringReply(p)) + t;
    var rest := Line(p) + t;
    SignedNumber(|p|);
    assert s[1..] == Line(Decimal(|p|)) + rest;
    LineFound(Decimal(|p|), rest);
    assert rest[..|p|] == p && rest[|p| + 2..] == t;
  }

  lemma NilParses(t: bytes, d: nat)
    ensures ParseItem(Encode(NilReply) + t, d) == Done(NilReply, t)
  {
    var s := Encode(NilReply) + t;
    var line := ['-', '1'];
    SignedNumber(-1);
    assert Signed(-1) == line;
    assert s[1..] == Line(line) + t;
    LineFound(line, t);
  }

  lemma LeafParses(r: Reply, t: bytes, d: nat)
    requires Writable(r) && !r.ArrayReply?
    ensures ParseItem(Encode(r) + t, d) == Done(r, t)
  {
    match r
    case StatusReply(s) => LineParses(r, s, t, d);
    case ErrorReply(s) => LineParses(r, s, t, d);
    case IntegerReply(n) =>
      SignedNumber(n);
      LineParses(r, Signed(n), t, d);
    case NilReply => NilParses(t, d);
    case StringReply(p) => BulkParsed(p, t, d);
  }

  /** What is left to parse when the length of an array has been read. */
  lemma ArrayOpens(es: seq<Reply>, rest: bytes, d: nat)
    ensures ParseItem(['*'] + Line(Decimal(|es|)) + rest, d) ==
            if d < 8 then ParseElements(|es|, [], rest, d + 1) else Fail(TooDeep)
  {
    var line := Decimal(|es|);
    var s := ['*'] + Line(line) + rest;
    assert s[1..] == Line(line) + rest;
    NumberOfDecimal(|es|);
    LineFound(line, rest);
  }

  /** A tree parses to itself, and to nothing else, if it fits; else its depth is refused. */
  lemma {:induction false} EncodeParses(r: Reply, t: bytes, d: nat)
    requires Writable(r)
    ensures ParseItem(Encode(r) + t, d) == if Fits(r, d) then Done(r, t) else Fail(TooDeep)
    decreases r, 1
  {
    if !r.ArrayReply? {
      LeafParses(r, t, d);
    } else {
      var es := r.element;
      var rest := EncodeElements(es) + t;
      assert Encode(r) + t == ['*'] + Line(Decimal(|es|)) + rest;
      ArrayOpens(es, rest, d);
      if d < 8 {
        assert [] + es == es;
        ElementsParse(es, es, [], t, d + 1);
      }
    }
  }

  lemma {:induction false} ElementsParse(all: seq<Reply>, es: seq<Reply>, acc: seq<Reply>, t: bytes, d: nat)
    requires acc + es == all
    requires forall e :: e in es ==> Writable(e)
    ensures ParseElements(|all|, acc, EncodeElements(es) + t, d) ==
            if forall e :: e in es ==> Fits(e, d) then Done(ArrayReply(|all|, all), t) else Fail(TooDeep)
    decreases es, 0
  {
    if es == [] {
      assert acc == all && EncodeElements(es) + t == t;
    } else {
      var more := EncodeElements(es[1..]) + t;
      assert EncodeElements(es) + t == Encode(es[0]) + more;
      EncodeParses(es[0], more, d);
      if Fits(es[0], d) {
        assert acc + [es[0]] + es[1..] == all;
        ElementsParse(all, es[1..], acc + [es[0]], t, d);
        assert forall e :: e in es <==> e == es[0] || e in es[1..];
      }
    }
  }

  /** A stream of trees parses to those trees, up to the first that nests too deep. */
  lemma {:induction false} StreamParses(rs: seq<Reply>, n: nat)
    requires n <= |rs| && forall r :: r in rs ==> Writable(r)
    requires forall i :: 0 <= i < n ==> Fits(rs[i], 0)
    requires n < |rs| ==> !Fits(rs[n], 0)
    ensures ParseStream(EncodeElements(rs)) == Outcome(rs[..n], if n < |rs| then Some(TooDeep) else None)
    decreases rs
  {
    if rs != [] {
      EncodeParses(rs[0], EncodeElements(rs[1..]), 0);
      if n > 0 {
        StreamParses(rs[1..], n - 1);
        assert [rs[0]] + rs[1..][..n - 1] == rs[..n];
      } else {
        assert rs[..0] == [];
      }
    }
  }

  // ----- Every number line -----

  /** What follows the digits of a number: the end of the line, or a carriage return inside it, ends it well. */
  lemma {:induction false} DigitsRead(ds: bytes, tail: bytes)
    requires forall i :: 0 <= i < |ds| ==> IsDigit(ds[i])
    requires tail != [] ==> !IsDigit(tail[0])
    ensures Digits(ds + tail, 0) == if tail == [] || tail[0] == '\r' then DigitsValue(ds) else -1
  {
    DigitsGo([], ds, tail);
    assert [] + ds == ds;
  }

  lemma {:induction false} DigitsGo(seen: bytes, ds: bytes, tail: bytes)
    requires forall i :: 0 <= i < |seen| ==> IsDigit(seen[i])
    requires forall i :: 0 <= i < |ds| ==> IsDigit(ds[i])
    requires tail != [] ==> !IsDigit(tail[0])
    ensures Digits(ds + tail, DigitsValue(seen)) ==
            if tail == [] || tail[0] == '\r' then DigitsValue(seen + ds) else -1
    decreases |ds|
  {
    if ds == [] {
      assert ds + tail == tail && seen + ds == seen;
    } else {
      var next := seen + [ds[0]];
      assert next[..|next| - 1] == seen;
      assert (ds + tail)[1..] == ds[1..] + tail && next + ds[1..] == seen + ds;
      DigitsGo(next, ds[1..], tail);
    }
  }

  lemma SignedReads(c: byte, rest: bytes)
    requires c == '+' || c == '-'
    ensures var v := Digits(rest, 0);
            Number([c] + rest) == if c == '+' then v else if v < 0 then -1 else -v
  {
    assert ([c] + rest)[1..] == rest;
  }

  /** Any line is a sign or none, digits, and a rest: its number is theirs, and -1 if the rest is not a line end. */
  lemma NumberReads(sign: bytes, ds: bytes, tail: bytes)
    requires sign == [] || (|sign| == 1 && (sign[0] == '+' || sign[0] == '-'))
    requires forall i :: 0 <= i < |ds| ==> IsDigit(ds[i])
    requires tail != [] ==> !IsDigit(tail[0])
    requires sign == [] && ds == [] && tail != [] ==> tail[0] != '+' && tail[0] != '-'
    ensures var v: int := DigitsValue(ds);
            Number(sign + ds + tail) ==
              if tail != [] && tail[0] != '\r' then -1 else if sign != [] && sign[0] == '-' then -v else v
  {
    hide Digits, DigitsValue;
    DigitsRead(ds, tail);
    var rest := ds + tail;
    if sign == [] {
      assert sign + ds + tail == rest;
    } else {
      assert sign + ds + tail == [sign[0]] + rest;
      SignedReads(sign[0], rest);
    }
  }

  // ----- What the grammar forgives, and what it refuses -----

  /** The first byte alone decides on an error. */
  lemma FirstByte(s: bytes, d: nat)
    requires s != []
    ensures s[0] !in {'+', '-', ':', '$', '*'} ==> ParseItem(s, d) == Fail(BadType(s[0]))
    ensures s[0] in {'+', '-', ':', '$'} ==> !ParseItem(s, d).Fail?
    ensures s[0] == '*' && d >= 8 ==> ParseItem(s, d) == Fail(TooDeep)
  {
  }

  /** A bulk string ends at its length, whatever the two bytes behind it are; any negative length is nil. */
  lemma BulkLenient(line: bytes, p: bytes, x: byte, y: byte, t: bytes, d: nat)
    requires OneLine(line)
    ensures Number(line) == |p| ==> ParseItem(['$'] + Line(line) + p + [x, y] + t, d) == Done(StringReply(p), t)
    ensures Number(line) < 0 ==> ParseItem(['$'] + Line(line) + t, d) == Done(NilReply, t)
  {
    var rest := p + [x, y] + t;
    var s := ['$'] + Line(line) + p + [x, y] + t;
    assert s[1..] == Line(line) + rest;
    LineFound(line, rest);
    assert rest[..|p|] == p && rest[|p| + 2..] == t;
    var nil := ['$'] + Line(line) + t;
    assert nil[1..] == Line(line) + t;
    LineFound(line, t);
  }

  /** An array without elements is nil only for the length -1. */
  lemma ArrayLenient(line: bytes, t: bytes, d: nat)
    requires OneLine(line) && Number(line) <= 0 && d < 8
    ensures ParseItem(['*'] + Line(line) + t, d) ==
            Done(if Number(line) == -1 then NilReply else ArrayReply(Number(line), []), t)
  {
    var s := ['*'] + Line(line) + t;
    assert s[1..] == Line(line) + t;
    LineFound(line, t);
  }

  // ----- Prefixes -----

  /** The result of a parse when e follows. */
  function Followed(p: Parsed, e: bytes): Parsed {
    if p.Done? then Done(p.reply, p.rest + e) else p
  }

  lemma {:induction false} ItemFollowed(s: bytes, e: bytes, d: nat)
    requires !ParseItem(s, d).More?
    ensures ParseItem(s + e, d) == Followed(ParseItem(s, d), e)
    decreases |s|, 0
  {
    assert (s + e)[1..] == s[1..] + e;
    var k := KindOf(s[0]);
    if k.Some? {
      TypedFollowed(k.value, s[1..], e, d);
    }
  }

  lemma {:induction false} TypedFollowed(k: Kind, s: bytes, e: bytes, d: nat)
    requires !ParseTyped(k, s, d).More?
    ensures ParseTyped(k, s + e, d) == Followed(ParseTyped(k, s, d), e)
    decreases |s|, 2
  {
    if !(k == ArrayKind && d >= MAX_DEPTH) {
      var n := LineLength(s);
      LineLengthStable(s, e);
      var line, rest := s[..n], s[n + 2..];
      assert (s + e)[..n] == line && (s + e)[n + 2..] == rest + e;
      if k.StringKind? {
        var len := Number(line);
        if len >= 0 {
          assert (rest + e)[..len] == rest[..len] && (rest + e)[len + 2..] == rest[len + 2..] + e;
        }
      } else if k.ArrayKind? && Number(line) > 0 {
        ElementsFollowed(Number(line), [], rest, e, d + 1);
      }
    }
  }

  lemma {:induction false} ElementsFollowed(count: int, acc: seq<Reply>, s: bytes, e: bytes, d: nat)
    requires !ParseElements(count, acc, s, d).More?
    ensures ParseElements(count, acc, s + e, d) == Followed(ParseElements(count, acc, s, d), e)
    decreases |s|, 1
  {
    if |acc| < count {
      ItemFollowed(s, e, d);
      var p := ParseItem(s, d);
      if p.Done? {
        ElementsFollowed(count, acc + [p.reply], p.rest, e, d);
      }
    }
  }

  /** Nothing is answered before the last byte of a tree that fits. */
  lemma PrefixWaits(r: Reply, p: bytes, e: bytes, d: nat)
    requires Writable(r) && Fits(r, d) && p + e == Encode(r) && e != []
    ensures ParseItem(p, d) == More
  {
    EncodeParses(r, [], d);
    assert Encode(r) + [] == Encode(r);
    if !ParseItem(p, d).More? {
      ItemFollowed(p, e, d);
    }
  }
}
