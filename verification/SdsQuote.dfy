/** sds.c: strings quoted by sdscatrepr, and the arguments that sdssplitargs reads. */
module SdsQuote {
  import opened Bytes

  // ----- Characters -----

  /** isprint in the C locale. */
  predicate IsPrint(c: byte) {
    ' ' <= c <= '~'
  }

  /** isspace in the C locale. */
  predicate IsSpace(c: byte) {
    c == ' ' || '\t' <= c <= '\r'
  }

  function HexDigit(n: nat): byte
    requires n < 16
  {
    if n < 10 then DigitOf(n) else (n - 10 + 'a' as int) as char
  }

  predicate IsHexDigit(c: byte) {
    IsDigit(c) || 'a' <= c <= 'f' || 'A' <= c <= 'F'
  }

  function HexDigitToInt(c: byte): (n: nat)
    ensures n < 16
  {
    if IsDigit(c) then DigitValue(c)
    else if 'a' <= c <= 'f' then c as int - 'a' as int + 10
    else if 'A' <= c <= 'F' then c as int - 'A' as int + 10
    else 0
  }

  lemma HexDigitInverse(n: nat)
    requires n < 16
    ensures IsHexDigit(HexDigit(n)) && HexDigitToInt(HexDigit(n)) == n
  {
  }

  // ----- Printing -----

  /** What sdscatrepr appends for one byte. */
  function Escaped(c: byte): bytes {
    if c == '\\' || c == '"' then ['\\', c]
    else if c == '\n' then ['\\', 'n']
    else if c == '\r' then ['\\', 'r']
    else if c == '\t' then ['\\', 't']
    else if c == '\U{07}' then ['\\', 'a']
    else if c == '\U{08}' then ['\\', 'b']
    else if IsPrint(c) then [c]
    else ['\\', 'x', HexDigit(c as int / 16), HexDigit(c as int % 16)]
  }

  function EscapedAll(p: bytes): bytes {
    if p == [] then [] else Escaped(p[0]) + EscapedAll(p[1..])
  }

  lemma {:induction false} EscapedMore(p: bytes, c: byte)
    ensures EscapedAll(p + [c]) == EscapedAll(p) + Escaped(c)
  {
    if p == [] {
      assert p + [c] == [c] && [c][1..] == [];
    } else {
      assert (p + [c])[1..] == p[1..] + [c];
      EscapedMore(p[1..], c);
    }
  }

  const QUOTE: bytes := ['"']

  function Quoted(p: bytes): bytes {
    QUOTE + EscapedAll(p) + QUOTE
  }

  /** sdscatrepr. */
  method CatRepr(s: bytes, p: bytes) returns (r: bytes)
    ensures r == s + Quoted(p)
  {
    hide Escaped;
    r := s + QUOTE;
    var i := 0;
    while i < |p|
      invariant 0 <= i <= |p| && r == s + QUOTE + EscapedAll(p[..i])
    {
      assert p[..i + 1] == p[..i] + [p[i]];
      EscapedMore(p[..i], p[i]);
      r := r + Escaped(p[i]);
      i := i + 1;
    }
    assert p[..i] == p;
    r := r + QUOTE;
    assert s + QUOTE + EscapedAll(p) + QUOTE == s + Quoted(p);
  }

  // ----- Reading -----

  /** The character k places on; a C string ends with a NUL. */
  function Peek(s: bytes, k: nat): byte {
    if k < |s| then s[k] else '\0'
  }

  datatype Quotes = Bare | Double | Single

  /** A step inside a token: characters to append and to skip, and how it goes on. */
  datatype Step = More(add: bytes, skip: nat, quotes: Quotes) | Done(skip: nat) | Bad

  function Unescaped(c: byte): byte {
    match c
    case 'n' => '\n'
    case 'r' => '\r'
    case 't' => '\t'
    case 'b' => '\U{08}'
    case 'a' => '\U{07}'
    case _ => c
  }

  /** A closing quote must be followed by a space or nothing. */
  function Close(s: bytes): Step {
    if Peek(s, 1) != '\0' && !IsSpace(Peek(s, 1)) then Bad else Done(1)
  }

  function StepDouble(s: bytes): Step {
    if Peek(s, 0) == '\\' && Peek(s, 1) == 'x' && IsHexDigit(Peek(s, 2)) && IsHexDigit(Peek(s, 3)) then
      More([(HexDigitToInt(Peek(s, 2)) * 16 + HexDigitToInt(Peek(s, 3))) as char], 4, Double)
    else if Peek(s, 0) == '\\' && Peek(s, 1) != '\0' then More([Unescaped(Peek(s, 1))], 2, Double)
    else if Peek(s, 0) == '"' then Close(s)
    else if Peek(s, 0) == '\0' then Bad
    else More([Peek(s, 0)], 1, Double)
  }

  function StepSingle(s: bytes): Step {
    if Peek(s, 0) == '\\' && Peek(s, 1) == '\'' then More(['\''], 2, Single)
    else if Peek(s, 0) == '\'' then Close(s)
    else if Peek(s, 0) == '\0' then Bad
    else More([Peek(s, 0)], 1, Single)
  }

  function StepBare(s: bytes): Step {
    var c := Peek(s, 0);
    if c == ' ' || c == '\n' || c == '\r' || c == '\t' then Done(1)
    else if c == '\0' then Done(0)
    else if c == '"' then More([], 1, Double)
    else if c == '\'' then More([], 1, Single)
    else More([c], 1, Bare)
  }

  /** One turn of the loop over a token. */
  function TokenStep(s: bytes, quotes: Quotes): (r: Step)
    requires '\0' !in s
    ensures r.More? ==> 0 < r.skip <= |s|
    ensures r.Done? ==> r.skip <= |s|
  {
    match quotes
    case Bare => StepBare(s)
    case Double => StepDouble(s)
    case Single => StepSingle(s)
  }

  /** The token that s goes on with, and what follows it. */
  function Token(s: bytes, quotes: Quotes, current: bytes): (r: Option<(bytes, bytes)>)
    requires '\0' !in s
    ensures r.Some? ==> |r.value.1| <= |s| && '\0' !in r.value.1
    decreases |s|
  {
    match TokenStep(s, quotes)
    case More(add, skip, q) => Token(s[skip..], q, current + add)
    case Done(skip) => Some((current, s[skip..]))
    case Bad => None
  }

  function SkipBlanks(s: bytes): (r: bytes)
    ensures |r| <= |s| && ('\0' !in s ==> '\0' !in r)
  {
    if s != [] && IsSpace(s[0]) then SkipBlanks(s[1..]) else s
  }

  lemma TokenTakes(s: bytes)
    requires '\0' !in s && s != [] && !IsSpace(s[0]) && Token(s, Bare, []).Some?
    ensures |Token(s, Bare, []).value.1| < |s|
  {
    var step := TokenStep(s, Bare);
    assert step.More?;
  }

  /** The arguments of a line, or None for unbalanced or badly closed quotes. */
  function Args(s: bytes): Option<seq<bytes>>
    requires '\0' !in s
    decreases |s|
  {
    var t := SkipBlanks(s);
    if t == [] then Some([])
    else
      SkippedAll(s);
      match Token(t, Bare, [])
      case None => None
      case Some((token, rest)) =>
        TokenTakes(t);
        match Args(rest)
        case None => None
        case Some(more) => Some([token] + more)
  }

  lemma SkippedAll(s: bytes)
    ensures SkipBlanks(s) != [] ==> !IsSpace(SkipBlanks(s)[0])
  {
  }

  /** What one step means for the token. */
  lemma TokenGoesOn(s: bytes, quotes: Quotes, current: bytes, step: Step)
    requires '\0' !in s && step == TokenStep(s, quotes)
    ensures step.More? ==> Token(s, quotes, current) == Token(s[step.skip..], step.quotes, current + step.add)
    ensures step.Done? ==> Token(s, quotes, current) == Some((current, s[step.skip..]))
    ensures step.Bad? ==> Token(s, quotes, current) == None
  {
  }

  /** The loop over one token in sdssplitargs. */
  method ReadToken(line: bytes, start: nat) returns (token: Option<bytes>, p: nat)
    requires '\0' !in line && start <= |line|
    ensures start <= p <= |line|
    ensures match Token(line[start..], Bare, [])
            case None => token == None
            case Some((t, rest)) => token == Some(t) && rest == line[p..]
  {
    hide Token, TokenStep;
    p := start;
    var current: bytes, quotes := [], Bare;
    while true
      invariant start <= p <= |line|
      invariant Token(line[start..], Bare, []) == Token(line[p..], quotes, current)
      decreases |line| - p
    {
      var s := line[p..];
      var step := TokenStep(s, quotes);
      TokenGoesOn(s, quotes, current, step);
      match step {
        case More(add, skip, q) =>
          assert s[skip..] == line[p + skip..];
          current, quotes, p := current + add, q, p + skip;
        case Done(skip) =>
          assert s[skip..] == line[p + skip..];
          return Some(current), p + skip;
        case Bad =>
          return None, p;
      }
    }
  }

  /** sdssplitargs. */
  method SplitArgs(line: bytes) returns (vector: Option<seq<bytes>>)
    requires '\0' !in line
    ensures vector == Args(line)
  {
    var p, tokens := 0, [];
    assert line[0..] == line && forall more: seq<bytes> :: [] + more == more;
    while true
      invariant 0 <= p <= |line|
      invariant Args(line) == match Args(line[p..]) case None => None case Some(more) => Some(tokens + more)
      decreases |line| - p
    {
      var from := p;
      while p < |line| && IsSpace(line[p])
        invariant from <= p <= |line| && SkipBlanks(line[from..]) == SkipBlanks(line[p..])
      {
        assert line[p..][1..] == line[p + 1..];
        p := p + 1;
      }
      SkipStops(line[p..]);
      ArgsSkip(line[from..], line[p..]);
      if p == |line| {
        assert line[p..] == [] && tokens + [] == tokens;
        return Some(tokens);
      }
      var token, q := ReadToken(line, p);
      if token.None? {
        return None;
      }
      TokenTakes(line[p..]);
      TokensMore(tokens, token.value);
      tokens, p := tokens + [token.value], q;
    }
  }

  lemma SkipStops(s: bytes)
    requires s == [] || !IsSpace(s[0])
    ensures SkipBlanks(s) == s
  {
  }

  lemma ArgsSkip(s: bytes, t: bytes)
    requires '\0' !in s && '\0' !in t && SkipBlanks(s) == SkipBlanks(t)
    ensures Args(s) == Args(t)
  {
  }

  lemma TokensMore(tokens: seq<bytes>, t: bytes)
    ensures forall more: seq<bytes> :: tokens + ([t] + more) == tokens + [t] + more
  {
  }

  // ----- The round trip -----

  lemma EscapedNoNul(c: byte)
    ensures '\0' !in Escaped(c) && Escaped(c) != []
  {
  }

  lemma {:induction false} EscapedAllNoNul(p: bytes)
    ensures '\0' !in EscapedAll(p)
  {
    if p != [] {
      EscapedNoNul(p[0]);
      EscapedAllNoNul(p[1..]);
    }
  }

  /** One escaped byte is read back. */
  lemma EscapedStep(c: byte, tail: bytes)
    requires '\0' !in tail && tail != []
    ensures '\0' !in Escaped(c) + tail
    ensures TokenStep(Escaped(c) + tail, Double) == More([c], |Escaped(c)|, Double)
  {
    EscapedNoNul(c);
    HexDigitInverse(c as int / 16);
    HexDigitInverse(c as int % 16);
  }

  /** The rest of a quoted string, up to its closing quote. */
  lemma {:induction false} QuotedToken(p: bytes, current: bytes, rest: bytes)
    requires '\0' !in rest && (rest == [] || IsSpace(rest[0]))
    ensures '\0' !in EscapedAll(p) + QUOTE + rest
    ensures Token(EscapedAll(p) + QUOTE + rest, Double, current) == Some((current + p, rest))
  {
    hide TokenStep, Escaped;
    EscapedAllNoNul(p);
    var s := EscapedAll(p) + QUOTE + rest;
    if p == [] {
      assert s == QUOTE + rest && s[1..] == rest && current + [] == current;
      ClosingStep(rest);
    } else {
      var tail := EscapedAll(p[1..]) + QUOTE + rest;
      assert s == Escaped(p[0]) + tail && s[|Escaped(p[0])|..] == tail;
      EscapedAllNoNul(p[1..]);
      EscapedStep(p[0], tail);
      QuotedToken(p[1..], current + [p[0]], rest);
      assert current + [p[0]] + p[1..] == current + p;
    }
  }

  lemma ClosingStep(rest: bytes)
    requires '\0' !in rest && (rest == [] || IsSpace(rest[0]))
    ensures TokenStep(QUOTE + rest, Double) == Done(1)
  {
  }

  /** Quoted strings, joined by spaces. */
  function QuotedLine(list: seq<bytes>): bytes {
    if list == [] then []
    else if |list| == 1 then Quoted(list[0])
    else Quoted(list[0]) + [' '] + QuotedLine(list[1..])
  }

  lemma OpeningStep(tail: bytes)
    requires '\0' !in tail
    ensures TokenStep(QUOTE + tail, Bare) == More([], 1, Double)
  {
  }

  lemma OpeningToken(p: bytes, rest: bytes)
    requires '\0' !in rest && (rest == [] || IsSpace(rest[0]))
    ensures '\0' !in Quoted(p) + rest
    ensures Token(Quoted(p) + rest, Bare, []) == Some((p, rest))
  {
    hide EscapedAll, TokenStep;
    QuotedToken(p, [], rest);
    EscapedAllNoNul(p);
    var tail := EscapedAll(p) + QUOTE + rest;
    var s := QUOTE + tail;
    assert Quoted(p) + rest == s && s[1..] == tail;
    OpeningStep(tail);
    var none: bytes := [];
    assert none + none == none && none + p == p;
  }

  /** sdssplitargs reads back exactly the strings that sdscatrepr quoted. */
  lemma {:induction false} QuotingRoundTrip(list: seq<bytes>)
    ensures '\0' !in QuotedLine(list) && Args(QuotedLine(list)) == Some(list)
  {
    hide Quoted, Token;
    if list != [] {
      var p, more := list[0], list[1..];
      QuotingRoundTrip(more);
      var rest := if more == [] then [] else [' '] + QuotedLine(more);
      assert QuotedLine(list) == Quoted(p) + rest by {
        assert more == [] ==> Quoted(p) + [] == Quoted(p);
        assert Quoted(p) + [' '] + QuotedLine(more) == Quoted(p) + ([' '] + QuotedLine(more));
      }
      OpeningToken(p, rest);
      BlankSkipped(rest, QuotedLine(more));
      QuoteNotBlank(p, rest);
      assert [p] + more == list;
    }
  }

  lemma QuoteNotBlank(p: bytes, rest: bytes)
    ensures var s := Quoted(p) + rest;
            s != [] && SkipBlanks(s) == s
  {
  }

  lemma BlankSkipped(rest: bytes, line: bytes)
    requires '\0' !in line && (rest == [' '] + line || (rest == [] && line == []))
    ensures '\0' !in rest && Args(rest) == Args(line)
  {
    if rest != [] {
      assert rest[1..] == line;
    }
  }
}
