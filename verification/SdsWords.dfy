/**
 * Lines as a user writes them: bare words, words in double and in single quotes, and
 * bare text in front of either, with blanks between them.  What sdssplitargs makes of
 * such a line, and which lines it refuses.
 */
module SdsWords {
  import opened Bytes
  import opened SdsQuote

  /** The blanks that end a bare word. */
  predicate IsBlank(c: byte) {
    c == ' ' || c == '\n' || c == '\r' || c == '\t'
  }

  predicate Plain(c: byte) {
    !IsBlank(c) && c != '\0' && c != '"' && c != '\''
  }

  predicate AllPlain(b: bytes) {
    forall i :: 0 <= i < |b| ==> Plain(b[i])
  }

  /** Inside single quotes only a single quote is escaped. */
  function Tick(c: byte): bytes {
    if c == '\'' then ['\\', '\''] else [c]
  }

  function Ticked(p: bytes): bytes {
    if p == [] then [] else Tick(p[0]) + Ticked(p[1..])
  }

  /** Bytes that single quotes can hold: no NUL, and not a backslash at the end, which would escape the quote. */
  predicate TickOk(p: bytes) {
    '\0' !in p && (p != [] ==> p[|p| - 1] != '\\')
  }

  /** A word as written: bare text, and perhaps a quoted string right behind it. */
  datatype Word = Word(bare: bytes, quotes: Quotes, p: bytes)

  predicate WordOk(w: Word) {
    && AllPlain(w.bare) && (w.bare != [] ==> !IsSpace(w.bare[0]))
    && match w.quotes
       case Bare => w.bare != [] && w.p == []
       case Double => true
       case Single => TickOk(w.p)
  }

  function Tail(w: Word): bytes {
    match w.quotes
    case Bare => []
    case Double => ['"'] + EscapedAll(w.p) + ['"']
    case Single => ['\''] + Ticked(w.p) + ['\'']
  }

  function Written(w: Word): bytes {
    w.bare + Tail(w)
  }

  function Meant(w: Word): bytes {
    w.bare + w.p
  }

  // ----- One word -----

  lemma {:induction false} TickedNoNul(p: bytes)
    requires '\0' !in p
    ensures '\0' !in Ticked(p)
  {
    if p != [] {
      TickedNoNul(p[1..]);
    }
  }

  /** One byte inside single quotes is read back. */
  lemma TickRead(c: byte, tail: bytes)
    requires c != '\0' && '\0' !in tail && (c == '\\' ==> tail != [] && tail[0] != '\'')
    ensures '\0' !in Tick(c) + tail
    ensures TokenStep(Tick(c) + tail, Single) == More([c], |Tick(c)|, Single)
  {
    hide IsSpace;
    assert c != '\'' ==> (Tick(c) + tail)[0] == c && (tail != [] ==> (Tick(c) + tail)[1] == tail[0]);
  }

  lemma TickedText(p: bytes, behind: bytes)
    requires p != []
    ensures var tail := Ticked(p[1..]) + behind;
            Ticked(p) + behind == Tick(p[0]) + tail && (Tick(p[0]) + tail)[|Tick(p[0])|..] == tail
  {
    assert Ticked(p) == Tick(p[0]) + Ticked(p[1..]);
    hide Ticked, Tick;
    Grouped(Tick(p[0]), Ticked(p[1..]), behind);
  }

  lemma Grouped(a: bytes, b: bytes, c: bytes)
    ensures a + b + c == a + (b + c) && (a + (b + c))[|a|..] == b + c
  {
  }

  /** What follows a byte inside single quotes is fit to follow it. */
  lemma TickedNext(p: bytes, behind: bytes)
    requires p != [] && TickOk(p) && '\0' !in behind
    ensures p[0] != '\0' && '\0' !in Ticked(p[1..]) + behind
    ensures var tail := Ticked(p[1..]) + behind;
            p[0] == '\\' ==> tail != [] && tail[0] != '\''
  {
    assert p[0] in p && forall c :: c in p[1..] ==> c in p;
    TickedNoNul(p[1..]);
    NoNul(Ticked(p[1..]), behind);
    if p[0] == '\\' {
      assert p[1..] != [];
      assert (Ticked(p[1..]) + behind)[0] == Ticked(p[1..])[0];
    }
  }

  /** One byte inside single quotes, and what follows it. */
  lemma TickedGoesOn(p: bytes, behind: bytes)
    requires p != [] && TickOk(p) && '\0' !in behind
    ensures var s := Ticked(p) + behind;
            && '\0' !in s && TokenStep(s, Single) == More([p[0]], |Tick(p[0])|, Single)
            && s[|Tick(p[0])|..] == Ticked(p[1..]) + behind
  {
    hide *;
    TickedText(p, behind);
    TickedNext(p, behind);
    TickRead(p[0], Ticked(p[1..]) + behind);
  }

  /** The rest of a string in single quotes, up to its closing quote. */
  lemma {:induction false} TickedToken(p: bytes, current: bytes, rest: bytes, behind: bytes)
    requires TickOk(p) && '\0' !in rest && (rest == [] || IsSpace(rest[0])) && behind == ['\''] + rest
    ensures '\0' !in Ticked(p) + behind
    ensures Token(Ticked(p) + behind, Single, current) == Some((current + p, rest))
    decreases |p|
  {
    hide Token, TokenStep, Tick;
    var s := Ticked(p) + behind;
    TickCloses(rest);
    if p == [] {
      assert s == behind && s[1..] == rest && current + [] == current;
      TokenGoesOn(s, Single, current, Done(1));
    } else {
      hide Ticked;
      TickedGoesOn(p, behind);
      TokenGoesOn(s, Single, current, TokenStep(s, Single));
      TickOkRest(p);
      TickedToken(p[1..], current + [p[0]], rest, behind);
      assert current + [p[0]] + p[1..] == current + p;
    }
  }

  lemma TickOkRest(p: bytes)
    requires p != [] && TickOk(p)
    ensures TickOk(p[1..])
  {
  }

  lemma TickCloses(rest: bytes)
    requires '\0' !in rest && (rest == [] || IsSpace(rest[0]))
    ensures TokenStep(['\''] + rest, Single) == Done(1)
  {
  }

  /** Bare text is taken as it is. */
  lemma {:induction false} BareToken(b: bytes, current: bytes, tail: bytes)
    requires AllPlain(b) && '\0' !in tail
    ensures '\0' !in b + tail
    ensures Token(b + tail, Bare, current) == Token(tail, Bare, current + b)
    decreases |b|
  {
    hide TokenStep;
    if b == [] {
      assert b + tail == tail && current + b == current;
    } else {
      var s := b + tail;
      assert s[1..] == b[1..] + tail;
      BareToken(b[1..], current + [b[0]], tail);
      PlainStep(s);
      TokenGoesOn(s, Bare, current, More([b[0]], 1, Bare));
      assert current + [b[0]] + b[1..] == current + b;
    }
  }

  lemma PlainStep(s: bytes)
    requires s != [] && Plain(s[0]) && '\0' !in s
    ensures TokenStep(s, Bare) == More([s[0]], 1, Bare)
  {
  }

  /** A quote opens, behind bare text or at the start of a word. */
  lemma QuoteOpens(quotes: Quotes, tail: bytes, current: bytes)
    requires !quotes.Bare? && '\0' !in tail
    ensures var q := if quotes.Double? then ['"'] else ['\''];
            '\0' !in q + tail && Token(q + tail, Bare, current) == Token(tail, quotes, current)
  {
    hide Token;
    var s := (if quotes.Double? then ['"'] else ['\'']) + tail;
    assert s[1..] == tail && current + [] == current;
    TokenGoesOn(s, Bare, current, More([], 1, quotes));
  }

  /** What a bare word leaves: the blank behind it is taken with it. */
  function Behind(quotes: Quotes, rest: bytes): bytes {
    if quotes.Bare? && rest != [] then rest[1..] else rest
  }

  lemma BareEnds(current: bytes, rest: bytes)
    requires '\0' !in rest && (rest == [] || IsBlank(rest[0]))
    ensures Token(rest, Bare, current) == Some((current, Behind(Bare, rest)))
  {
    hide Token;
    TokenGoesOn(rest, Bare, current, TokenStep(rest, Bare));
  }

  lemma EscapedFine(p: bytes)
    ensures '\0' !in EscapedAll(p)
  {
    EscapedAllNoNul(p);
  }

  /** The quoted part of a word, or none. */
  lemma TailToken(w: Word, current: bytes, rest: bytes)
    requires WordOk(w) && '\0' !in rest && (rest == [] || IsBlank(rest[0]))
    ensures '\0' !in Tail(w) + rest
    ensures Token(Tail(w) + rest, Bare, current) == Some((current + w.p, Behind(w.quotes, rest)))
  {
    hide Token, EscapedAll, Ticked;
    match w.quotes
    case Bare =>
      assert Tail(w) + rest == rest && current + [] == current;
      BareEnds(current, rest);
    case Double =>
      QuotedToken(w.p, current, rest);
      assert Tail(w) + rest == ['"'] + (EscapedAll(w.p) + QUOTE + rest);
      QuoteOpens(Double, EscapedAll(w.p) + QUOTE + rest, current);
    case Single =>
      var behind := ['\''] + rest;
      TickedToken(w.p, current, rest, behind);
      assert Tail(w) + rest == ['\''] + (Ticked(w.p) + behind);
      QuoteOpens(Single, Ticked(w.p) + behind, current);
  }

  lemma WordToken(w: Word, rest: bytes)
    requires WordOk(w) && '\0' !in rest && (rest == [] || IsBlank(rest[0]))
    ensures '\0' !in Written(w) + rest
    ensures Token(Written(w) + rest, Bare, []) == Some((Meant(w), Behind(w.quotes, rest)))
  {
    hide Token, WordOk, Tail;
    TailToken(w, w.bare, rest);
    WordPlain(w);
    BareToken(w.bare, [], Tail(w) + rest);
    assert Written(w) + rest == w.bare + (Tail(w) + rest) && [] + w.bare == w.bare;
  }

  lemma WordPlain(w: Word)
    requires WordOk(w)
    ensures AllPlain(w.bare)
  {
  }

  // ----- Lines -----

  predicate AllSpace(g: bytes) {
    forall i :: 0 <= i < |g| ==> IsSpace(g[i])
  }

  /** What separates words: spaces of any kind, the first of which ends a bare word. */
  predicate GapOk(g: bytes) {
    g != [] && IsBlank(g[0]) && AllSpace(g)
  }

  /** Words, each with what follows it; only the last may have nothing behind it. */
  predicate LineOk(ws: seq<Word>, gaps: seq<bytes>) {
    && |ws| == |gaps|
    && (forall w <- ws :: WordOk(w))
    && forall i :: 0 <= i < |gaps| ==> GapOk(gaps[i]) || (gaps[i] == [] && i == |gaps| - 1)
  }

  function LineText(ws: seq<Word>, gaps: seq<bytes>): bytes
    requires |ws| == |gaps|
  {
    if ws == [] then [] else Written(ws[0]) + (gaps[0] + LineText(ws[1..], gaps[1..]))
  }

  function MeantAll(ws: seq<Word>): seq<bytes> {
    if ws == [] then [] else [Meant(ws[0])] + MeantAll(ws[1..])
  }

  lemma {:induction false} SpacesSkipped(g: bytes, s: bytes)
    requires AllSpace(g)
    ensures SkipBlanks(g + s) == SkipBlanks(s)
  {
    if g == [] {
      assert g + s == s;
    } else {
      assert (g + s)[1..] == g[1..] + s;
      SpacesSkipped(g[1..], s);
    }
  }

  lemma SpaceNoNul(g: bytes)
    requires AllSpace(g)
    ensures '\0' !in g
  {
  }

  lemma NoNul(a: bytes, b: bytes)
    requires '\0' !in a && '\0' !in b
    ensures '\0' !in a + b
  {
  }

  lemma WordStarts(w: Word, rest: bytes)
    requires WordOk(w)
    ensures Written(w) + rest != [] && SkipBlanks(Written(w) + rest) == Written(w) + rest
  {
    hide EscapedAll, Ticked;
    var s := Written(w) + rest;
    assert s[0] == if w.bare != [] then w.bare[0] else Tail(w)[0];
  }

  /** One word, and what the rest of the line gives. */
  lemma ArgsWord(w: Word, rest: bytes)
    requires WordOk(w) && '\0' !in rest && (rest == [] || IsBlank(rest[0]))
    ensures '\0' !in Written(w) + rest
    ensures Args(Written(w) + rest) ==
            match Args(Behind(w.quotes, rest)) case None => None case Some(more) => Some([Meant(w)] + more)
  {
    hide Token, Written, Meant, WordOk;
    WordToken(w, rest);
    WordStarts(w, rest);
  }

  /** Args does not see spaces at the front. */
  lemma ArgsSpaces(g: bytes, s: bytes)
    requires AllSpace(g) && '\0' !in s
    ensures '\0' !in g + s && Args(g + s) == Args(s)
  {
    SpaceNoNul(g);
    SpacesSkipped(g, s);
    ArgsSkip(g + s, s);
    hide Args;
  }

  lemma ArgsBehind(quotes: Quotes, g: bytes, s: bytes)
    requires GapOk(g) && '\0' !in s
    ensures '\0' !in g + s && Args(Behind(quotes, g + s)) == Args(s)
  {
    ArgsSpaces(g, s);
    ArgsSpaces(g[1..], s);
    assert (g + s)[1..] == g[1..] + s;
    hide Args;
  }

  /** Words in front of a line. */
  lemma {:induction false} WordsFirst(ws: seq<Word>, gaps: seq<bytes>, tail: bytes)
    requires |ws| == |gaps| && (forall w <- ws :: WordOk(w)) && (forall g <- gaps :: GapOk(g)) && '\0' !in tail
    ensures '\0' !in LineText(ws, gaps) + tail
    ensures Args(LineText(ws, gaps) + tail) ==
            match Args(tail) case None => None case Some(more) => Some(MeantAll(ws) + more)
    decreases |ws|
  {
    hide Args, Written, Meant, WordOk, GapOk;
    if ws == [] {
      assert LineText(ws, gaps) + tail == tail;
      assert forall more: seq<bytes> :: [] + more == more;
    } else {
      var line := LineText(ws[1..], gaps[1..]) + tail;
      WordsFirst(ws[1..], gaps[1..], tail);
      assert gaps[0] in gaps;
      GapFirst(gaps[0], line);
      ArgsBehind(ws[0].quotes, gaps[0], line);
      ArgsWord(ws[0], gaps[0] + line);
      assert LineText(ws, gaps) + tail == Written(ws[0]) + (gaps[0] + line);
      assert forall more: seq<bytes> :: [Meant(ws[0])] + (MeantAll(ws[1..]) + more) == MeantAll(ws) + more;
    }
  }

  lemma GapFirst(g: bytes, s: bytes)
    requires GapOk(g)
    ensures g + s != [] && IsBlank((g + s)[0])
  {
  }

  /**
   * Words written in any of these ways, with any blanks around them, are split into
   * exactly the words meant.
   */
  lemma SplitWritten(front: bytes, ws: seq<Word>, gaps: seq<bytes>, last: Word, end: bytes)
    requires AllSpace(front) && |ws| == |gaps| && (forall w <- ws :: WordOk(w)) && (forall g <- gaps :: GapOk(g))
    requires WordOk(last) && (end == [] || GapOk(end))
    ensures var line := front + (LineText(ws, gaps) + (Written(last) + end));
            '\0' !in line && Args(line) == Some(MeantAll(ws) + [Meant(last)])
  {
    hide Args, Written, Meant, WordOk;
    ArgsNone();
    EndFine(end);
    if end != [] {
      assert end + [] == end;
      ArgsBehind(last.quotes, end, []);
    }
    ArgsWord(last, end);
    assert [Meant(last)] + [] == [Meant(last)];
    WordsFirst(ws, gaps, Written(last) + end);
    ArgsSpaces(front, LineText(ws, gaps) + (Written(last) + end));
  }

  lemma EndFine(end: bytes)
    requires end == [] || GapOk(end)
    ensures '\0' !in end && (end == [] || IsBlank(end[0]))
  {
    if end != [] {
      SpaceNoNul(end);
    }
  }

  lemma ArgsNone()
    ensures Args([]) == Some([])
  {
  }

  // ----- Lines that are refused -----

  /** A quote that is never closed, or is followed by something other than a space. */
  predicate BadTail(quotes: Quotes, p: bytes, behind: bytes) {
    && '\0' !in behind
    && match quotes
       case Bare => false
       case Double => behind == [] || (|behind| > 1 && behind[0] == '"' && !IsSpace(behind[1]))
       case Single => TickOk(p) && (behind == [] || (|behind| > 1 && behind[0] == '\'' && !IsSpace(behind[1])))
  }

  lemma {:induction false} TickedBad(p: bytes, current: bytes, behind: bytes)
    requires BadTail(Single, p, behind)
    ensures '\0' !in Ticked(p) + behind && Token(Ticked(p) + behind, Single, current) == None
    decreases |p|
  {
    hide Token, TokenStep;
    TickedNoNul(p);
    NoNul(Ticked(p), behind);
    var s := Ticked(p) + behind;
    if p == [] {
      assert s == behind;
      TickBadStep(behind);
      TokenGoesOn(s, Single, current, Bad);
    } else {
      TickedGoesOn(p, behind);
      TokenGoesOn(s, Single, current, More([p[0]], |Tick(p[0])|, Single));
      assert TickOk(p[1..]);
      TickedBad(p[1..], current + [p[0]], behind);
    }
  }

  lemma TickBadStep(behind: bytes)
    requires BadTail(Single, [], behind)
    ensures TokenStep(behind, Single) == Bad
  {
  }

  lemma {:induction false} EscapedBad(p: bytes, current: bytes, behind: bytes)
    requires BadTail(Double, p, behind)
    ensures '\0' !in EscapedAll(p) + behind && Token(EscapedAll(p) + behind, Double, current) == None
    decreases |p|
  {
    hide Token, TokenStep, Escaped;
    EscapedAllNoNul(p);
    NoNul(EscapedAll(p), behind);
    var s := EscapedAll(p) + behind;
    if p == [] {
      assert s == behind;
      DoubleBadStep(behind);
      TokenGoesOn(s, Double, current, Bad);
    } else {
      var tail := EscapedAll(p[1..]) + behind;
      EscapedAllNoNul(p[1..]);
      NoNul(EscapedAll(p[1..]), behind);
      assert s == Escaped(p[0]) + tail && s[|Escaped(p[0])|..] == tail;
      EscapedBefore(p[0], tail);
      TokenGoesOn(s, Double, current, More([p[0]], |Escaped(p[0])|, Double));
      EscapedBad(p[1..], current + [p[0]], behind);
    }
  }

  lemma DoubleBadStep(behind: bytes)
    requires BadTail(Double, [], behind)
    ensures TokenStep(behind, Double) == Bad
  {
  }

  lemma EscapedBefore(c: byte, tail: bytes)
    requires '\0' !in tail
    ensures '\0' !in Escaped(c) + tail && TokenStep(Escaped(c) + tail, Double) == More([c], |Escaped(c)|, Double)
  {
    EscapedNoNul(c);
    HexDigitInverse(c as int / 16);
    HexDigitInverse(c as int % 16);
  }

  function BadText(bare: bytes, quotes: Quotes, p: bytes, behind: bytes): bytes {
    bare + ((if quotes.Double? then ['"'] + EscapedAll(p) else ['\''] + Ticked(p)) + behind)
  }

  lemma BadToken(bare: bytes, quotes: Quotes, p: bytes, behind: bytes)
    requires AllPlain(bare) && BadTail(quotes, p, behind)
    ensures '\0' !in BadText(bare, quotes, p, behind) && Token(BadText(bare, quotes, p, behind), Bare, []) == None
  {
    hide Token, EscapedAll, Ticked;
    var text := if quotes.Double? then EscapedAll(p) else Ticked(p);
    if quotes.Double? {
      EscapedBad(p, bare, behind);
    } else {
      TickedBad(p, bare, behind);
    }
    QuoteOpens(quotes, text + behind, bare);
    var q := if quotes.Double? then ['"'] else ['\''];
    assert q + text + behind == q + (text + behind);
    BareToken(bare, [], q + (text + behind));
    assert [] + bare == bare;
  }

  lemma BadStarts(bare: bytes, quotes: Quotes, p: bytes, behind: bytes)
    requires AllPlain(bare) && (bare != [] ==> !IsSpace(bare[0]))
    ensures var s := BadText(bare, quotes, p, behind);
            s != [] && SkipBlanks(s) == s
  {
    hide EscapedAll, Ticked;
    var s := BadText(bare, quotes, p, behind);
    assert bare != [] ==> s[0] == bare[0];
  }

  /** A line whose last word has a quote that is not closed, or closed in front of something else, gives NULL. */
  lemma BadRefused(front: bytes, ws: seq<Word>, gaps: seq<bytes>, bare: bytes, quotes: Quotes, p: bytes, behind: bytes)
    requires AllSpace(front) && |ws| == |gaps| && (forall w <- ws :: WordOk(w)) && (forall g <- gaps :: GapOk(g))
    requires AllPlain(bare) && (bare != [] ==> !IsSpace(bare[0])) && BadTail(quotes, p, behind)
    ensures var line := front + (LineText(ws, gaps) + BadText(bare, quotes, p, behind));
            '\0' !in line && Args(line) == None
  {
    hide Token, WordOk, BadText, Written;
    BadToken(bare, quotes, p, behind);
    BadStarts(bare, quotes, p, behind);
    var bad := BadText(bare, quotes, p, behind);
    assert Args(bad) == None;
    WordsFirst(ws, gaps, bad);
    ArgsSpaces(front, LineText(ws, gaps) + bad);
  }

  // ----- Escapes -----

  /** The value of a hexadecimal digit, in either case. */
  lemma HexDigits(i: nat)
    requires i < 16
    ensures IsHexDigit("0123456789abcdef"[i]) && HexDigitToInt("0123456789abcdef"[i]) == i
    ensures IsHexDigit("0123456789ABCDEF"[i]) && HexDigitToInt("0123456789ABCDEF"[i]) == i
  {
    var lower, upper := "0123456789abcdef", "0123456789ABCDEF";
    if i < 10 {
      assert lower[i] == upper[i] == DigitOf(i);
    } else {
      assert lower[i] as int == i - 10 + 'a' as int && upper[i] as int == i - 10 + 'A' as int;
    }
  }

  /** In double quotes, \x and two digits are the byte; any other escaped character stands for itself or a control. */
  lemma EscapesRead(h: nat, l: nat, c: byte, tail: bytes)
    requires h < 16 && l < 16 && c != '\0' && '\0' !in tail
    ensures var digits := "0123456789ABCDEF";
            TokenStep(['\\', 'x', digits[h], digits[l]] + tail, Double) == More([(16 * h + l) as char], 4, Double)
    ensures !(c == 'x' && |tail| >= 2 && IsHexDigit(tail[0]) && IsHexDigit(tail[1])) ==>
              TokenStep(['\\', c] + tail, Double) ==
              More([match c
                    case 'n' => '\n' case 'r' => '\r' case 't' => '\t' case 'a' => '\U{07}' case 'b' => '\U{08}'
                    case _ => c], 2, Double)
  {
    HexDigits(h);
    HexDigits(l);
  }
}
