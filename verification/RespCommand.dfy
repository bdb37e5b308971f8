/** redisvFormatCommand: how a format string and its values become the arguments of a command. */
module RespCommand {
  import opened Bytes
  import opened RespGrammar
  import opened RespFormat

  /** One item of a format: a space, a byte to be taken as it is, or a value in place of a directive. */
  datatype Piece = Gap | Literal(c: byte) | Value(v: bytes) {
    function Text(): bytes {
      match this
      case Gap => []
      case Literal(c) => [c]
      case Value(v) => v
    }
  }

  /** The string that a buffer holds when it is read up to its first NUL. */
  function CString(s: bytes): (t: bytes)
    ensures t <= s && '\0' !in t
    ensures t == s || s[|t|] == '\0'
  {
    if s == [] || s[0] == '\0' then [] else [s[0]] + CString(s[1..])
  }

  /** The percent sign at the front begins a directive; one that ends the format stands for itself. */
  predicate AtDirective(format: bytes) {
    |format| > 1 && format[0] == '%'
  }

  /** A C string whose directives are all %s, %b or %%, and there are values for them. */
  predicate Supported(format: bytes, values: nat) {
    format == []
    || (format[0] != '\0' &&
        if !AtDirective(format) then Supported(format[1..], values)
        else if format[1] == '%' then Supported(format[2..], values)
        else format[1] in "sb" && values > 0 && Supported(format[2..], values - 1))
  }

  function Pieces(format: bytes, values: seq<bytes>): seq<Piece>
    requires Supported(format, |values|)
  {
    if format == [] then []
    else if !AtDirective(format) then
      [if format[0] == ' ' then Gap else Literal(format[0])] + Pieces(format[1..], values)
    else if format[1] == '%' then [Literal('%')] + Pieces(format[2..], values)
    else [Value(if format[1] == 's' then CString(values[0]) else values[0])] + Pieces(format[2..], values[1..])
  }

  // ----- The arguments of a format: its maximal runs without a space -----

  predicate GapFree(ps: seq<Piece>) {
    forall i :: 0 <= i < |ps| ==> !ps[i].Gap?
  }

  function Text(run: seq<Piece>): bytes {
    if run == [] then [] else Text(run[..|run| - 1]) + run[|run| - 1].Text()
  }

  /** The number of pieces before the first space. */
  function RunLength(ps: seq<Piece>): (n: nat)
    ensures n <= |ps| && GapFree(ps[..n])
    ensures n == |ps| || ps[n].Gap?
  {
    if ps == [] || ps[0].Gap? then 0 else 1 + RunLength(ps[1..])
  }

  function Words(ps: seq<Piece>): seq<bytes>
    decreases |ps|
  {
    if ps == [] then []
    else if ps[0].Gap? then Words(ps[1..])
    else [Text(ps[..RunLength(ps)])] + Words(ps[RunLength(ps)..])
  }

  lemma {:induction false} RunIs(run: seq<Piece>, rest: seq<Piece>)
    requires GapFree(run) && (rest == [] || rest[0].Gap?)
    ensures RunLength(run + rest) == |run|
  {
    if run == [] {
      assert run + rest == rest;
    } else {
      assert (run + rest)[1..] == run[1..] + rest;
      RunIs(run[1..], rest);
    }
  }

  /** A run that nothing but a space or the end follows is an argument, even if its text is empty. */
  lemma WordEnds(run: seq<Piece>, rest: seq<Piece>)
    requires GapFree(run) && (rest == [] || rest[0].Gap?)
    ensures Words(run + rest) == (if run == [] then [] else [Text(run)]) + Words(rest)
  {
    if run == [] {
      assert run + rest == rest;
    } else {
      RunIs(run, rest);
      assert (run + rest)[..|run|] == run && (run + rest)[|run|..] == rest;
    }
  }

  // ----- redisvFormatCommand -----

  lemma TextSnoc(run: seq<Piece>, p: Piece)
    ensures Text(run + [p]) == Text(run) + p.Text()
  {
    assert (run + [p])[..|run|] == run;
  }

  lemma RunGrows(run: seq<Piece>, p: Piece, rest: seq<Piece>)
    ensures run + ([p] + rest) == (run + [p]) + rest
  {
  }

  lemma BulksSnoc(argv: seq<bytes>, a: bytes)
    ensures |Bulks(argv + [a])| == |Bulks(argv)| + |Bulk(a)|
  {
    BulksAppend(argv, [a]);
    assert [a][1..] == [];
    assert Bulks([a]) == Bulk(a) + Bulks([]);
  }

  /** The arguments so far, those that the current run and the rest of the format will give, and the whole. */
  ghost predicate Reading(format: bytes, values: seq<bytes>, argv: seq<bytes>, run: seq<Piece>, all: seq<bytes>) {
    Supported(format, |values|) && GapFree(run) && argv + Words(run + Pieces(format, values)) == all
  }

  /** A piece that is not a space belongs to the current argument. */
  lemma ReadingGrows(format: bytes, values: seq<bytes>, argv: seq<bytes>, run: seq<Piece>, all: seq<bytes>,
                     p: Piece, format': bytes, values': seq<bytes>)
    requires Reading(format, values, argv, run, all)
    requires Supported(format', |values'|) && !p.Gap?
    requires Pieces(format, values) == [p] + Pieces(format', values')
    ensures Reading(format', values', argv, run + [p], all)
    ensures Text(run + [p]) == Text(run) + p.Text()
  {
    RunGrows(run, p, Pieces(format', values'));
    TextSnoc(run, p);
  }

  /** What one pass over a byte that is no directive, over %%, and over %s or %b adds to the current argument. */
  lemma ReadingLiteral(f: bytes, v: seq<bytes>, argv: seq<bytes>, run: seq<Piece>, all: seq<bytes>)
    requires Reading(f, v, argv, run, all) && f != [] && !AtDirective(f) && f[0] != ' '
    ensures Reading(f[1..], v, argv, run + [Literal(f[0])], all)
    ensures Text(run + [Literal(f[0])]) == Text(run) + [f[0]]
  {
    ReadingGrows(f, v, argv, run, all, Literal(f[0]), f[1..], v);
  }

  lemma ReadingPercent(f: bytes, v: seq<bytes>, argv: seq<bytes>, run: seq<Piece>, all: seq<bytes>)
    requires Reading(f, v, argv, run, all) && AtDirective(f) && f[1] == '%'
    ensures Reading(f[2..], v, argv, run + [Literal('%')], all)
    ensures Text(run + [Literal('%')]) == Text(run) + ['%']
  {
    ReadingGrows(f, v, argv, run, all, Literal('%'), f[2..], v);
  }

  lemma ReadingValue(f: bytes, v: seq<bytes>, argv: seq<bytes>, run: seq<Piece>, all: seq<bytes>)
    requires Reading(f, v, argv, run, all) && AtDirective(f) && f[1] != '%'
    ensures v != []
    ensures var arg := if f[1] == 's' then CString(v[0]) else v[0];
            Reading(f[2..], v[1..], argv, run + [Value(arg)], all) && Text(run + [Value(arg)]) == Text(run) + arg
  {
    var arg := if f[1] == 's' then CString(v[0]) else v[0];
    ReadingGrows(f, v, argv, run, all, Value(arg), f[2..], v[1..]);
  }

  /** A space ends the current argument, if there is one. */
  lemma ReadingEnds(format: bytes, values: seq<bytes>, argv: seq<bytes>, run: seq<Piece>, all: seq<bytes>)
    requires format != [] && format[0] == ' '
    requires Reading(format, values, argv, run, all)
    ensures Reading(format[1..], values, if run == [] then argv else argv + [Text(run)], [], all)
  {
    var rest := Pieces(format[1..], values);
    assert Pieces(format, values) == [Gap] + rest;
    WordEnds(run, [Gap] + rest);
    assert Words([Gap] + rest) == Words(rest) by {
      assert ([Gap] + rest)[1..] == rest;
    }
    assert [] + rest == rest;
    if run != [] {
      assert argv + ([Text(run)] + Words(rest)) == (argv + [Text(run)]) + Words(rest);
    } else {
      assert [] + Words(rest) == Words(rest);
    }
  }

  lemma ReadingStarts(format: bytes, values: seq<bytes>)
    requires Supported(format, |values|)
    ensures Reading(format, values, [], [], Words(Pieces(format, values)))
    ensures Text([]) == [] && Bulks([]) == []
  {
    assert [] + Pieces(format, values) == Pieces(format, values);
  }

  lemma ReadingDone(values: seq<bytes>, argv: seq<bytes>, run: seq<Piece>, all: seq<bytes>)
    requires Reading([], values, argv, run, all)
    ensures all == if run == [] then argv else argv + [Text(run)]
  {
    WordEnds(run, []);
  }

  /** The arguments of a format, and the space they take in the command. */
  method ReadFormat(format: bytes, values: seq<bytes>) returns (curargv: seq<bytes>, totlen: nat)
    requires Supported(format, |values|)
    ensures curargv == Words(Pieces(format, values))
    ensures totlen == |Bulks(curargv)|
  {
    hide Words, Bulks, BulkAs, Reading, Supported, Text, Pieces;
    curargv, totlen := [], 0;
    var curarg: bytes, touched := [], false;
    var c, ap := 0, 0;
    ghost var run, all := [], Words(Pieces(format, values));
    ReadingStarts(format, values);
    assert format[0..] == format && values[0..] == values;
    while c < |format|
      invariant 0 <= c <= |format| && 0 <= ap <= |values|
      invariant Reading(format[c..], values[ap..], curargv, run, all)
      invariant curarg == Text(run) && (touched <==> run != [])
      invariant totlen == |Bulks(curargv)|
    {
      ghost var f, v := format[c..], values[ap..];
      if format[c] != '%' || c + 1 == |format| {
        if format[c] == ' ' {
          ReadingEnds(f, v, curargv, run, all);
          if touched {
            BulksSnoc(curargv, curarg);
            var n := BulkLen(|curarg|);
            curargv := curargv + [curarg];
            totlen := totlen + n;
            curarg, touched := [], false;
            run := [];
          }
        } else {
          ReadingLiteral(f, v, curargv, run, all);
          run := run + [Literal(format[c])];
          curarg := curarg + [format[c]];
          touched := true;
        }
        c := c + 1;
      } else {
        assert AtDirective(f) && f[1] == format[c + 1];
        if format[c + 1] == '%' {
          ReadingPercent(f, v, curargv, run, all);
          run := run + [Literal('%')];
          curarg := curarg + ['%'];
        } else {
          ReadingValue(f, v, curargv, run, all);
          var arg := values[ap];
          if format[c + 1] == 's' {
            arg := CString(arg);
          }
          run := run + [Value(arg)];
          if |arg| > 0 {
            curarg := curarg + arg;
          }
          ap := ap + 1;
        }
        touched := true;
        c := c + 2;
      }
    }
    assert format[c..] == [];
    ReadingDone(values[ap..], curargv, run, all);
    if touched {
      BulksSnoc(curargv, curarg);
      var n := BulkLen(|curarg|);
      curargv := curargv + [curarg];
      totlen := totlen + n;
    }
  }

  /** The command of the arguments, and its length. */
  method FormatCommand(format: bytes, values: seq<bytes>) returns (cmd: array<byte>, totlen: nat)
    requires Supported(format, |values|)
    ensures totlen == |Command(Words(Pieces(format, values)))| && cmd.Length == totlen + 1
    ensures cmd[..totlen] == Command(Words(Pieces(format, values))) && cmd[totlen] == '\0'
    ensures fresh(cmd)
  {
    var argv, len := ReadFormat(format, values);
    var digits := CountDigits(|argv|);
    totlen := len + (1 + digits + 2);
    cmd := WriteCommand(argv, totlen);
  }

  // ----- What a format can say -----

  predicate SameGaps(ps: seq<Piece>, qs: seq<Piece>) {
    |ps| == |qs| && forall i :: 0 <= i < |ps| ==> ps[i].Gap? == qs[i].Gap?
  }

  lemma {:induction false} SameRunLength(ps: seq<Piece>, qs: seq<Piece>)
    requires SameGaps(ps, qs)
    ensures RunLength(ps) == RunLength(qs)
  {
    if ps != [] && !ps[0].Gap? {
      SameRunLength(ps[1..], qs[1..]);
    }
  }

  lemma {:induction false} SameRuns(ps: seq<Piece>, qs: seq<Piece>)
    requires SameGaps(ps, qs)
    ensures |Words(ps)| == |Words(qs)|
    decreases |ps|
  {
    if ps != [] {
      if ps[0].Gap? {
        SameRuns(ps[1..], qs[1..]);
      } else {
        SameRunLength(ps, qs);
        SameRuns(ps[RunLength(ps)..], qs[RunLength(qs)..]);
      }
    }
  }

  lemma {:induction false} PiecesSameGaps(format: bytes, values: seq<bytes>, values': seq<bytes>)
    requires |values| == |values'| && Supported(format, |values|)
    ensures SameGaps(Pieces(format, values), Pieces(format, values'))
    decreases |format|
  {
    if format != [] {
      if !AtDirective(format) {
        PiecesSameGaps(format[1..], values, values');
      } else if format[1] == '%' {
        PiecesSameGaps(format[2..], values, values');
      } else {
        PiecesSameGaps(format[2..], values[1..], values'[1..]);
      }
    }
  }

  /** The format alone fixes the number of arguments: no value can split or join them. */
  lemma ArgumentCount(format: bytes, values: seq<bytes>, values': seq<bytes>)
    requires |values| == |values'| && Supported(format, |values|)
    ensures |Words(Pieces(format, values))| == |Words(Pieces(format, values'))|
  {
    PiecesSameGaps(format, values, values');
    SameRuns(Pieces(format, values), Pieces(format, values'));
  }

  /** A piece as a format spells it: a value by %b, a percent sign by two. */
  function Spell(p: Piece): bytes {
    match p
    case Gap => [' ']
    case Literal(c) => if c == '%' then ['%', '%'] else [c]
    case Value(_) => ['%', 'b']
  }

  function Spelled(ps: seq<Piece>): bytes {
    if ps == [] then [] else Spell(ps[0]) + Spelled(ps[1..])
  }

  function Values(ps: seq<Piece>): seq<bytes> {
    if ps == [] then []
    else (if ps[0].Value? then [ps[0].v] else []) + Values(ps[1..])
  }

  /** A piece at the front of a spelled format is read back. */
  lemma SpelledFirst(p: Piece, f: bytes, vs: seq<bytes>, values: seq<bytes>)
    requires p != Literal(' ') && p != Literal('\0') && Supported(f, |vs|)
    requires values == (if p.Value? then [p.v] else []) + vs
    ensures Supported(Spell(p) + f, |values|) && Pieces(Spell(p) + f, values) == [p] + Pieces(f, vs)
  {
    assert (Spell(p) + f)[|Spell(p)|..] == f;
    if p.Value? {
      assert values[1..] == vs;
    } else {
      assert values == vs;
    }
  }

  /** Any list of pieces that a C string can hold can be spelled as a format, and is read back from it. */
  lemma {:induction false} SpelledReads(ps: seq<Piece>)
    requires Literal(' ') !in ps && Literal('\0') !in ps
    ensures Supported(Spelled(ps), |Values(ps)|) && Pieces(Spelled(ps), Values(ps)) == ps
  {
    if ps != [] {
      SpelledReads(ps[1..]);
      SpelledFirst(ps[0], Spelled(ps[1..]), Values(ps[1..]), Values(ps));
    }
  }

  lemma {:induction false} CStringIs(v: bytes, u: bytes)
    requires u <= v && '\0' !in u && (u == v || v[|u|] == '\0')
    ensures CString(v) == u
  {
    if u != [] {
      assert v[0] == u[0] && v[0] in u;
      CStringIs(v[1..], u[1..]);
    }
  }

  /** %s takes a value up to its first NUL, %b the whole of it; a percent sign that ends the format is itself. */
  lemma DirectivesRead(f: bytes, v: bytes, u: bytes, vs: seq<bytes>)
    requires Supported(f, |vs|) && u <= v && '\0' !in u && (u == v || v[|u|] == '\0')
    ensures var s, b := ['%', 's'] + f, ['%', 'b'] + f;
            && Supported(s, |vs| + 1) && Pieces(s, [v] + vs) == [Value(u)] + Pieces(f, vs)
            && Supported(b, |vs| + 1) && Pieces(b, [v] + vs) == [Value(v)] + Pieces(f, vs)
    ensures Supported(['%'], |vs|) && Pieces(['%'], vs) == [Literal('%')]
  {
    CStringIs(v, u);
    assert (['%', 's'] + f)[2..] == f && (['%', 'b'] + f)[2..] == f && ([v] + vs)[1..] == vs;
    assert ['%'][1..] == [];
  }

  function Gaps(n: nat): seq<Piece> {
    seq(n, _ => Gap)
  }

  /** Runs of pieces with spaces between them, gaps[i] of them before run i, and more at the end. */
  function Spread(runs: seq<seq<Piece>>, gaps: seq<nat>): seq<Piece>
    requires |gaps| == |runs| + 1
  {
    if runs == [] then Gaps(gaps[0]) else Gaps(gaps[0]) + (runs[0] + Spread(runs[1..], gaps[1..]))
  }

  function Texts(runs: seq<seq<Piece>>): seq<bytes> {
    seq(|runs|, i requires 0 <= i < |runs| => Text(runs[i]))
  }

  lemma {:induction false} GapsSkipped(n: nat, rest: seq<Piece>)
    ensures Words(Gaps(n) + rest) == Words(rest)
  {
    if n == 0 {
      assert Gaps(n) + rest == rest;
    } else {
      assert (Gaps(n) + rest)[1..] == Gaps(n - 1) + rest;
      GapsSkipped(n - 1, rest);
    }
  }

  ghost predicate Runs(runs: seq<seq<Piece>>, gaps: seq<nat>) {
    && |gaps| == |runs| + 1
    && (forall i :: 0 <= i < |runs| ==> runs[i] != [] && GapFree(runs[i]))
    && (forall i :: 0 < i < |runs| ==> gaps[i] > 0)
  }

  lemma OnlyGaps(n: nat)
    ensures Words(Gaps(n)) == []
  {
    assert Gaps(n) + [] == Gaps(n);
    GapsSkipped(n, []);
  }

  /** One run, with spaces before it, and behind it too if anything follows. */
  lemma SpreadStep(n: nat, run: seq<Piece>, rest: seq<Piece>)
    requires run != [] && GapFree(run) && (rest == [] || rest[0].Gap?)
    ensures Words(Gaps(n) + (run + rest)) == [Text(run)] + Words(rest)
  {
    hide Words, Text;
    GapsSkipped(n, run + rest);
    WordEnds(run, rest);
  }

  /** Runs are the arguments, in order, whatever their values hold and however many spaces lie around them. */
  lemma {:induction false} SpreadWords(runs: seq<seq<Piece>>, gaps: seq<nat>)
    requires Runs(runs, gaps)
    ensures Words(Spread(runs, gaps)) == Texts(runs)
  {
    hide Words, Text;
    if runs == [] {
      OnlyGaps(gaps[0]);
    } else {
      var rest := Spread(runs[1..], gaps[1..]);
      assert rest == [] || rest[0].Gap?;
      SpreadWords(runs[1..], gaps[1..]);
      SpreadStep(gaps[0], runs[0], rest);
      assert Texts(runs) == [Text(runs[0])] + Texts(runs[1..]);
    }
  }

  // ----- From a format to the reply grammar -----

  /**
    * Arguments written in a format, with values by %b, reach the other end as written: the reader gets one string
    * for each, whatever bytes the values hold.
    */
  lemma FormatParses(runs: seq<seq<Piece>>, gaps: seq<nat>, t: bytes)
    requires Runs(runs, gaps) && Literal(' ') !in Spread(runs, gaps) && Literal('\0') !in Spread(runs, gaps)
    ensures var ps := Spread(runs, gaps);
            && Supported(Spelled(ps), |Values(ps)|)
            && ParseItem(Command(Words(Pieces(Spelled(ps), Values(ps)))) + t, 0) == Done(CommandReply(Texts(runs)), t)
  {
    var ps := Spread(runs, gaps);
    SpelledReads(ps);
    SpreadWords(runs, gaps);
    CommandParses(Texts(runs), t);
  }
}
