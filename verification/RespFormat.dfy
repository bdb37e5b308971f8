/** Commands in the Redis protocol: the formatters of hiredis, the argument scanner, and their round trips. */
module RespFormat {
  import opened Bytes
  import opened RespGrammar

  const CRLF: bytes := "\r\n"
  const TWO_32: nat := 0x1_0000_0000

  /** An argument as a bulk string, its length printed as n. */
  function BulkAs(n: nat, arg: bytes): bytes {
    ['$'] + Decimal(n) + CRLF + arg + CRLF
  }

  function Bulk(arg: bytes): bytes {
    BulkAs(|arg|, arg)
  }

  function Bulks(argv: seq<bytes>): bytes {
    if argv == [] then [] else Bulk(argv[0]) + Bulks(argv[1..])
  }

  function Header(argc: nat): bytes {
    ['*'] + Decimal(argc) + CRLF
  }

  /** A command: an array of bulk strings. */
  function Command(argv: seq<bytes>): bytes {
    Header(|argv|) + Bulks(argv)
  }

  // ----- Decimal numbers -----

  lemma {:induction false} DecimalLength(n: nat)
    ensures n >= 10000 ==> |Decimal(n)| == |Decimal(n / 10000)| + 4
    ensures n < 10000 ==> |Decimal(n)| == if n < 10 then 1 else if n < 100 then 2 else if n < 1000 then 3 else 4
  {
    if n >= 10 {
      assert Decimal(n) == Decimal(n / 10) + [DigitOf(n % 10)];
      if n >= 100 {
        assert Decimal(n / 10) == Decimal(n / 10 / 10) + [DigitOf(n / 10 % 10)];
        assert n / 10 / 10 == n / 100;
        if n >= 1000 {
          assert Decimal(n / 100) == Decimal(n / 100 / 10) + [DigitOf(n / 100 % 10)];
          assert n / 100 / 10 == n / 1000;
          if n >= 10000 {
            assert Decimal(n / 1000) == Decimal(n / 1000 / 10) + [DigitOf(n / 1000 % 10)];
            assert n / 1000 / 10 == n / 10000;
          }
        }
      }
    }
  }

  /** Number of decimal digits, four at a time. */
  method CountDigits(v: nat) returns (result: nat)
    ensures result == |Decimal(v)|
  {
    var w := v;
    result := 1;
    while true
      invariant |Decimal(v)| == result - 1 + |Decimal(w)|
      decreases w
    {
      DecimalLength(w);
      if w < 10 { return result; }
      if w < 100 { return result + 1; }
      if w < 1000 { return result + 2; }
      if w < 10000 { return result + 3; }
      w := w / 10000;
      result := result + 4;
    }
  }

  lemma {:induction false} DigitsAppend(s: bytes, d: byte, v: nat)
    requires forall i :: 0 <= i < |s| ==> IsDigit(s[i])
    requires IsDigit(d)
    ensures Digits(s, v) >= 0
    ensures Digits(s + [d], v) == 10 * Digits(s, v) + DigitValue(d)
  {
    if s == [] {
      assert Digits([], 10 * v + DigitValue(d)) == 10 * v + DigitValue(d);
      assert (s + [d])[1..] == [];
    } else {
      assert (s + [d])[1..] == s[1..] + [d];
      DigitsAppend(s[1..], d, 10 * v + DigitValue(s[0]));
    }
  }

  /** Reading back a printed number. */
  lemma {:induction false} NumberOfDecimal(n: nat)
    ensures Number(Decimal(n)) == n && Digits(Decimal(n), 0) == n
  {
    if n < 10 {
      assert Decimal(n)[1..] == [] && Digits([], n) == n;
    } else {
      NumberOfDecimal(n / 10);
      DigitsAppend(Decimal(n / 10), DigitOf(n % 10), 0);
      assert Decimal(n) == Decimal(n / 10) + [DigitOf(n % 10)];
    }
  }

  lemma DecimalInjective(m: nat, n: nat)
    requires Decimal(m) == Decimal(n)
    ensures m == n
  {
    NumberOfDecimal(m);
    NumberOfDecimal(n);
  }

  /** The line that a printed number forms. */
  lemma DecimalLine(n: nat, t: bytes)
    ensures var s := Decimal(n) + CRLF + t;
            && LineLength(s) == |Decimal(n)|
            && s[..|Decimal(n)|] == Decimal(n)
            && s[|Decimal(n)| + 2..] == t
  {
    var s := Decimal(n) + CRLF + t;
    assert CrlfAt(s, |Decimal(n)|);
    assert forall k: nat :: k < |Decimal(n)| ==> IsDigit(s[k]) && !CrlfAt(s, k);
  }

  // ----- Round trip with the reply grammar -----

  function StringReplies(argv: seq<bytes>): seq<Reply> {
    seq(|argv|, i requires 0 <= i < |argv| => StringReply(argv[i]))
  }

  function CommandReply(argv: seq<bytes>): Reply {
    ArrayReply(|argv|, StringReplies(argv))
  }

  lemma BulkParses(arg: bytes, t: bytes, d: nat)
    ensures ParseItem(Bulk(arg) + t, d) == Done(StringReply(arg), t)
  {
    var s := Bulk(arg) + t;
    var rest := arg + CRLF + t;
    assert s[1..] == Decimal(|arg|) + CRLF + rest;
    DecimalLine(|arg|, rest);
    NumberOfDecimal(|arg|);
    assert rest[..|arg|] == arg && rest[|arg| + 2..] == t;
  }

  lemma {:induction false} BulksParse(argv: seq<bytes>, k: nat, t: bytes, d: nat)
    requires k <= |argv|
    ensures ParseElements(|argv|, StringReplies(argv)[..k], Bulks(argv[k..]) + t, d) == Done(CommandReply(argv), t)
    decreases |argv| - k
  {
    var acc := StringReplies(argv)[..k];
    var s := Bulks(argv[k..]) + t;
    if k == |argv| {
      assert s == t && acc == StringReplies(argv);
    } else {
      assert s == Bulk(argv[k]) + (Bulks(argv[k + 1..]) + t) by {
        assert argv[k..][1..] == argv[k + 1..];
        assert Bulk(argv[k]) + Bulks(argv[k + 1..]) + t == Bulk(argv[k]) + (Bulks(argv[k + 1..]) + t);
      }
      BulkParses(argv[k], Bulks(argv[k + 1..]) + t, d);
      assert acc + [StringReply(argv[k])] == StringReplies(argv)[..k + 1];
      BulksParse(argv, k + 1, t, d);
    }
  }

  /** A formatted command reads back as the array of exactly its arguments. */
  lemma CommandParses(argv: seq<bytes>, t: bytes)
    ensures ParseItem(Command(argv) + t, 0) == Done(CommandReply(argv), t)
  {
    var s := Command(argv) + t;
    var rest := Bulks(argv) + t;
    assert s[1..] == Decimal(|argv|) + CRLF + rest;
    DecimalLine(|argv|, rest);
    NumberOfDecimal(|argv|);
    if argv == [] {
      assert rest == t && StringReplies(argv) == [];
    } else {
      assert argv[0..] == argv && StringReplies(argv)[..0] == [];
      BulksParse(argv, 0, t, 1);
    }
  }

  function Commands(cmds: seq<seq<bytes>>): bytes {
    if cmds == [] then [] else Command(cmds[0]) + Commands(cmds[1..])
  }

  function CommandReplies(cmds: seq<seq<bytes>>): seq<Reply> {
    seq(|cmds|, i requires 0 <= i < |cmds| => CommandReply(cmds[i]))
  }

  /** A pipeline of formatted commands is the stream of their arrays, without a fault. */
  lemma {:induction false} PipelineParses(cmds: seq<seq<bytes>>)
    ensures ParseStream(Commands(cmds)) == Outcome(CommandReplies(cmds), None)
  {
    if cmds != [] {
      CommandParses(cmds[0], Commands(cmds[1..]));
      PipelineParses(cmds[1..]);
      assert [CommandReply(cmds[0])] + CommandReplies(cmds[1..]) == CommandReplies(cmds);
    }
  }

  // ----- redisFormatCommandArgv -----

  /** Copies s into the command buffer at pos. */
  method Put(cmd: array<byte>, pos: nat, s: bytes) returns (pos': nat)
    requires pos + |s| <= cmd.Length
    modifies cmd
    ensures pos' == pos + |s|
    ensures cmd[..pos'] == old(cmd[..pos]) + s
  {
    for i := 0 to |s|
      invariant cmd[..pos + i] == old(cmd[..pos]) + s[..i]
    {
      cmd[pos + i] := s[i];
    }
    pos' := pos + |s|;
  }

  /** The space one argument takes. */
  method BulkLen(len: nat) returns (n: nat)
    ensures forall arg: bytes :: |arg| == len ==> n == |Bulk(arg)|
  {
    var digits := CountDigits(len);
    n := 1 + digits + 2 + len + 2;
  }

  lemma {:induction false} BulksAppend(a: seq<bytes>, b: seq<bytes>)
    ensures Bulks(a + b) == Bulks(a) + Bulks(b)
  {
    if a == [] {
      assert a + b == b;
    } else {
      assert (a + b)[1..] == a[1..] + b;
      BulksAppend(a[1..], b);
    }
  }

  /** The first j+1 arguments, within all of them. */
  lemma BulksSplit(argv: seq<bytes>, j: nat)
    requires j < |argv|
    ensures Bulks(argv[..j + 1]) == Bulks(argv[..j]) + Bulk(argv[j])
    ensures |Bulks(argv[..j + 1])| <= |Bulks(argv)|
  {
    var last := [argv[j]];
    assert argv[..j + 1] == argv[..j] + last && last[1..] == [];
    assert argv == argv[..j + 1] + argv[j + 1..];
    BulksAppend(argv[..j], last);
    BulksAppend(argv[..j + 1], argv[j + 1..]);
  }

  /** The length of a command, computed before it is written. */
  method CommandLength(argv: seq<bytes>) returns (totlen: nat)
    ensures totlen == |Command(argv)|
  {
    var digits := CountDigits(|argv|);
    totlen := 1 + digits + 2;
    for j := 0 to |argv|
      invariant totlen == |Header(|argv|)| + |Bulks(argv[..j])|
    {
      var n := BulkLen(|argv[j]|);
      totlen := totlen + n;
      BulksSplit(argv, j);
    }
    assert argv[..|argv|] == argv;
  }

  method PutBulk(cmd: array<byte>, pos: nat, arg: bytes) returns (pos': nat)
    requires pos + |Bulk(arg)| <= cmd.Length
    modifies cmd
    ensures pos' == pos + |Bulk(arg)|
    ensures cmd[..pos'] == old(cmd[..pos]) + Bulk(arg)
  {
    ghost var before := cmd[..pos];
    pos' := Put(cmd, pos, ['$'] + Decimal(|arg|) + CRLF);
    pos' := Put(cmd, pos', arg);
    pos' := Put(cmd, pos', CRLF);
    assert before + (['$'] + Decimal(|arg|) + CRLF) + arg + CRLF == before + Bulk(arg);
  }

  /** Writes a command whose length is known; the position ends at that length, and a NUL follows. */
  method WriteCommand(argv: seq<bytes>, totlen: nat) returns (cmd: array<byte>)
    requires totlen == |Command(argv)|
    ensures cmd.Length == totlen + 1
    ensures cmd[..totlen] == Command(argv) && cmd[totlen] == '\0'
    ensures fresh(cmd)
  {
    cmd := new byte[totlen + 1];
    var pos := Put(cmd, 0, Header(|argv|));
    for j := 0 to |argv|
      invariant pos == |Header(|argv|)| + |Bulks(argv[..j])| <= totlen
      invariant cmd[..pos] == Header(|argv|) + Bulks(argv[..j])
    {
      BulksSplit(argv, j);
      pos := PutBulk(cmd, pos, argv[j]);
    }
    assert argv[..|argv|] == argv;
    assert pos == totlen;
    cmd[pos] := '\0';
  }

  /** The length computed beforehand is exactly the number of bytes written. */
  method FormatCommandArgv(argv: seq<bytes>) returns (cmd: array<byte>, totlen: nat)
    ensures totlen == |Command(argv)| && cmd.Length == totlen + 1
    ensures cmd[..totlen] == Command(argv) && cmd[totlen] == '\0'
    ensures fresh(cmd)
  {
    totlen := CommandLength(argv);
    cmd := WriteCommand(argv, totlen);
  }

  // ----- redisFormatSdsCommandArgv -----

  /** sdsull2str: the digits are produced last first and then reversed in place. */
  method UnsignedToString(v: nat) returns (s: bytes)
    ensures s == Decimal(v)
  {
    ghost var d := Decimal(v);
    var n := CountDigits(v);
    var buf := new byte[n];
    var p, w := 0, v;
    while true
      invariant 0 <= p < n
      invariant d[..n - p] == Decimal(w)
      invariant forall k :: 0 <= k < p ==> buf[k] == d[n - 1 - k]
      decreases w
    {
      assert d[n - 1 - p] == Decimal(w)[n - 1 - p];
      buf[p] := DigitOf(w % 10);
      p := p + 1;
      if w < 10 {
        break;
      }
      assert Decimal(w)[..n - p] == Decimal(w / 10);
      w := w / 10;
    }
    ReverseDigits(buf, d);
    s := buf[..];
  }

  /** The in-place reversal that ends sdsull2str. */
  method ReverseDigits(buf: array<byte>, ghost d: bytes)
    requires |d| == buf.Length
    requires forall k :: 0 <= k < buf.Length ==> buf[k] == d[buf.Length - 1 - k]
    modifies buf
    ensures buf[..] == d
  {
    var n := buf.Length;
    var l, r := 0, n - 1;
    while l < r
      invariant 0 <= l && r == n - 1 - l && l <= r + 2
      invariant forall k :: 0 <= k < n && (k < l || k > r) ==> buf[k] == d[k]
      invariant forall k :: l <= k <= r ==> buf[k] == d[n - 1 - k]
    {
      buf[l], buf[r] := buf[r], buf[l];
      l, r := l + 1, r - 1;
    }
  }

  /** The command as the sds formatter prints it: lengths go through a 32-bit conversion. */
  function SdsBulks(argv: seq<bytes>): bytes {
    if argv == [] then [] else BulkAs(|argv[0]| % TWO_32, argv[0]) + SdsBulks(argv[1..])
  }

  lemma {:induction false} SdsBulksAppend(a: seq<bytes>, b: bytes)
    ensures SdsBulks(a + [b]) == SdsBulks(a) + BulkAs(|b| % TWO_32, b)
  {
    if a == [] {
      assert a + [b] == [b] && [b][1..] == a;
    } else {
      assert (a + [b])[1..] == a[1..] + [b];
      SdsBulksAppend(a[1..], b);
    }
  }

  lemma Regroup(a: bytes, b: bytes, c: bytes, d: bytes)
    ensures a + b + c + d == a + (b + c + d)
  {
  }

  /** redisFormatSdsCommandArgv, up to the assertion on the total length. */
  method FormatSdsCommandArgv(argv: seq<bytes>) returns (cmd: bytes, totlen: nat)
    ensures totlen == |Command(argv)|
    ensures cmd == Header(|argv|) + SdsBulks(argv)
  {
    totlen := CommandLength(argv);
    var digits := UnsignedToString(|argv|);
    cmd := ['*'] + digits + CRLF;
    for j := 0 to |argv|
      invariant cmd == Header(|argv|) + SdsBulks(argv[..j])
    {
      var len := UnsignedToString(|argv[j]| % TWO_32);
      assert argv[..j + 1] == argv[..j] + [argv[j]];
      SdsBulksAppend(argv[..j], argv[j]);
      Regroup(cmd, ['$'] + len + CRLF, argv[j], CRLF);
      cmd := cmd + (['$'] + len + CRLF);
      cmd := cmd + argv[j];
      cmd := cmd + CRLF;
    }
    assert argv[..|argv|] == argv;
  }

  /** Two numbers printed before a CR LF are told apart. */
  lemma {:induction false} DecimalDelimited(m: nat, n: nat, s: bytes, t: bytes)
    requires Decimal(m) + CRLF + s == Decimal(n) + CRLF + t
    ensures m == n && s == t
  {
    DecimalLine(m, s);
    DecimalLine(n, t);
    DecimalInjective(m, n);
  }

  lemma BulkTail(m: nat, a: bytes, x: bytes)
    ensures (BulkAs(m, a) + x)[1..] == Decimal(m) + CRLF + (a + CRLF + x)
    ensures (a + CRLF + x)[|a| + 2..] == x
  {
  }

  lemma SdsBulksTell(argv: seq<bytes>)
    requires argv != [] && SdsBulks(argv) == Bulks(argv)
    ensures |argv[0]| < TWO_32 && SdsBulks(argv[1..]) == Bulks(argv[1..])
  {
    var a, x, y := argv[0], SdsBulks(argv[1..]), Bulks(argv[1..]);
    BulkTail(|a| % TWO_32, a, x);
    BulkTail(|a|, a, y);
    DecimalDelimited(|a| % TWO_32, |a|, a + CRLF + x, a + CRLF + y);
  }

  /** The sds formatter writes the same bytes exactly when every argument is shorter than 2^32. */
  lemma {:induction false} SdsBulksSame(argv: seq<bytes>)
    ensures SdsBulks(argv) == Bulks(argv) <==> forall a :: a in argv ==> |a| < TWO_32
  {
    if argv != [] {
      SdsBulksSame(argv[1..]);
      assert argv == [argv[0]] + argv[1..];
      if SdsBulks(argv) == Bulks(argv) {
        SdsBulksTell(argv);
      }
    }
  }

  /** Decimal numbers below a power of ten have so few digits, others more. */
  lemma TenDigits(n: nat)
    ensures |Decimal(n)| <= 9 <==> n < 1_000_000_000
    ensures |Decimal(n)| <= 10 <==> n < 10_000_000_000
  {
    DecimalLength(n);
    DecimalLength(n / 10000);
    DecimalLength(n / 10000 / 10000);
  }

  /** A length whose cut form is printed with as many digits. */
  predicate SameWidth(n: nat) {
    n < TWO_32 || (n < 10_000_000_000 && n % TWO_32 >= 1_000_000_000)
  }

  lemma CutWidth(n: nat)
    ensures |Decimal(n % TWO_32)| <= |Decimal(n)|
    ensures |Decimal(n % TWO_32)| == |Decimal(n)| <==> SameWidth(n)
  {
    TenDigits(n);
    TenDigits(n % TWO_32);
  }

  lemma {:induction false} SdsLength(argv: seq<bytes>)
    ensures |SdsBulks(argv)| <= |Bulks(argv)|
    ensures |SdsBulks(argv)| == |Bulks(argv)| <==> forall a <- argv :: SameWidth(|a|)
  {
    if argv != [] {
      SdsLength(argv[1..]);
      CutWidth(|argv[0]|);
      assert argv == [argv[0]] + argv[1..];
    }
  }

  /**
   * The sds formatter ends with an assertion that it wrote as many bytes as it
   * had computed.  It holds exactly if every length is below 2^32, or is printed
   * with ten digits before and after it is cut.
   */
  lemma SdsAssertion(argv: seq<bytes>)
    ensures |Header(|argv|) + SdsBulks(argv)| == |Command(argv)| <==> forall a <- argv :: SameWidth(|a|)
  {
    SdsLength(argv);
  }

  // ----- nextArgument -----

  /** strchr: the first c at or behind position from, before the NUL that ends the string; -1 if there is none. */
  method StrChr(s: bytes, from: nat, c: byte) returns (i: int)
    requires from < |s| && s[|s| - 1] == '\0' && c != '\0'
    ensures -1 <= i < |s|
    ensures i >= 0 ==> from <= i && s[i] == c && forall k :: from <= k < i ==> s[k] != c && s[k] != '\0'
    ensures i < 0 ==> exists j :: from <= j < |s| && s[j] == '\0' && forall k :: from <= k < j ==> s[k] != c
  {
    i := from;
    while s[i] != '\0'
      invariant from <= i < |s|
      invariant forall k :: from <= k < i ==> s[k] != c && s[k] != '\0'
      decreases |s| - i
    {
      if s[i] == c {
        return i;
      }
      i := i + 1;
    }
    return -1;
  }

  /** The number n is printed at position from and ends there. */
  ghost predicate PrintedAt(s: bytes, from: nat, n: nat) {
    var e := from + |Decimal(n)|;
    e < |s| && s[from..e] == Decimal(n) && !IsDigit(s[e])
  }

  /** strtol on the digits of a length. */
  method StrToL(s: bytes, from: nat) returns (v: nat)
    requires from < |s| && s[|s| - 1] == '\0'
    ensures forall n: nat :: PrintedAt(s, from, n) ==> v == n
  {
    var i := from;
    v := 0;
    while IsDigit(s[i])
      invariant from <= i < |s|
      invariant forall k :: from <= k < i ==> IsDigit(s[k])
      invariant v == Digits(s[from..i], 0)
      decreases |s| - i
    {
      DigitsAppend(s[from..i], s[i], 0);
      assert s[from..i + 1] == s[from..i] + [s[i]];
      v := v * 10 + DigitValue(s[i]);
      i := i + 1;
    }
    forall n: nat | PrintedAt(s, from, n)
      ensures v == n
    {
      var e := from + |Decimal(n)|;
      assert forall k :: from <= k < e ==> s[k] == Decimal(n)[k - from];
      assert i == e;
      NumberOfDecimal(n);
    }
  }

  /** The NUL-terminated s holds at start the bulk strings args, behind an array header or not. */
  ghost predicate ArgumentsAt(s: bytes, start: nat, args: seq<bytes>) {
    start < |s| &&
    (s[start..] == Bulks(args) + ['\0'] || exists argc: nat :: s[start..] == Header(argc) + Bulks(args) + ['\0'])
  }

  lemma BulkSlices(d: bytes, a: bytes, tail: bytes)
    ensures var t := ['$'] + d + CRLF + a + CRLF + tail;
            && t[1..1 + |d|] == d && t[1 + |d|] == '\r'
            && t[3 + |d|..3 + |d| + |a|] == a
            && t[5 + |d| + |a|..] == tail
  {
  }

  lemma SliceOfTail(s: bytes, p: nat, i: nat, j: nat)
    requires p <= |s| && i <= j <= |s[p..]|
    ensures s[p + i..p + j] == s[p..][i..j]
    ensures s[p + i..] == s[p..][i..]
  {
  }

  lemma BulkLayout(s: bytes, p: nat, d: bytes, a: bytes, tail: bytes)
    requires p <= |s| && s[p..] == ['$'] + d + CRLF + a + CRLF + tail
    ensures var q := p + 1 + |d|;
            var e := q + 2 + |a|;
            && e + 2 <= |s| && s[p] == '$' && s[p + 1..q] == d && s[q] == '\r'
            && s[q + 2..e] == a && s[e + 2..] == tail
  {
    BulkSlices(d, a, tail);
    SliceOfTail(s, p, 1, 1 + |d|);
    SliceOfTail(s, p, 3 + |d|, 3 + |d| + |a|);
    SliceOfTail(s, p, 5 + |d| + |a|, |s[p..]|);
  }

  lemma Associates(x: bytes, y: bytes, z: bytes)
    ensures (x + y) + z == x + (y + z)
  {
  }

  lemma BulksGroup(args: seq<bytes>, z: bytes)
    requires args != []
    ensures Bulks(args) + z ==
            ['$'] + Decimal(|args[0]|) + CRLF + args[0] + CRLF + (Bulks(args[1..]) + z)
  {
    Associates(Bulk(args[0]), Bulks(args[1..]), z);
  }

  /** Layout of the string from its next argument on. */
  lemma FirstBulk(s: bytes, p: nat, args: seq<bytes>)
    requires p < |s| && args != [] && s[p..] == Bulks(args) + ['\0']
    ensures var q := p + 1 + |Decimal(|args[0]|)|;
            var e := q + 2 + |args[0]|;
            && e + 2 < |s| && s[p] == '$'
            && PrintedAt(s, p + 1, |args[0]|)
            && s[q] == '\r' && (forall k :: p <= k < q ==> s[k] != '\r' && s[k] != '\0')
            && s[q + 2..e] == args[0]
            && s[e + 2..] == Bulks(args[1..]) + ['\0']
  {
    var d := Decimal(|args[0]|);
    var q := p + 1 + |d|;
    BulksGroup(args, ['\0']);
    BulkLayout(s, p, d, args[0], Bulks(args[1..]) + ['\0']);
    forall k | p < k < q
      ensures IsDigit(s[k])
    {
      assert s[k] == s[p + 1..q][k - p - 1];
    }
  }

  /** A header contains no '$' and no NUL. */
  lemma HeaderSkipped(s: bytes, start: nat, argc: nat, rest: bytes)
    requires start < |s| && s[start..] == Header(argc) + rest
    ensures var p := start + |Header(argc)|;
            && s[p..] == rest
            && s[start] == '*'
            && forall k :: start <= k < p ==> s[k] != '$' && s[k] != '\0'
  {
    var h := Header(argc);
    assert s[start + |h|..] == s[start..][|h|..];
    assert forall k :: start <= k < start + |h| ==> s[k] == h[k - start];
  }

  /** Where strchr for '$' leads from a position that is not at one. */
  lemma SkippedTo(s: bytes, start: nat, args: seq<bytes>, i: int)
    requires ArgumentsAt(s, start, args) && s[start] != '$'
    requires -1 <= i < |s|
    requires i >= 0 ==> start <= i && s[i] == '$' && forall k :: start <= k < i ==> s[k] != '$' && s[k] != '\0'
    requires i < 0 ==> exists j :: start <= j < |s| && s[j] == '\0' && forall k :: start <= k < j ==> s[k] != '$'
    ensures i < 0 <==> args == []
    ensures i >= 0 ==> s[i..] == Bulks(args) + ['\0']
  {
    if s[start..] == Bulks(args) + ['\0'] {
      if args != [] {
        FirstBulk(s, start, args);
      }
      assert s[start] == '\0';
    } else {
      var argc: nat :| s[start..] == Header(argc) + Bulks(args) + ['\0'];
      var rest := Bulks(args) + ['\0'];
      assert s[start..] == Header(argc) + rest;
      HeaderSkipped(s, start, argc, rest);
      var p := start + |Header(argc)|;
      if args != [] {
        FirstBulk(s, p, args);
      }
      assert s[p] == s[p..][0];
    }
  }

  /** A string that begins with '$' begins with an argument; the others are where that one ends. */
  lemma ArgumentFirst(s: bytes, p: nat, args: seq<bytes>)
    requires p < |s| && s[p] == '$' && ArgumentsAt(s, p, args)
    ensures args != [] && s[p..] == Bulks(args) + ['\0']
  {
    assert s[p] == s[p..][0];
  }

  lemma ArgumentsFollow(s: bytes, p: nat, args: seq<bytes>)
    requires p < |s| && s[p..] == Bulks(args) + ['\0']
    ensures ArgumentsAt(s, p, args)
  {
  }

  /** The argument at or behind start and the position of the next one; None when there is none. */
  method NextArgument(s: bytes, start: nat, ghost args: seq<bytes>) returns (next: Option<nat>, str: bytes)
    requires start < |s| && s[|s| - 1] == '\0' && ArgumentsAt(s, start, args)
    ensures args == [] ==> next == None
    ensures args != [] ==> next.Some? && str == args[0] && start < next.value && ArgumentsAt(s, next.value, args[1..])
  {
    hide Bulks, ArgumentsAt;
    var p := start;
    if s[p] != '$' {
      var i := StrChr(s, p, '$');
      SkippedTo(s, start, args, i);
      if i < 0 {
        return None, [];
      }
      p := i;
    } else {
      ArgumentFirst(s, p, args);
    }
    FirstBulk(s, p, args);
    var len := StrToL(s, p + 1);
    var q := StrChr(s, p, '\r');
    assert q == p + 1 + |Decimal(|args[0]|)|;
    str := s[q + 2..q + 2 + len];
    next := Some(q + 2 + len + 2);
    ArgumentsFollow(s, q + 2 + len + 2, args[1..]);
  }

  /** Iterating over a formatted command gives its arguments, whatever bytes they contain. */
  method CollectArguments(s: bytes, ghost argv: seq<bytes>) returns (args: seq<bytes>)
    requires s == Command(argv) + ['\0']
    ensures args == argv
  {
    args := [];
    ghost var rest := argv;
    var p, str := Some(0), [];
    assert s[0..] == Header(|argv|) + Bulks(argv) + ['\0'];
    p, str := NextArgument(s, 0, rest);
    while p.Some?
      invariant p.Some? ==> rest != [] && str == rest[0] && ArgumentsAt(s, p.value, rest[1..])
      invariant p.None? ==> rest == []
      invariant args + rest == argv
      decreases |rest|
    {
      args := args + [str];
      rest := rest[1..];
      p, str := NextArgument(s, p.value, rest);
    }
  }
}
