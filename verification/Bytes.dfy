/** Bytes as the C code sees them, and their decimal notation. */
module Bytes {
  type byte = c: char | c as int < 256
  type bytes = seq<byte>

  datatype Option<+T> = None | Some(value: T)

  predicate IsDigit(c: byte) {
    '0' <= c <= '9'
  }

  function DigitOf(d: nat): byte
    requires d < 10
  {
    (d + '0' as int) as char
  }

  function DigitValue(c: byte): nat
    requires IsDigit(c)
  {
    c as int - '0' as int
  }

  /** The decimal notation of n, without leading zeros. */
  function Decimal(n: nat): (s: bytes)
    ensures |s| >= 1
    ensures forall i :: 0 <= i < |s| ==> IsDigit(s[i])
  {
    if n < 10 then [DigitOf(n)] else Decimal(n / 10) + [DigitOf(n % 10)]
  }

  /** The value of a string of digits, last digit first. */
  function DigitsValue(ds: bytes): nat
    requires forall i :: 0 <= i < |ds| ==> IsDigit(ds[i])
  {
    if ds == [] then 0 else 10 * DigitsValue(ds[..|ds| - 1]) + DigitValue(ds[|ds| - 1])
  }

  /** The same bytes, handed over in chunks. */
  function Concat(chunks: seq<bytes>): bytes {
    if chunks == [] then [] else chunks[0] + Concat(chunks[1..])
  }
}
