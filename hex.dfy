/** Bytes and their `"%02x"` rendering, as the client prints SHA-256 and MD5 digests. */
module Hex {

  /** A JVM `Byte` as `%02x` sees it: its unsigned value. */
  type byte = x: int | 0 <= x < 256

  predicate IsLowerHex(c: char)
  {
    '0' <= c <= '9' || 'a' <= c <= 'f'
  }

  function HexDigit(n: int): (c: char)
    requires 0 <= n < 16
    ensures IsLowerHex(c)
  {
    if n < 10 then ('0' as int + n) as char else ('a' as int + n - 10) as char
  }

  function HexDigitValue(c: char): (n: int)
    requires IsLowerHex(c)
    ensures 0 <= n < 16
  {
    if c <= '9' then c as int - '0' as int else c as int - 'a' as int + 10
  }

  lemma HexDigitRoundTrip(n: int)
    requires 0 <= n < 16
    ensures HexDigitValue(HexDigit(n)) == n
  {
  }

  /** `"%02x".format(b)`: two lower-case digits, high nibble first. */
  function ByteHex(b: byte): string
  {
    [HexDigit(b / 16), HexDigit(b % 16)]
  }

  /** `joinToString("") { "%02x".format(it) }` */
  function Hex(bs: seq<byte>): (h: string)
    ensures |h| == 2 * |bs|
    ensures forall i :: 0 <= i < |h| ==> IsLowerHex(h[i])
  {
    if |bs| == 0 then "" else ByteHex(bs[0]) + Hex(bs[1..])
  }

  /** Reads back a string of lower-case hex digit pairs. */
  function Unhex(h: string): (bs: seq<byte>)
    requires |h| % 2 == 0
    requires forall i :: 0 <= i < |h| ==> IsLowerHex(h[i])
    ensures |bs| == |h| / 2
  {
    if |h| == 0 then []
    else [HexDigitValue(h[0]) * 16 + HexDigitValue(h[1])] + Unhex(h[2..])
  }

  lemma {:induction false} UnhexHex(bs: seq<byte>)
    ensures Unhex(Hex(bs)) == bs
  {
    if |bs| > 0 {
      var h := Hex(bs);
      assert h[2..] == Hex(bs[1..]);
      HexDigitRoundTrip(bs[0] / 16);
      HexDigitRoundTrip(bs[0] % 16);
      UnhexHex(bs[1..]);
    }
  }

  /** Distinct digests print differently. */
  lemma HexInjective(a: seq<byte>, b: seq<byte>)
    requires Hex(a) == Hex(b)
    ensures a == b
  {
    UnhexHex(a);
    UnhexHex(b);
  }
}
