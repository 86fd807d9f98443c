/** Bytes and 32-bit little-endian numbers. */
module Bytes {

  type byte = x: int | 0 <= x < 256

  const U32_LIMIT: nat := 0x1_0000_0000

  /** The four bytes of a number, least significant first; higher bits are lost. */
  function U32(n: nat): (b: seq<byte>)
    ensures |b| == 4
  {
    var m := n % U32_LIMIT;
    [m % 256, m / 256 % 256, m / 65536 % 256, m / 16777216]
  }

  /** Byte `i` has the weight 256^i. */
  lemma U32Digits(n: nat)
    requires n < U32_LIMIT
    ensures n == U32(n)[0] as int + 0x100 * (U32(n)[1] as int) + 0x1_0000 * (U32(n)[2] as int)
      + 0x100_0000 * (U32(n)[3] as int)
  {
    U32RoundTrip(n);
    assert n % U32_LIMIT == n;
  }

  function FromU32(b: seq<byte>): (n: nat)
    requires |b| >= 4
    ensures n < U32_LIMIT
  {
    b[0] as int + 256 * (b[1] as int) + 65536 * (b[2] as int) + 16777216 * (b[3] as int)
  }

  lemma U32RoundTrip(n: nat)
    ensures FromU32(U32(n)) == n % U32_LIMIT
  {
    var m := n % U32_LIMIT;
    assert m / 65536 == m / 256 / 256;
    assert m / 16777216 == m / 256 / 256 / 256;
  }

  /** Reading a number back from in front of other bytes. */
  lemma U32Prefix(n: nat, more: seq<byte>)
    ensures FromU32(U32(n) + more) == n % U32_LIMIT
    ensures (U32(n) + more)[4..] == more
  {
    U32RoundTrip(n);
  }
}
