/** Bytes, cyclic positions and the little-endian integers the firmware copies with memcpy. */
module Bytes {

  type byte = x: int | 0 <= x < 256

  /** What a 32-bit counter counts modulo. */
  const WORD := 0x1_0000_0000

  function Le16(n: nat): (s: seq<byte>)
    ensures |s| == 2
  {
    [n % 256, n / 256 % 256]
  }

  function Le16Value(s: seq<byte>): (n: nat)
    requires |s| >= 2
    ensures n < 0x1_0000
  {
    s[0] as int + 256 * s[1] as int
  }

  /** Reading back a 16-bit length gives the length modulo 2^16, whatever follows it. */
  lemma Le16RoundTrip(n: nat, rest: seq<byte>)
    ensures Le16Value(Le16(n) + rest) == n % 0x1_0000
  {
  }

  function Le32(n: nat): (s: seq<byte>)
    ensures |s| == 4
  {
    Le16(n % 0x1_0000) + Le16(n / 0x1_0000 % 0x1_0000)
  }

  function Le32Value(s: seq<byte>): (n: nat)
    requires |s| >= 4
    ensures n < 0x1_0000_0000
  {
    Le16Value(s) + 0x1_0000 * Le16Value(s[2..])
  }

  /** The byte with the lowest value comes first. */
  lemma Le32IsLittleEndian(s: seq<byte>)
    requires |s| >= 4
    ensures Le32Value(s) == s[0] as int + 0x100 * s[1] as int + 0x1_0000 * s[2] as int + 0x100_0000 * s[3] as int
  {
  }

  lemma Le32RoundTrip(n: nat, rest: seq<byte>)
    requires n < 0x1_0000_0000
    ensures Le32Value(Le32(n) + rest) == n
  {
    var low, high := n % 0x1_0000, n / 0x1_0000;
    Le16RoundTrip(low, Le16(high) + rest);
    Le16RoundTrip(high, rest);
    assert Le32(n) + rest == Le16(low) + (Le16(high) + rest);
    assert (Le32(n) + rest)[2..] == Le16(high) + rest;
  }

  /** A slice of a suffix is a slice of the whole. */
  lemma SliceOfSuffix<T>(s: seq<T>, k: nat, from: nat, to: nat)
    requires k + from <= k + to <= |s|
    ensures s[k..][from..to] == s[k + from..k + to]
    ensures s[k..][from..] == s[k + from..]
  {
  }
}
