/** Bytes, the machine integers of the store, and their little-endian layout. */
module Bytes {
  type byte = b: int | 0 <= b < 256

  const U16: nat := 0x1_0000
  const U32: nat := 0x1_0000_0000
  const U64: nat := 0x1_0000_0000_0000_0000

  type u32 = n: int | 0 <= n < 0x1_0000_0000

  datatype Option<+T> = None | Some(value: T)

  function Le16(n: nat): (s: seq<byte>)
    requires n < U16
    ensures |s| == 2
  {
    [n % 256, n / 256]
  }

  function Le32(n: u32): (s: seq<byte>)
    ensures |s| == 4
  {
    [n % 256, n / 256 % 256, n / 256 / 256 % 256, n / 256 / 256 / 256]
  }

  function Get16(s: seq<byte>, p: nat): (n: nat)
    requires p + 2 <= |s|
    ensures n < U16
  {
    s[p] as int + 256 * (s[p + 1] as int)
  }

  function Sum32(a: int, b: int, c: int, d: int): int {
    a + 256 * (b + 256 * (c + 256 * d))
  }

  function Get32(s: seq<byte>, p: nat): u32
    requires p + 4 <= |s|
  {
    Sum32(s[p], s[p + 1], s[p + 2], s[p + 3])
  }

  lemma SumOfDigits32(n: u32)
    ensures Sum32(n % 256, n / 256 % 256, n / 256 / 256 % 256, n / 256 / 256 / 256) == n
  {}

  /** Reading and writing a field are inverse to each other, in both directions. */
  lemma Field32(s: seq<byte>, p: nat, n: u32)
    requires p + 4 <= |s|
    ensures Get32(s, p) == n <==> s[p..p + 4] == Le32(n)
  {
    hide Sum32;
    var t := s[p..p + 4];
    assert t[0] == s[p] && t[1] == s[p + 1] && t[2] == s[p + 2] && t[3] == s[p + 3];
    Digits32(t[0], t[1], t[2], t[3]);
    SumOfDigits32(n);
  }

  lemma Digits32(a: byte, b: byte, c: byte, d: byte)
    ensures Le32(Sum32(a, b, c, d)) == [a, b, c, d]
  {
    LastDigit(c, d);
    LastDigit(b, c + 256 * d);
    LastDigit(a, b + 256 * (c + 256 * d));
  }

  lemma LastDigit(a: int, x: int)
    requires 0 <= a < 256 && 0 <= x
    ensures (a + 256 * x) % 256 == a && (a + 256 * x) / 256 == x
  {}

  lemma Field16(s: seq<byte>, p: nat, n: nat)
    requires p + 2 <= |s| && n < U16
    ensures Get16(s, p) == n <==> s[p..p + 2] == Le16(n)
  {
    if s[p..p + 2] == Le16(n) {
      assert s[p] == s[p..p + 2][0] && s[p + 1] == s[p..p + 2][1];
    }
  }
}
