// Octets and the big-endian numbers that every packet format here is built from.

module Bytes {

  type byte = x: int | 0 <= x < 0x100
  type u16 = x: int | 0 <= x < 0x1_0000
  type u32 = x: int | 0 <= x < 0x1_0000_0000

  function Short(hi: byte, lo: byte): u16 { hi * 0x100 + lo }

  function PutShort(x: u16): (s: seq<byte>)
    ensures |s| == 2 && Short(s[0], s[1]) == x
  {
    [x / 0x100, x % 0x100]
  }

  function Long(a: byte, b: byte, c: byte, d: byte): u32 { Short(a, b) * 0x1_0000 + Short(c, d) }

  function PutLong(x: u32): (s: seq<byte>)
    ensures |s| == 4 && Long(s[0], s[1], s[2], s[3]) == x
  {
    PutShort(x / 0x1_0000) + PutShort(x % 0x1_0000)
  }

  function ShortAt(s: seq<byte>, i: nat): u16
    requires i + 1 < |s|
  {
    Short(s[i], s[i+1])
  }

  function LongAt(s: seq<byte>, i: nat): u32
    requires i + 3 < |s|
  {
    Long(s[i], s[i+1], s[i+2], s[i+3])
  }

  function Pow2(n: nat): (p: nat)
    ensures p > 0
  {
    if n == 0 then 1 else 2 * Pow2(n - 1)
  }
}
