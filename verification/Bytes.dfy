/** Byte strings, fixed-size blocks and the big-endian integer fields of the wire formats. */
module Bytes {
  import opened Bits

  type bytes = seq<byte>

  type Block16 = s: bytes | |s| == 16 witness seq(16, _ => 0)

  type Block32 = s: bytes | |s| == 32 witness seq(32, _ => 0)

  /** The bytes of an ASCII label. */
  function Ascii(s: string): bytes {
    seq(|s|, i requires 0 <= i < |s| => s[i] as int % 0x100)
  }

  function U16(n: uint16): (s: bytes)
    ensures |s| == 2
  {
    [n / 0x100, n % 0x100]
  }

  function U32(n: uint32): (s: bytes)
    ensures |s| == 4
  {
    U16(n / 0x1_0000) + U16(n % 0x1_0000)
  }

  function U64(n: uint64): (s: bytes)
    ensures |s| == 8
  {
    U32(n / 0x1_0000_0000) + U32(n % 0x1_0000_0000)
  }

  /** Reads the first two bytes of `s`. */
  function GetU16(s: bytes): uint16
    requires |s| >= 2
  {
    s[0] as int * 0x100 + s[1]
  }

  function GetU32(s: bytes): uint32
    requires |s| >= 4
  {
    GetU16(s) * 0x1_0000 + GetU16(s[2..])
  }

  function GetU64(s: bytes): uint64
    requires |s| >= 8
  {
    GetU32(s) * 0x1_0000_0000 + GetU32(s[4..])
  }

  lemma U16RoundTrip(n: uint16, rest: bytes)
    ensures GetU16(U16(n) + rest) == n
  {}

  lemma U32RoundTrip(n: uint32, rest: bytes)
    ensures GetU32(U32(n) + rest) == n
  {
    var hi, lo := U16(n / 0x1_0000), U16(n % 0x1_0000);
    assert U32(n) + rest == hi + (lo + rest);
    assert (U32(n) + rest)[2..] == lo + rest;
    U16RoundTrip(n / 0x1_0000, lo + rest);
    U16RoundTrip(n % 0x1_0000, rest);
  }

  lemma U64RoundTrip(n: uint64, rest: bytes)
    ensures GetU64(U64(n) + rest) == n
  {
    var hi, lo := U32(n / TWO32), U32(n % TWO32);
    assert U64(n) + rest == hi + (lo + rest);
    assert (U64(n) + rest)[4..] == lo + rest;
    U32RoundTrip(n / TWO32, lo + rest);
    U32RoundTrip(n % TWO32, rest);
  }

  /** The most significant byte comes first, when written and when read. */
  lemma BigEndian16(n: uint16, s: bytes)
    ensures U16(n) == [n / 0x100, n % 0x100]
    ensures |s| >= 2 ==> GetU16(s) == 0x100 * s[0] as int + s[1]
  {}

  lemma BigEndian32(n: uint32, s: bytes)
    ensures U32(n) == U16(n / 0x1_0000) + U16(n % 0x1_0000)
    ensures |s| >= 4 ==> GetU32(s) == 0x1_0000 * GetU16(s) + GetU16(s[2..])
  {}

  lemma BigEndian64(n: uint64, s: bytes)
    ensures U64(n) == U32(n / 0x1_0000_0000) + U32(n % 0x1_0000_0000)
    ensures |s| >= 8 ==> GetU64(s) == 0x1_0000_0000 * GetU32(s) + GetU32(s[4..])
  {
    hide U32, GetU32;
  }

  /** A label is its character codes. */
  lemma AsciiIs(s: string)
    requires forall k | 0 <= k < |s| :: s[k] < '\U{0080}'
    ensures |Ascii(s)| == |s| && forall k | 0 <= k < |s| :: Ascii(s)[k] == s[k] as int
  {}

  lemma U16Reencodes(s: bytes)
    requires |s| >= 2
    ensures U16(GetU16(s)) == s[..2]
  {}

  lemma U32Reencodes(s: bytes)
    requires |s| >= 4
    ensures U32(GetU32(s)) == s[..4]
  {
    var hi, lo := GetU16(s), GetU16(s[2..]);
    assert GetU32(s) / 0x1_0000 == hi && GetU32(s) % 0x1_0000 == lo;
  }

  lemma U64Reencodes(s: bytes)
    requires |s| >= 8
    ensures U64(GetU64(s)) == s[..8]
  {
    var hi, lo := GetU32(s), GetU32(s[4..]);
    assert GetU64(s) / TWO32 == hi && GetU64(s) % TWO32 == lo;
    U32Reencodes(s);
    U32Reencodes(s[4..]);
    hide U32, GetU32;
    assert s[..4] + s[4..][..4] == s[..8];
  }

  function XorByte(a: byte, m: byte): byte {
    Pow2Values();
    BitwiseBound(BoolXor, a, m, 8);
    Xor(a, m)
  }

  lemma XorByteBit(a: byte, m: byte, d: nat)
    ensures Bit(XorByte(a, m), d) == (Bit(a, d) != Bit(m, d))
  {
    BitwiseBit(BoolXor, a, m, d);
  }

  /** `copy` into a 32-byte array that is still zero. */
  function CopyKey(s: bytes): Block32 {
    if |s| >= 32 then s[..32] else s + seq(32 - |s|, _ => 0)
  }

  /** It keeps the first 32 bytes and fills up behind shorter ones. */
  lemma CopyKeyIs(s: bytes)
    ensures |s| >= 32 ==> CopyKey(s) == s[..32]
    ensures |s| < 32 ==> CopyKey(s)[..|s|] == s && AllZero(CopyKey(s)[|s|..])
  {}

  predicate AllZero(s: bytes) {
    forall i | 0 <= i < |s| :: s[i] == 0
  }
}
