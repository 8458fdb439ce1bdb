/** Octets, fixed-width unsigned integers in network byte order, and exclusive-or. */
module Bytes {
  type byte = x: int | 0 <= x < 0x100
  type u16 = x: int | 0 <= x < 0x1_0000
  type u32 = x: int | 0 <= x < 0x1_0000_0000
  type bytes = seq<byte>

  /** `u16::to_be_bytes`. */
  function EncodeU16(x: u16): (b: bytes)
    ensures |b| == 2
  {
    [x / 0x100, x % 0x100]
  }

  /** `u16::from_be_bytes`. */
  function DecodeU16(hi: byte, lo: byte): u16 {
    hi * 0x100 + lo
  }

  /** `u32::to_be_bytes`. */
  function EncodeU32(x: u32): (b: bytes)
    ensures |b| == 4
  {
    EncodeU16(x / 0x1_0000) + EncodeU16(x % 0x1_0000)
  }

  /** `u32::from_be_bytes`. */
  function DecodeU32(b3: byte, b2: byte, b1: byte, b0: byte): u32 {
    DecodeU16(b3, b2) * 0x1_0000 + DecodeU16(b1, b0)
  }

  lemma U16RoundTrip(x: u16)
    ensures DecodeU16(EncodeU16(x)[0], EncodeU16(x)[1]) == x
  {
  }

  lemma U32RoundTrip(x: u32)
    ensures var b := EncodeU32(x); DecodeU32(b[0], b[1], b[2], b[3]) == x
  {
    U16RoundTrip(x / 0x1_0000);
    U16RoundTrip(x % 0x1_0000);
  }

  /** The number that octets spell, the most significant first. */
  function BigEndian(b: bytes): nat {
    if b == [] then 0 else BigEndian(b[..|b| - 1]) * 256 + b[|b| - 1]
  }

  lemma EncodedBigEndian16(x: u16)
    ensures BigEndian(EncodeU16(x)) == x
  {
    BigEndianPair(EncodeU16(x)[0], EncodeU16(x)[1]);
    assert EncodeU16(x) == [EncodeU16(x)[0], EncodeU16(x)[1]];
  }

  lemma BigEndianPair(hi: byte, lo: byte)
    ensures BigEndian([hi, lo]) == DecodeU16(hi, lo)
  {
    assert [hi, lo][..1] == [hi] && [hi][..0] == [];
    assert BigEndian([hi]) == hi;
  }

  lemma EncodedBigEndian32(x: u32)
    ensures BigEndian(EncodeU32(x)) == x
  {
    var b := EncodeU32(x);
    var hi, lo := x / 0x1_0000, x % 0x1_0000;
    EncodedBigEndian16(hi);
    assert b[..3][..2] == EncodeU16(hi);
    assert b[..3] == b[..4][..3] && b[..4] == b;
    assert b[2] == EncodeU16(lo)[0] && b[3] == EncodeU16(lo)[1];
  }

  function Pow2(n: nat): (p: nat)
    ensures p > 0
  {
    if n == 0 then 1 else 2 * Pow2(n - 1)
  }

  /** Exclusive-or of the low `n` bits of `a` and `b`. */
  function Xor(a: nat, b: nat, n: nat): (r: nat)
    ensures r < Pow2(n)
  {
    if n == 0 then 0
    else 2 * Xor(a / 2, b / 2, n - 1) + (if a % 2 == b % 2 then 0 else 1)
  }

  lemma {:induction false} XorInvolution(a: nat, k: nat, n: nat)
    requires a < Pow2(n)
    ensures Xor(Xor(a, k, n), k, n) == a
  {
    if n != 0 {
      XorInvolution(a / 2, k / 2, n - 1);
    }
  }

  /** Bit `i` of a number, counted from the lowest. */
  function Bit(x: nat, i: nat): nat {
    if i == 0 then x % 2 else Bit(x / 2, i - 1)
  }

  lemma {:induction false} BitIsBinary(x: nat, i: nat)
    ensures Bit(x, i) == 0 || Bit(x, i) == 1
  {
    if i > 0 {
      BitIsBinary(x / 2, i - 1);
    }
  }

  /** What exclusive-or means, bit by bit. */
  lemma {:induction false} XorBits(a: nat, b: nat, n: nat, i: nat)
    requires i < n
    ensures Bit(Xor(a, b, n), i) == 1 <==> Bit(a, i) != Bit(b, i)
  {
    if i > 0 {
      assert Xor(a, b, n) / 2 == Xor(a / 2, b / 2, n - 1);
      XorBits(a / 2, b / 2, n - 1, i - 1);
    }
  }

  function Xor8(a: byte, b: byte): byte {
    assert Pow2(8) == 0x100;
    Xor(a, b, 8)
  }

  function Xor16(a: u16, b: u16): u16 {
    Pow2At16();
    Xor(a, b, 16)
  }

  lemma Pow2At16()
    ensures Pow2(8) == 0x100 && Pow2(16) == 0x1_0000
  {
    assert Pow2(8) == 0x100;
    assert Pow2(12) == 0x1000;
  }

  lemma Xor8Involution(a: byte, k: byte)
    ensures Xor8(Xor8(a, k), k) == a
  {
    Pow2At16();
    XorInvolution(a, k, 8);
  }

  lemma Xor16Involution(a: u16, k: u16)
    ensures Xor16(Xor16(a, k), k) == a
  {
    Pow2At16();
    XorInvolution(a, k, 16);
  }
}
