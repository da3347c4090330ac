/** Bytes and fixed-width integers in network order. */
module Bytes {

  type Byte = b: int | 0 <= b < 256
  type U16 = v: int | 0 <= v < 0x1_0000
  type U32 = v: int | 0 <= v < 0x1_0000_0000
  type U64 = v: int | 0 <= v < 0x1_0000_0000_0000_0000
  type I32 = v: int | -0x8000_0000 <= v < 0x8000_0000

  function Pow256(k: nat): (p: nat)
    ensures p > 0
  {
    if k == 0 then 1 else 256 * Pow256(k - 1)
  }

  /** `k` bytes, most significant first; higher bits are dropped. */
  function BigEndian(v: nat, k: nat): (s: seq<Byte>)
    ensures |s| == k
  {
    if k == 0 then [] else BigEndian(v / 256, k - 1) + [v % 256]
  }

  function FromBigEndian(s: seq<Byte>): (v: nat)
  {
    if s == [] then 0 else 256 * FromBigEndian(s[..|s| - 1]) + s[|s| - 1]
  }

  lemma {:induction false} FromBigEndianBound(s: seq<Byte>)
    ensures FromBigEndian(s) < Pow256(|s|)
  {
    if s != [] {
      FromBigEndianBound(s[..|s| - 1]);
    }
  }

  lemma {:induction false} BigEndianRoundTrip(v: nat, k: nat)
    requires v < Pow256(k)
    ensures FromBigEndian(BigEndian(v, k)) == v
  {
    if k > 0 {
      BigEndianRoundTrip(v / 256, k - 1);
      assert BigEndian(v, k)[..k - 1] == BigEndian(v / 256, k - 1);
    }
  }

  lemma {:induction false} BigEndianInverse(s: seq<Byte>)
    ensures BigEndian(FromBigEndian(s), |s|) == s
  {
    if s != [] {
      var init, last := s[..|s| - 1], s[|s| - 1];
      BigEndianInverse(init);
      var v := FromBigEndian(s);
      assert v / 256 == FromBigEndian(init) && v % 256 == last;
      assert s == init + [last];
    }
  }

  /** The widths the packets use. */
  lemma Widths()
    ensures Pow256(1) == 0x100
    ensures Pow256(2) == 0x1_0000
    ensures Pow256(4) == 0x1_0000_0000
    ensures Pow256(8) == 0x1_0000_0000_0000_0000
  {
    assert Pow256(2) == 256 * Pow256(1);
    assert Pow256(3) == 256 * Pow256(2);
    assert Pow256(4) == 256 * Pow256(3);
    assert Pow256(5) == 256 * Pow256(4);
    assert Pow256(6) == 256 * Pow256(5);
    assert Pow256(7) == 256 * Pow256(6);
    assert Pow256(8) == 256 * Pow256(7);
  }

  /** Two's complement, as the conversions between int32_t and uint32_t go. */
  function ToUnsigned(v: I32): U32 {
    if v < 0 then v + 0x1_0000_0000 else v
  }

  function ToSigned(v: U32): I32 {
    if v >= 0x8000_0000 then v - 0x1_0000_0000 else v
  }

  lemma SignedRoundTrip(v: I32)
    ensures ToSigned(ToUnsigned(v)) == v
  {
  }

  /** Both name the same residue of 2^32, each in its own range. */
  lemma TwosComplement(v: I32, u: U32)
    ensures (ToUnsigned(v) - v) % 0x1_0000_0000 == 0
    ensures (u - ToSigned(u)) % 0x1_0000_0000 == 0
  {
  }

  /** Flag bit `k` of a byte. */
  predicate HasBit(flags: Byte, bit: nat)
    requires bit > 0
  {
    (flags / bit) % 2 == 1
  }
}
