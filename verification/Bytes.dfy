/** Byte strings: exclusive or, zero padding and big-endian numbers. */
module Bytes {
  type byte = n: int | 0 <= n < 256

  function Power2(n: nat): (r: nat)
    ensures r >= 1
  {
    if n == 0 then 1 else 2 * Power2(n - 1)
  }

  /** Exclusive or of the lowest `bits` binary digits. */
  function XorBits(a: nat, b: nat, bits: nat): (r: nat)
    ensures r < Power2(bits)
  {
    if bits == 0 then 0 else 2 * XorBits(a / 2, b / 2, bits - 1) + (a + b) % 2
  }

  function XorByte(a: byte, b: byte): byte {
    assert Power2(8) == 256;
    XorBits(a, b, 8)
  }

  lemma {:induction false} XorBitsTwice(a: nat, b: nat, bits: nat)
    requires a < Power2(bits)
    ensures XorBits(XorBits(a, b, bits), b, bits) == a
  {
    if bits > 0 {
      XorBitsTwice(a / 2, b / 2, bits - 1);
      assert XorBits(a, b, bits) / 2 == XorBits(a / 2, b / 2, bits - 1);
      assert (XorBits(a, b, bits) + b) % 2 == a % 2;
    }
  }

  lemma {:induction false} XorBitsZero(b: nat, bits: nat)
    requires b < Power2(bits)
    ensures XorBits(0, b, bits) == b
  {
    if bits > 0 {
      XorBitsZero(b / 2, bits - 1);
    }
  }

  /** Byte-wise exclusive or, as long as the shorter of the two. */
  function Xor(a: seq<byte>, b: seq<byte>): (r: seq<byte>)
    ensures |r| == if |a| < |b| then |a| else |b|
    ensures forall i :: 0 <= i < |r| ==> r[i] == XorByte(a[i], b[i])
  {
    seq(if |a| < |b| then |a| else |b|, i requires 0 <= i < |a| && i < |b| => XorByte(a[i], b[i]))
  }

  function Zeros(n: nat): (r: seq<byte>)
    ensures |r| == n && forall i :: 0 <= i < n ==> r[i] == 0
  {
    seq(n, _ => 0)
  }

  /** A mask applied twice cancels. */
  lemma XorTwice(a: seq<byte>, mask: seq<byte>)
    requires |a| <= |mask|
    ensures Xor(Xor(a, mask), mask) == a
  {
    forall i | 0 <= i < |a|
      ensures XorByte(XorByte(a[i], mask[i]), mask[i]) == a[i]
    {
      assert Power2(8) == 256;
      XorBitsTwice(a[i], mask[i], 8);
    }
  }

  lemma XorZeros(n: nat, mask: seq<byte>)
    requires n <= |mask|
    ensures Xor(Zeros(n), mask) == mask[..n]
  {
    forall i | 0 <= i < n
      ensures XorByte(0, mask[i]) == mask[i]
    {
      assert Power2(8) == 256;
      XorBitsZero(mask[i], 8);
    }
  }

  /** Exclusive or works piece by piece. */
  lemma XorSlice(a: seq<byte>, b: seq<byte>, lo: nat, hi: nat)
    requires lo <= hi <= |a| && hi <= |b|
    ensures Xor(a, b)[lo..hi] == Xor(a[lo..hi], b[lo..hi])
  {
  }

  lemma XorConcat(a: seq<byte>, b: seq<byte>, mask: seq<byte>)
    requires |a| + |b| <= |mask|
    ensures Xor(a + b, mask) == Xor(a, mask[..|a|]) + Xor(b, mask[|a|..|a| + |b|])
  {
  }

  // ----- big-endian numbers

  function Power256(n: nat): (r: nat)
    ensures r >= 1
  {
    if n == 0 then 1 else 256 * Power256(n - 1)
  }

  function FromBytes(b: seq<byte>): nat {
    if b == [] then 0 else FromBytes(b[..|b| - 1]) * 256 + b[|b| - 1]
  }

  function ToBytes(v: nat, n: nat): (b: seq<byte>)
    requires v < Power256(n)
    ensures |b| == n
  {
    if n == 0 then [] else ToBytes(v / 256, n - 1) + [v % 256]
  }

  lemma {:induction false} FromToBytes(v: nat, n: nat)
    requires v < Power256(n)
    ensures FromBytes(ToBytes(v, n)) == v
  {
    if n > 0 {
      FromToBytes(v / 256, n - 1);
      var b := ToBytes(v, n);
      assert b[..|b| - 1] == ToBytes(v / 256, n - 1);
    }
  }

  lemma {:induction false} ToFromBytes(b: seq<byte>)
    ensures FromBytes(b) < Power256(|b|)
    ensures ToBytes(FromBytes(b), |b|) == b
  {
    if b != [] {
      ToFromBytes(b[..|b| - 1]);
    }
  }
}
