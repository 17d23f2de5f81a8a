/** Difficulty targets and their four-byte compact form: a size in bytes and the three leading bytes. */
module CompactTargets {
  import opened Options
  import opened Bytes

  const MAX_TARGET: nat := 0xffff_ffff_ffff_ffff_ffff_ffff_ffff_ffff_ffff_ffff_ffff_ffff_ffff_ffff

  /** None: the compact form is not a target, and the conversion raises. */
  function BitsToTarget(bits: int): Option<nat> {
    if !(0 <= bits < 0x1_0000_0000) then None
    else
      var bitsN, bitsBase := bits / 0x100_0000, bits % 0x80_0000;
      var target := if bitsN <= 3 then bitsBase / Power256(3 - bitsN) else bitsBase * Power256(bitsN - 3);
      if target != 0 && bits / 0x80_0000 % 2 != 0 then None
      else if target != 0 && (bitsN > 34 || (bitsN > 33 && bitsBase > 0xff) || (bitsN > 32 && bitsBase > 0xffff))
      then None
      else Some(target)
  }

  /** Number of bytes of `t` without leading zeros. */
  function ByteLength(t: nat): (n: nat)
    ensures t < Power256(n) && (t > 0 ==> n > 0 && Power256(n - 1) <= t)
  {
    if t == 0 then 0 else ByteLength(t / 256) + 1
  }

  /** The three leading bytes, with zeros behind a shorter number. */
  function LeadingBytes(t: nat): nat {
    var n := ByteLength(t);
    if n < 3 then t * Power256(3 - n) else t / Power256(n - 3)
  }

  function TargetToBits(t: nat): nat {
    var n, base := ByteLength(t), LeadingBytes(t);
    if base >= 0x80_0000 then (n + 1) * 0x100_0000 + base / 256 else n * 0x100_0000 + base
  }

  // ----- arithmetic

  lemma {:induction false} PowerAdd(a: nat, b: nat)
    ensures Power256(a + b) == Power256(a) * Power256(b)
  {
    if a > 0 {
      PowerAdd(a - 1, b);
    }
  }

  lemma SmallPowers()
    ensures Power256(0) == 1 && Power256(1) == 256 && Power256(2) == 0x1_0000 && Power256(3) == 0x100_0000
  {
  }

  lemma {:induction false} PowerMonotone(a: nat, b: nat)
    requires a <= b
    ensures Power256(a) <= Power256(b)
  {
    if a < b {
      PowerMonotone(a, b - 1);
    }
  }

  lemma ByteLengthIs(t: nat, n: nat)
    requires n > 0 && Power256(n - 1) <= t < Power256(n)
    ensures ByteLength(t) == n
  {
    var m := ByteLength(t);
    if m < n {
      PowerMonotone(m, n - 1);
    } else if n < m {
      PowerMonotone(n, m - 1);
    }
  }

  lemma MulLe(a: nat, b: nat, p: nat)
    requires a <= b
    ensures a * p <= b * p
  {
  }

  lemma MulCancel(a: nat, b: nat, p: nat)
    requires a * p < b * p
    ensures a < b
  {
    if b <= a {
      MulLe(b, a, p);
    }
  }

  lemma DivBounds(t: nat, d: nat)
    requires d > 0
    ensures t / d * d <= t < (t / d + 1) * d
  {
  }

  lemma DivIs(t: nat, d: nat, q: nat)
    requires d > 0 && q * d <= t < (q + 1) * d
    ensures t / d == q
  {
    DivBounds(t, d);
    MulCancel(q, t / d + 1, d);
    MulCancel(t / d, q + 1, d);
  }

  lemma QuotientBounds(t: nat, p: nat, low: nat, high: nat)
    requires p > 0 && low * p <= t < high * p
    ensures t / p * p <= t < (t / p + 1) * p && low <= t / p < high
  {
    DivBounds(t, p);
    MulCancel(low, t / p + 1, p);
    MulCancel(t / p, high, p);
  }

  /** The size of a number of `n` bytes, in units of its third byte. */
  lemma LongSize(t: nat, n: nat)
    requires n >= 3 && n == ByteLength(t)
    ensures 0x1_0000 * Power256(n - 3) <= t < 0x100_0000 * Power256(n - 3)
  {
    SmallPowers();
    PowerAdd(2, n - 3);
    PowerAdd(3, n - 3);
  }

  /** The leading bytes of a number of `n` bytes, three or more. */
  lemma LeadingBytesLong(t: nat, n: nat)
    requires n >= 3 && n == ByteLength(t)
    ensures var p, base := Power256(n - 3), LeadingBytes(t);
            base * p <= t < (base + 1) * p && 0x1_0000 <= base < 0x100_0000
  {
    LongSize(t, n);
    QuotientBounds(t, Power256(n - 3), 0x1_0000, 0x100_0000);
  }

  lemma LeadingBytesShort(t: nat, n: nat)
    requires 0 < n < 3 && n == ByteLength(t)
    ensures LeadingBytes(t) == (if n == 1 then t * 0x1_0000 else t * 256) && 0x1_0000 <= LeadingBytes(t) < 0x100_0000
  {
    SmallPowers();
  }

  /** What a compact form decodes to when its fields are in range. */
  lemma Decoded(n: nat, base: nat)
    requires n <= 33 && base < 0x80_0000 && (n == 33 ==> base < 0x1_0000)
    ensures BitsToTarget(n * 0x100_0000 + base) ==
            Some(if n <= 3 then base / Power256(3 - n) else base * Power256(n - 3))
  {
    var bits := n * 0x100_0000 + base;
    assert bits / 0x100_0000 == n && bits % 0x80_0000 == base && bits / 0x80_0000 % 2 == 0;
  }

  /** `d` is `t` with only its leading `k` bits or more kept. */
  predicate Rounded(t: nat, d: nat) {
    d <= t && (t > 0 ==> (t - d) * 0x8000 < t)
  }

  lemma DecodedShort(n: nat, base: nat)
    requires n <= 3 && base < 0x80_0000
    ensures BitsToTarget(n * 0x100_0000 + base) ==
            Some(if n == 0 then base / 0x100_0000
                 else if n == 1 then base / 0x1_0000
                 else if n == 2 then base / 256
                 else base)
  {
    Decoded(n, base);
    SmallPowers();
  }

  lemma DecodedLong(n: nat, base: nat)
    requires 3 <= n <= 33 && base < 0x80_0000 && (n == 33 ==> base < 0x1_0000)
    ensures BitsToTarget(n * 0x100_0000 + base) == Some(base * Power256(n - 3))
  {
    Decoded(n, base);
    SmallPowers();
  }

  lemma Undone(t: nat)
    ensures t * 0x1_0000 / 256 == t * 256 && t * 256 / 256 == t && t * 0x1_0000 / 0x1_0000 == t
  {
  }

  lemma ShortTarget(t: nat, n: nat)
    requires n == ByteLength(t) < 3
    ensures BitsToTarget(TargetToBits(t)) == Some(t)
  {
    Undone(t);
    if n == 0 {
      assert LeadingBytes(t) == 0;
      DecodedShort(0, 0);
    } else {
      LeadingBytesShort(t, n);
      var base := LeadingBytes(t);
      var big := base >= 0x80_0000;
      var n', base' := if big then n + 1 else n, if big then base / 256 else base;
      assert TargetToBits(t) == n' * 0x100_0000 + base';
      DecodedShort(n', base');
      assert n == 1 ==> base' == if big then t * 256 else t * 0x1_0000;
      assert n == 2 ==> base' == if big then t else t * 256;
    }
  }

  /** What decoding keeps of the leading bytes. */
  function Kept(base: nat): nat {
    if base >= 0x80_0000 then base / 256 * 256 else base
  }

  lemma KeptBounds(base: nat)
    requires 0x1_0000 <= base < 0x100_0000
    ensures 0x1_0000 <= Kept(base) <= base && (base + 1 - Kept(base)) * 0x8000 <= Kept(base)
    ensures base >= 0x80_0000 <==> Kept(base) >= 0x80_0000
    ensures base >= 0x80_0000 ==> base / 256 == Kept(base) / 256 < 0x1_0000
  {
  }

  lemma LongDecoded(t: nat, n: nat)
    requires 3 <= n == ByteLength(t) <= 32
    ensures BitsToTarget(TargetToBits(t)) == Some(Kept(LeadingBytes(t)) * Power256(n - 3))
  {
    var p, base := Power256(n - 3), LeadingBytes(t);
    LeadingBytesLong(t, n);
    KeptBounds(base);
    if base >= 0x80_0000 {
      DecodedLong(n + 1, base / 256);
      Regroup(base / 256, p, Power256(n - 2));
    } else {
      DecodedLong(n, base);
    }
  }

  lemma Regroup(top: nat, p: nat, q: nat)
    requires q == 256 * p
    ensures top * q == top * 256 * p
  {
  }

  lemma LongTarget(t: nat, n: nat)
    requires 3 <= n == ByteLength(t) <= 32
    ensures BitsToTarget(TargetToBits(t)).Some?
    ensures var d := BitsToTarget(TargetToBits(t)).value;
            Rounded(t, d) && TargetToBits(d) == TargetToBits(t)
  {
    var p, base := Power256(n - 3), LeadingBytes(t);
    var kept := Kept(base);
    LongDecoded(t, n);
    LeadingBytesLong(t, n);
    KeptBounds(base);
    TopKept(t, p, base, kept);
    SameLength(t, n, kept, kept * p);
  }

  lemma SameLength(t: nat, n: nat, kept: nat, d: nat)
    requires n >= 3 && n == ByteLength(t) && 0x1_0000 <= kept < 0x100_0000 && d == kept * Power256(n - 3)
    ensures ByteLength(d) == n && LeadingBytes(d) == kept
  {
    var p := Power256(n - 3);
    MulLe(0x1_0000, kept, p);
    MulLe(kept + 1, 0x100_0000, p);
    assert (kept + 1) * p == kept * p + p;
    LongLength(d, n, p);
    DivIs(d, p, kept);
  }

  lemma LongLength(d: nat, n: nat, p: nat)
    requires n >= 3 && p == Power256(n - 3) && 0x1_0000 * p <= d < 0x100_0000 * p
    ensures ByteLength(d) == n && LeadingBytes(d) == d / p
  {
    PowersAround(n);
    ByteLengthIs(d, n);
  }

  lemma PowersAround(n: nat)
    requires n >= 3
    ensures Power256(n - 1) == 0x1_0000 * Power256(n - 3) && Power256(n) == 0x100_0000 * Power256(n - 3)
  {
    SmallPowers();
    PowerAdd(2, n - 3);
    PowerAdd(3, n - 3);
  }

  lemma TopKept(t: nat, p: nat, base: nat, kept: nat)
    requires p > 0 && base * p <= t < (base + 1) * p
    requires 0 < kept <= base && (base + 1 - kept) * 0x8000 <= kept
    ensures Rounded(t, kept * p)
  {
    var gap := base + 1 - kept;
    MulLe(kept, base, p);
    assert (base + 1) * p == kept * p + gap * p;
    MulLe(gap * 0x8000, kept, p);
    assert gap * 0x8000 * p == gap * p * 0x8000;
  }

  /**
   Every target below 2^256 has a compact form that decodes, to the target with its low bits dropped: never
   more, less by under one part in 2^15, and to a number with the same compact form.
   */
  lemma CompactRoundTrip(t: nat)
    requires t < Power256(32)
    ensures BitsToTarget(TargetToBits(t)).Some?
    ensures var d := BitsToTarget(TargetToBits(t)).value;
            Rounded(t, d) && TargetToBits(d) == TargetToBits(t)
  {
    var n := ByteLength(t);
    if n > 32 {
      PowerMonotone(32, n - 1);
    }
    if n < 3 {
      ShortTarget(t, n);
    } else {
      LongTarget(t, n);
    }
  }

  /** What a target comes back as from its compact form. */
  function Recoded(t: nat): nat {
    var d := BitsToTarget(TargetToBits(t));
    if d.Some? then d.value else 0
  }

  lemma KeptMonotone(a: nat, b: nat)
    requires a <= b
    ensures Kept(a) <= Kept(b)
  {
  }

  /** A greater target does not come back as a smaller one. */
  lemma RecodedMonotone(t: nat, t': nat)
    requires t <= t' < Power256(32)
    ensures Recoded(t) <= Recoded(t')
  {
    var n, n' := ByteLength(t), ByteLength(t');
    CompactRoundTrip(t);
    CompactRoundTrip(t');
    if n' < 3 {
      ShortTarget(t', n');
    } else {
      if n' > 32 {
        PowerMonotone(32, n' - 1);
      }
      LongDecoded(t', n');
      LeadingBytesLong(t', n');
      KeptBounds(LeadingBytes(t'));
      if n < n' {
        PowerMonotone(n, n' - 1);
        PowersAround(n');
        MulLe(0x1_0000, Kept(LeadingBytes(t')), Power256(n' - 3));
      } else {
        SameLengthMonotone(t, t', n, n');
      }
    }
  }

  lemma SameLengthMonotone(t: nat, t': nat, n: nat, n': nat)
    requires t <= t' && n == ByteLength(t) && n' == ByteLength(t') && n >= n' && 3 <= n' <= 32
    requires Recoded(t') == Kept(LeadingBytes(t')) * Power256(n' - 3)
    ensures Recoded(t) <= Recoded(t')
  {
    if n > n' {
      PowerMonotone(n', n - 1);
    }
    LongDecoded(t, n);
    LeadingBytesLong(t, n);
    LeadingBytesLong(t', n');
    MulCancel(LeadingBytes(t), LeadingBytes(t') + 1, Power256(n - 3));
    KeptMonotone(LeadingBytes(t), LeadingBytes(t'));
    MulLe(Kept(LeadingBytes(t)), Kept(LeadingBytes(t')), Power256(n - 3));
  }

  /** The number that a compact form stands for, its sign and its size aside. */
  function Magnitude(bits: nat): int {
    if bits / 0x100_0000 <= 3 then bits % 0x80_0000 / Power256(3 - bits / 0x100_0000)
    else bits % 0x80_0000 * Power256(bits / 0x100_0000 - 3)
  }

  /** A compact form of four bytes is refused exactly if its number is negative or is 2^256 or more. */
  lemma RefusedIff(bits: nat)
    requires bits < 0x1_0000_0000
    ensures BitsToTarget(bits) ==
            if Magnitude(bits) != 0 && (bits / 0x80_0000 % 2 == 1 || Magnitude(bits) >= Power256(32)) then None
            else Some(Magnitude(bits))
  {
    hide Power256;
    var n, base := bits / 0x100_0000, bits % 0x80_0000;
    SmallPowers();
    if base == 0 {
      NoMagnitude(bits);
    } else if n <= 3 {
      PowerMonotone(3, 32);
      DivBounds(base, Power256(3 - n));
      AtMost(base / Power256(3 - n), Power256(3 - n), base);
    } else {
      LimitAt(n, base);
    }
  }

  lemma NoMagnitude(bits: nat)
    requires bits < 0x1_0000_0000 && bits % 0x80_0000 == 0
    ensures Magnitude(bits) == 0 && BitsToTarget(bits) == Some(0)
  {
  }

  lemma AtMost(q: nat, d: nat, a: nat)
    requires q * d <= a && d > 0
    ensures q <= a
  {
    MulLe(1, d, q);
  }

  lemma BelowLimit(base: nat, k: nat, p: nat)
    requires 0 < base && p > 0 && k * p == Power256(32)
    ensures base * p > 0 && (base >= k <==> base * p >= Power256(32))
  {
    MulLe(1, base, p);
    if base < k {
      MulLe(base + 1, k, p);
      assert (base + 1) * p == base * p + p;
    } else {
      MulLe(k, base, p);
    }
  }

  lemma SmallIsBelow(n: nat, base: nat, p: nat)
    requires 3 < n <= 32 && 0 < base < 0x100_0000 && p == Power256(n - 3)
    ensures 0 < base * p < Power256(32)
  {
    PowersAround(n);
    PowerMonotone(n, 32);
    MulLe(1, base, p);
    MulLe(base + 1, 0x100_0000, p);
    assert (base + 1) * p == base * p + p;
  }

  lemma LargeIsAbove(n: nat, base: nat, p: nat)
    requires n > 34 && 0 < base && p == Power256(n - 3)
    ensures base * p >= Power256(32)
  {
    PowerMonotone(32, n - 3);
    MulLe(1, base, p);
  }

  lemma LimitAt(n: nat, base: nat)
    requires n > 3 && 0 < base < 0x80_0000
    ensures base * Power256(n - 3) > 0
    ensures n > 34 || (n > 33 && base > 0xff) || (n > 32 && base > 0xffff) <==> base * Power256(n - 3) >= Power256(32)
  {
    hide Power256;
    if n <= 32 {
      SmallIsBelow(n, base, Power256(n - 3));
    } else if n <= 34 {
      SmallPowers();
      PowerAdd(35 - n, n - 3);
      BelowLimit(base, Power256(35 - n), Power256(n - 3));
    } else {
      LargeIsAbove(n, base, Power256(n - 3));
    }
  }

  /** The compact form fits into the four bytes that a header has for it. */
  lemma CompactFits(t: nat)
    requires t < Power256(32)
    ensures TargetToBits(t) < 0x1_0000_0000
  {
    CompactRoundTrip(t);
  }

  // ----- the loop over the bytes

  method EncodeTarget(target: nat) returns (bits: nat)
    requires target < Power256(32)
    ensures bits == TargetToBits(target) && bits < 0x1_0000_0000
  {
    CompactFits(target);
    var c := ToBytes(target, 32);
    FromToBytes(target, 32);
    var bitsN := 32;
    SmallPowers();
    ghost var pad := 0;
    while bitsN > 0 && c[0] == 0
      invariant 0 <= bitsN <= 32 && |c| == bitsN + pad && pad == (if bitsN < 3 then 3 - bitsN else 0)
      invariant FromBytes(c) == target * Power256(pad) && (bitsN == 0 ==> target == 0)
    {
      LeadingZero(c);
      Shorter(c, bitsN, pad, target);
      c := c[1..];
      bitsN := bitsN - 1;
      if |c| < 3 {
        c := c + [0];
        pad := pad + 1;
      }
    }
    StrippedLength(c, bitsN, pad, target);
    LeadingOfStripped(c, bitsN, pad, target);
    var bitsBase := FromBytes(c[..3]);
    if bitsBase >= 0x80_0000 {
      bitsN := bitsN + 1;
      bitsBase := bitsBase / 256;
    }
    bits := bitsN * 0x100_0000 + bitsBase;
  }

  /** Dropping a leading zero, and padding what gets too short. */
  lemma Shorter(c: seq<byte>, n: nat, pad: nat, t: nat)
    requires 0 < n && |c| == n + pad && pad == (if n < 3 then 3 - n else 0) && c[0] == 0
    requires FromBytes(c) == t * Power256(pad) && FromBytes(c[1..]) == FromBytes(c)
    ensures n > 3 ==> FromBytes(c[1..]) == t * Power256(pad)
    ensures n <= 3 ==> FromBytes(c[1..] + [0]) == t * Power256(pad + 1)
    ensures n == 1 ==> t == 0
  {
    assert (c[1..] + [0])[..|c| - 1] == c[1..];
    assert t * (256 * Power256(pad)) == t * Power256(pad) * 256;
    SmallPowers();
    if n == 1 {
      assert c[1..] == [c[1], c[2]];
      LeadingByte(c);
    }
  }

  lemma {:induction false} LeadingZero(c: seq<byte>)
    requires c != [] && c[0] == 0
    ensures FromBytes(c[1..]) == FromBytes(c)
  {
    if |c| > 1 {
      LeadingZero(c[..|c| - 1]);
      assert c[1..][..|c| - 2] == c[..|c| - 1][1..];
    }
  }

  lemma Scaled(f: nat, low: nat, first: nat, p: nat)
    requires first * p <= f < (first + 1) * p && low < 256
    ensures first * (256 * p) <= f * 256 + low < (first + 1) * (256 * p)
  {
    assert first * (256 * p) == 256 * (first * p);
    assert (first + 1) * (256 * p) == 256 * ((first + 1) * p);
  }

  lemma {:induction false} LeadingByte(c: seq<byte>)
    requires c != []
    ensures c[0] * Power256(|c| - 1) <= FromBytes(c) < (c[0] as nat + 1) * Power256(|c| - 1)
  {
    if |c| > 1 {
      var front := c[..|c| - 1];
      LeadingByte(front);
      Scaled(FromBytes(front), c[|c| - 1], c[0], Power256(|c| - 2));
    } else {
      assert c[..0] == [];
    }
  }

  lemma DivTwice(v: nat, low: nat, p: nat)
    requires p > 0 && low < 256
    ensures (v * 256 + low) / (256 * p) == v / p
  {
    var q := v / p;
    DivBounds(v, p);
    assert q * (256 * p) == q * p * 256;
    assert (q + 1) * (256 * p) == (q + 1) * p * 256;
    DivIs(v * 256 + low, 256 * p, q);
  }

  lemma {:induction false} FromBytesPrefix(c: seq<byte>, k: nat)
    requires k <= |c|
    ensures FromBytes(c[..k]) == FromBytes(c) / Power256(|c| - k)
  {
    if k < |c| {
      var front := c[..|c| - 1];
      FromBytesPrefix(front, k);
      assert front[..k] == c[..k];
      DivTwice(FromBytes(front), c[|c| - 1], Power256(|front| - k));
    } else {
      assert c[..k] == c && Power256(0) == 1;
    }
  }

  lemma StrippedLength(c: seq<byte>, n: nat, pad: nat, t: nat)
    requires n <= 32 && |c| == n + pad && pad == (if n < 3 then 3 - n else 0)
    requires FromBytes(c) == t * Power256(pad) && (n > 0 ==> c[0] != 0)
    requires n == 0 ==> t == 0
    ensures ByteLength(t) == n
  {
    if n > 0 {
      LeadingByte(c);
      var p, q := Power256(pad), Power256(n - 1);
      PowerAdd(n - 1, pad);
      assert |c| - 1 == n - 1 + pad;
      MulLe(1, c[0], q * p);
      MulLe(1 + c[0] as nat, 256, q * p);
      assert q * p <= t * p < 256 * (q * p) == (256 * q) * p;
      MulCancel(q, t + 1, p) by {
        assert (t + 1) * p == t * p + p;
      }
      MulCancel(t, 256 * q, p);
      ByteLengthIs(t, n);
    }
  }

  lemma LeadingOfStripped(c: seq<byte>, n: nat, pad: nat, t: nat)
    requires n <= 32 && |c| == n + pad && pad == (if n < 3 then 3 - n else 0)
    requires FromBytes(c) == t * Power256(pad) && ByteLength(t) == n
    ensures FromBytes(c[..3]) == LeadingBytes(t)
  {
    SmallPowers();
    if n < 3 {
      assert c[..3] == c;
    } else {
      FromBytesPrefix(c, 3);
      assert FromBytes(c) == t * 1;
    }
  }
}
