/** A prime that divides a product divides one of its factors. */
module Primes {
  ghost predicate IsPrime(n: nat) {
    n > 1 && forall d :: 1 < d < n ==> n % d != 0
  }

  /** Multiples of `n` other than zero are at least as large as `n`. */
  lemma NoneBetween(n: int, d: int)
    requires n > 0
    ensures d >= 1 ==> n * d >= n
    ensures d <= -1 ==> n * d <= -n
  {
  }

  lemma MultipleOf(b: int, n: nat, j: int)
    requires n > 0 && b == n * j
    ensures b % n == 0
  {
    var d := j - b / n;
    assert n * d == b % n;
    NoneBetween(n, d);
  }

  lemma Division(p: nat, a: nat)
    requires a > 0
    ensures p == p / a * a + p % a && p % a < a
  {
  }

  lemma OneLess(a: nat, p: nat)
    requires 0 < p <= a
    ensures (a - p) % p == a % p
  {
    var d := a / p - (a - p) / p - 1;
    Division(a, p);
    Division(a - p, p);
    assert p * d == (a - p) % p - a % p;
    NoneBetween(p, d);
  }

  lemma LessTimes(p: nat, a: nat, b: nat, k: int)
    requires a * b == p * k
    ensures (a - p) * b == p * (k - b)
  {
    assert (a - p) * b == a * b - p * b;
    assert p * (k - b) == p * k - p * b;
  }

  lemma RemainderTimes(p: nat, a: nat, b: nat, k: int, q: int, r: int)
    requires p == q * a + r && a * b == p * k
    ensures r * b == p * (b - q * k)
  {
    assert r * b == (p - q * a) * b == p * b - q * a * b;
    assert q * a * b == q * (a * b) == q * (p * k) == p * (q * k);
    assert p * (b - q * k) == p * b - p * (q * k);
  }

  lemma RemainderOf(p: nat, a: nat) returns (q: nat, r: nat)
    requires IsPrime(p) && 1 < a < p
    ensures p == q * a + r && 0 < r < a && r % p != 0
  {
    q, r := p / a, p % a;
    Division(p, a);
    SmallRemainder(r, p);
  }

  lemma SmallRemainder(r: nat, n: nat)
    requires r < n
    ensures r % n == r
  {
  }

  /** A prime that divides `a * b`, here `k` times, and not `a` divides `b`. */
  lemma {:induction false} PrimeDivides(p: nat, a: nat, b: nat, k: int) returns (j: int)
    requires IsPrime(p) && a * b == p * k && a % p != 0
    ensures b == p * j
    decreases a
  {
    if a == 1 {
      return k;
    }
    if a >= p {
      OneLess(a, p);
      LessTimes(p, a, b, k);
      j := PrimeDivides(p, a - p, b, k - b);
      return;
    }
    ZeroIsMultiple(a, p);
    var q, r := RemainderOf(p, a);
    RemainderTimes(p, a, b, k, q, r);
    j := PrimeDivides(p, r, b, b - q * k);
  }

  lemma ZeroIsMultiple(a: nat, p: nat)
    requires p > 0 && a % p != 0
    ensures a > 0
  {
  }
}
