/** Machine words: powers of two, bitwise or and wrap-around. */
module Words {

  const TwoTo32 := 0x1_0000_0000
  const TwoTo64 := 0x1_0000_0000_0000_0000

  function Pow2(k: nat): (p: nat)
    ensures p > 0
  {
    if k == 0 then 1 else 2 * Pow2(k - 1)
  }

  /** Bitwise or. */
  function BitOr(x: nat, y: nat): nat {
    if x == 0 && y == 0 then 0 else 2 * BitOr(x / 2, y / 2) + if x % 2 == 1 || y % 2 == 1 then 1 else 0
  }

  /** A signed 64-bit result: wraps around. */
  function Int64(x: int): int {
    (x + TwoTo64 / 2) % TwoTo64 - TwoTo64 / 2
  }

  /** `x << 32` on unsigned 64-bit words: the bits shifted out are lost. */
  function ShiftLeft32(x: nat): nat {
    x * TwoTo32 % TwoTo64
  }

  lemma {:induction false} OrWithZero(x: nat)
    ensures BitOr(x, 0) == x
  {
    if x != 0 {
      OrWithZero(x / 2);
    }
  }

  lemma OrStep(high: nat, y: nat)
    ensures BitOr(2 * high, y) == 2 * BitOr(high, y / 2) + y % 2
  {
    assert 2 * high / 2 == high && 2 * high % 2 == 0;
  }

  /** Or-ing words that share no bits adds them. */
  lemma {:induction false} OrOfDisjointBits(x: nat, y: nat, k: nat)
    requires y < Pow2(k)
    ensures BitOr(x * Pow2(k), y) == x * Pow2(k) + y
    decreases k, x
  {
    if k == 0 {
      OrWithZero(x);
    } else {
      var high := x * Pow2(k - 1);
      assert x * Pow2(k) == 2 * high;
      OrOfDisjointBits(x, y / 2, k - 1);
      OrStep(high, y);
    }
  }

  /** Or-ing 1 makes a word odd and changes nothing else. */
  lemma OrWithOne(x: nat)
    ensures BitOr(x, 1) == if x % 2 == 0 then x + 1 else x
  {
    OrWithZero(x / 2);
  }

  lemma {:induction false} ThirtyTwoBits()
    ensures Pow2(32) == TwoTo32
  {
    assert Pow2(8) == 256;
    assert Pow2(16) == 65536;
    assert Pow2(24) == 16777216;
  }

  lemma {:induction false} Pow2Split(j: nat, k: nat)
    requires j >= k
    ensures Pow2(j) == Pow2(j - k) * Pow2(k) && Pow2(k) <= Pow2(j)
  {
    if j > k {
      Pow2Split(j - 1, k);
      Regroup(2, Pow2(j - 1 - k), Pow2(k));
    }
  }

  lemma SixtyFourBits()
    ensures Pow2(64) == TwoTo64
  {
    ThirtyTwoBits();
    Pow2Split(64, 32);
  }

  lemma Regroup(a: nat, b: nat, c: nat)
    ensures a * b * c == a * (b * c)
  {
  }

  lemma Monotone(a: nat, b: nat, c: nat)
    requires a <= b
    ensures a * c <= b * c
  {
  }

  lemma OneMore(a: nat, c: nat)
    ensures (a + 1) * c == a * c + c
  {
  }

  lemma StrictlyMonotone(a: nat, b: nat, c: nat)
    requires a < b && c > 0
    ensures a * c < b * c
  {
    Monotone(a + 1, b, c);
    OneMore(a, c);
  }

  lemma Divide(n: nat, p: nat)
    requires p > 0
    ensures n == n / p * p + n % p && n % p < p
  {
  }

  lemma QuotientIs(n: nat, d: nat, q: nat, r: nat)
    requires d > 0 && n == q * d + r && r < d
    ensures n / d == q && n % d == r
  {
    Divide(n, d);
    var x := n / d;
    OneMore(x, d);
    OneMore(q, d);
    if x < q {
      Monotone(x + 1, q, d);
    }
    if q < x {
      Monotone(q + 1, x, d);
    }
  }
}
