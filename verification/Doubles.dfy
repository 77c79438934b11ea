/** Integers that pass through a 64-bit floating point number: 53 significant bits. */
module Doubles {
  import opened Words

  const SignificandLimit := 0x20_0000_0000_0000

  /** A double holds `n` exactly. */
  ghost predicate Representable(n: nat) {
    exists m: nat, k: nat :: IsScaled(n, m, k)
  }

  predicate IsScaled(n: nat, m: nat, k: nat) {
    m < SignificandLimit && n == m * Pow2(k)
  }

  /** How many low bits of `n` a double has no room for. */
  function LowBits(n: nat): nat {
    if n < SignificandLimit then 0 else 1 + LowBits(n / 2)
  }

  /** The significand, rounded to nearest with ties to even. */
  function Significand(n: nat, k: nat): nat {
    var q, r := n / Pow2(k), n % Pow2(k);
    if 2 * r > Pow2(k) || (2 * r == Pow2(k) && q % 2 == 1) then q + 1 else q
  }

  /** `float64(n)`, as an integer. */
  function Rounded(n: nat): nat {
    Significand(n, LowBits(n)) * Pow2(LowBits(n))
  }

  lemma DivideTwice(n: nat, p: nat)
    requires p > 0
    ensures n / 2 / p == n / (2 * p)
  {
    Divide(n / 2, p);
    Divide(n, 2);
    var q := n / 2 / p;
    var r := n / 2 % p * 2 + n % 2;
    assert n == q * (2 * p) + r && 0 <= r < 2 * p;
    QuotientIs(n, 2 * p, q, r);
  }

  /** The shifted number has at most 53 bits, and exactly 53 when bits are cut off. */
  lemma {:induction false} LowBitsFit(n: nat)
    ensures n / Pow2(LowBits(n)) < SignificandLimit
    ensures LowBits(n) > 0 ==> SignificandLimit <= 2 * (n / Pow2(LowBits(n)))
  {
    if n >= SignificandLimit {
      LowBitsFit(n / 2);
      DivideTwice(n, Pow2(LowBits(n / 2)));
    }
  }

  lemma FewBitsAreSmall(m: nat, a: nat, p: nat)
    requires m < SignificandLimit && 2 * a <= p && p > 0
    ensures 2 * (m * a) < SignificandLimit * p
  {
    assert 2 * (m * a) == 2 * a * m by { Regroup(2, a, m); }
    Monotone(2 * a, p, m);
    StrictlyMonotone(m, SignificandLimit, p);
  }

  /** Above the precision limit doubles are multiples of the unit in the last place. */
  lemma LargeIsMultiple(v: nat, k: nat) returns (t: nat)
    requires Representable(v) && SignificandLimit * Pow2(k) <= 2 * v
    ensures v == t * Pow2(k)
  {
    var m: nat, j: nat :| IsScaled(v, m, j);
    t := 0;
    if j >= k {
      Pow2Split(j, k);
      t := m * Pow2(j - k);
      Regroup(m, Pow2(j - k), Pow2(k));
    } else {
      Pow2Split(k - 1, j);
      FewBitsAreSmall(m, Pow2(j), Pow2(k));
    }
  }

  lemma ScaledIsRepresentable(m: nat, k: nat)
    requires m <= SignificandLimit
    ensures Representable(m * Pow2(k))
  {
    if m < SignificandLimit {
      assert IsScaled(m * Pow2(k), m, k);
    } else {
      Regroup(SignificandLimit / 2, 2, Pow2(k));
      assert IsScaled(m * Pow2(k), SignificandLimit / 2, k + 1);
    }
  }

  /** Conversion gives a number that a double holds. */
  lemma RoundedIsRepresentable(n: nat)
    ensures Representable(Rounded(n))
  {
    LowBitsFit(n);
    ScaledIsRepresentable(Significand(n, LowBits(n)), LowBits(n));
  }

  lemma NothingBetween(n: nat, v: nat)
    requires Representable(v)
    ensures
      var p := Pow2(LowBits(n));
      v <= n / p * p || (n / p + 1) * p <= v
  {
    var k := LowBits(n);
    var p, q := Pow2(k), n / Pow2(k);
    LowBitsFit(n);
    if q * p < v < (q + 1) * p && k > 0 {
      Monotone(SignificandLimit, 2 * q, p);
      Regroup(2, q, p);
      var t := LargeIsMultiple(v, k);
      if t <= q {
        Monotone(t, q, p);
      } else {
        Monotone(q + 1, t, p);
      }
    }
  }

  function Distance(a: nat, b: nat): nat {
    if a < b then b - a else a - b
  }

  /** The conversion rounds to nearest: no double is closer. */
  lemma RoundedIsNearest(n: nat, v: nat)
    requires Representable(v)
    ensures Distance(Rounded(n), n) <= Distance(v, n)
  {
    var p := Pow2(LowBits(n));
    var q, r := n / p, n % p;
    Divide(n, p);
    NothingBetween(n, v);
    assert (q + 1) * p == q * p + p;
    assert Rounded(n) == q * p || Rounded(n) == (q + 1) * p;
  }

  /** An integer survives the conversion exactly when a double holds it. */
  lemma RoundedIsSameIff(n: nat)
    ensures Rounded(n) == n <==> Representable(n)
  {
    if Representable(n) {
      RoundedIsNearest(n, n);
    } else {
      RoundedIsRepresentable(n);
    }
  }

  /** Nothing below a double rounds to anything above it. */
  lemma RoundedIsMonotone(n: nat, limit: nat)
    requires n <= limit && Representable(limit)
    ensures Rounded(n) <= limit
  {
    NothingBetween(n, limit);
    var p := Pow2(LowBits(n));
    var q := n / p;
    Divide(n, p);
    OneMore(q, p);
    if limit <= q * p {
      assert n == limit;
      RoundedIsSameIff(n);
    }
  }

  lemma RoundingTwiceIsOnce(n: nat)
    ensures Rounded(Rounded(n)) == Rounded(n)
  {
    RoundedIsRepresentable(n);
    RoundedIsSameIff(Rounded(n));
  }

  /** That is so for every integer up to 2^53, and 2^53 + 1 is the first that is lost. */
  lemma SmallIntegersSurvive(n: nat)
    requires n <= SignificandLimit + 1
    ensures Rounded(n) == n <==> n <= SignificandLimit
  {
    if n <= SignificandLimit {
      ScaledIsRepresentable(n, 0);
      assert Pow2(0) == 1 && n * Pow2(0) == n;
      RoundedIsSameIff(n);
    } else {
      assert LowBits(n / 2) == 0 && LowBits(n) == 1;
      assert Pow2(1) == 2;
    }
  }

  /** Halfway between two neighbours the one with the even significand is taken. */
  lemma TiesGoToEven(n: nat) returns (m: nat)
    requires LowBits(n) > 0 && 2 * (n % Pow2(LowBits(n))) == Pow2(LowBits(n))
    ensures Rounded(n) == m * Pow2(LowBits(n)) && m % 2 == 0
  {
    m := Significand(n, LowBits(n));
  }
}
