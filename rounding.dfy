/** Integer models of the `Math.round` and `Math.ceil` calls the pages make on quotients. */
module Rounding {

  /** `Math.round(n / d)` for a non-negative numerator and a positive divisor:
      the integer nearest to n/d, a half rounded up. */
  function RoundDiv(n: nat, d: nat): (r: nat)
    requires d > 0
    ensures 2 * r * d <= 2 * n + d < 2 * r * d + 2 * d
  {
    var q := (2 * n + d) / (2 * d);
    assert 2 * n + d == q * (2 * d) + (2 * n + d) % (2 * d);
    q
  }

  /** `Math.ceil(n / d)` for a non-negative numerator and a positive divisor. */
  function CeilDiv(n: nat, d: nat): (r: nat)
    requires d > 0
    ensures r * d >= n
    ensures r > 0 ==> (r - 1) * d < n
  {
    var q := (n + d - 1) / d;
    assert n + d - 1 == q * d + (n + d - 1) % d;
    q
  }

  /** Multiplying by a non-negative factor keeps an inequality. */
  lemma MulMonotone(a: int, b: int, c: int)
    ensures a <= b && c >= 0 ==> a * c <= b * c
  {
    if a <= b && c >= 0 {
      assert b * c - a * c == (b - a) * c;
    }
  }

  /** The ensures of RoundDiv pins its result down: no other integer is that close to n/d. */
  lemma {:induction false} RoundDivUnique(n: nat, d: nat, r: nat)
    requires d > 0
    requires 2 * r * d <= 2 * n + d < 2 * r * d + 2 * d
    ensures r == RoundDiv(n, d)
  {
    var q := RoundDiv(n, d);
    MulMonotone(r + 1, q, 2 * d);
    MulMonotone(q + 1, r, 2 * d);
  }

  /** Rounding an exact multiple gives back the factor. */
  lemma {:induction false} RoundDivExact(k: nat, d: nat)
    requires d > 0
    ensures RoundDiv(k * d, d) == k
  {
    RoundDivUnique(k * d, d, k);
  }

  /** A quotient below one half rounds to zero. */
  lemma {:induction false} RoundDivBelowHalf(n: nat, d: nat)
    requires d > 0 && 2 * n < d
    ensures RoundDiv(n, d) == 0
  {
    RoundDivUnique(n, d, 0);
  }

  /** A numerator at most m times the divisor rounds to at most m. */
  lemma {:induction false} RoundDivAtMost(n: nat, d: nat, m: nat)
    requires d > 0 && n <= m * d
    ensures RoundDiv(n, d) <= m
  {
    MulMonotone(m + 1, RoundDiv(n, d), 2 * d);
  }

  /** A numerator at least m times the divisor rounds to at least m. */
  lemma {:induction false} RoundDivAtLeast(n: nat, d: nat, m: nat)
    requires d > 0 && n >= m * d
    ensures RoundDiv(n, d) >= m
  {
    MulMonotone(RoundDiv(n, d) + 1, m, 2 * d);
  }
}
