/**
 * Integer helpers of the kernel: the rounding of `//` and the ceiling
 * division `cdiv_fn` used for every tile count.
 */
module TileMath {

  /**
   * How `//` rounds a negative quotient. Host-side Python floors; the
   * device's signed integer division truncates toward zero. The kernel's
   * tile plan is stated for both (see TilePlan.NBlocksRoundingAgnostic).
   */
  datatype Rounding = Floor | TowardZero

  /** Integer quotient `x // y` for a positive divisor under rounding `rnd`. */
  function Quot(x: int, y: int, rnd: Rounding): (q: int)
    requires y > 0
    ensures rnd == Floor || x >= 0 ==> q * y <= x < q * y + y
    ensures rnd == TowardZero && x < 0 ==> q * y - y < x <= q * y
  {
    if rnd == Floor || x >= 0 then x / y
    else
      var b := (-x) / y;
      assert b * y <= -x < b * y + y;
      assert (-b) * y == -(b * y);
      -b
  }

  /**
   * `cdiv_fn(x, y) = (x + y - 1) // y`. For a non-negative numerator it is
   * the ceiling of x / y; for any numerator it is positive exactly when x is.
   */
  function CDiv(x: int, y: int, rnd: Rounding): (r: int)
    requires y > 0
    ensures x >= 0 ==> x <= r * y < x + y && r >= 0
    ensures r <= 0 <==> x <= 0
  {
    var r := Quot(x + y - 1, y, rnd);
    if x <= 0 then
      assert r * y < y;
      ProductBelowDivisor(r, y);
      r
    else
      assert r * y > 0;
      PositiveProduct(r, y);
      r
  }

  /** The two roundings agree on `cdiv_fn` whenever the numerator is above `-y`. */
  lemma CDivRoundingAgree(x: int, y: int)
    requires y > 0 && x + y > 0
    ensures CDiv(x, y, Floor) == CDiv(x, y, TowardZero)
  {
  }

  lemma ProductBelowDivisor(r: int, y: int)
    requires y > 0 && r * y < y
    ensures r <= 0
  {
    if r >= 1 {
      MulLeq(1, r, y);
    }
  }

  lemma PositiveProduct(r: int, y: int)
    requires y > 0 && r * y > 0
    ensures r > 0
  {
    if r <= 0 {
      MulLeq(r, 0, y);
    }
  }

  /** Distributivity, stated once for callers with a large proof context. */
  lemma AddMul(a: int, b: int, n: int)
    ensures a * n + b * n == (a + b) * n
  {
  }

  /** Multiplication by a non-negative factor is monotone. */
  lemma MulLeq(a: int, b: int, n: int)
    requires a <= b && n >= 0
    ensures a * n <= b * n
  {
    assert b * n - a * n == (b - a) * n;
  }

  /** `q * n` rounds up to itself: `cdiv_fn` is exact on multiples. */
  lemma CDivOfMultiple(q: int, n: int, rnd: Rounding)
    requires n > 0 && q >= 0
    ensures CDiv(q * n, n, rnd) == q
  {
    var r := CDiv(q * n, n, rnd);
    MulLeq(0, q, n);
    if r < q {
      MulLeq(r + 1, q, n);
    } else if r > q {
      MulLeq(q + 1, r, n);
    }
  }

  /** A multiple of n is its quotient times n. */
  lemma DivExact(x: int, n: int)
    requires n > 0 && x % n == 0
    ensures x == (x / n) * n
  {
  }

  /** `a * n + b` with `0 <= b < n` determines a and b. */
  lemma MixedRadixInjective(a1: int, b1: int, a2: int, b2: int, n: int)
    requires 0 <= b1 < n && 0 <= b2 < n
    requires a1 * n + b1 == a2 * n + b2
    ensures a1 == a2 && b1 == b2
  {
    if a1 < a2 {
      MulLeq(a1 + 1, a2, n);
    } else if a2 < a1 {
      MulLeq(a2 + 1, a1, n);
    }
  }

  /** Two tiles of n consecutive integers that both contain r are the same tile. */
  lemma SameTile(a: int, b: int, n: int, r: int)
    requires n > 0 && a * n <= r < a * n + n && b * n <= r < b * n + n
    ensures a == b
  {
    if a < b {
      MulLeq(a + 1, b, n);
      AddMul(a, 1, n);
    } else if b < a {
      MulLeq(b + 1, a, n);
      AddMul(b, 1, n);
    }
  }

  /** Cancelling a positive factor in a strict inequality. */
  lemma MulCancelLt(a: int, b: int, n: int)
    requires n > 0 && a * n < b * n
    ensures a < b
  {
    if b <= a {
      MulLeq(b, a, n);
    }
  }
}
