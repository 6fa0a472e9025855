/** Integer arithmetic that the source performs through `Math` and 32-bit `int`. */
module IntMath {
  const MinInt32: int := -0x8000_0000
  const MaxInt32: int := 0x7FFF_FFFF

  predicate IsInt32(x: int) { MinInt32 <= x <= MaxInt32 }

  /** `Math.Min` on two integers. */
  function Min(a: int, b: int): (r: int)
    ensures r <= a && r <= b
    ensures r == a || r == b
  {
    if a <= b then a else b
  }

  /** `(int)Math.Ceiling((double)n / d)` for a positive divisor: the least integer
      that is not below the exact quotient, for negative `n` too. */
  function CeilDiv(n: int, d: int): (r: int)
    requires d > 0
    ensures (r - 1) * d < n <= r * d
  {
    var q := (-n) / d;
    assert q * d <= -n < q * d + d;
    -q
  }

  /** The ceiling is the only integer with the bracketing property above. */
  lemma CeilDivUnique(n: int, d: int, k: int)
    requires d > 0 && (k - 1) * d < n <= k * d
    ensures k == CeilDiv(n, d)
  {
    var r := CeilDiv(n, d);
    if k < r {
      assert k * d <= (r - 1) * d by { MulMonotone(k, r - 1, d); }
    } else if k > r {
      assert r * d <= (k - 1) * d by { MulMonotone(r, k - 1, d); }
    }
  }

  lemma MulMonotone(a: int, b: int, d: int)
    requires a <= b && d > 0
    ensures a * d <= b * d
  {
    assert b * d - a * d == (b - a) * d;
  }
}
