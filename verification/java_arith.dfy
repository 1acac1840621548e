/**
 * Java's `int` division. Dafny's `/` is Euclidean; Java truncates the quotient
 * toward zero, which differs when the dividend is negative. Only positive
 * divisors occur in this model (a value set's step).
 */
module JavaArith {

  /** `a / b` as Java evaluates it, for a positive divisor. */
  function Quot(a: int, b: int): (q: int)
    requires b > 0
    ensures 0 <= a ==> q * b <= a < q * b + b
    ensures a < 0 ==> q * b - b < a <= q * b
  {
    if a >= 0 then a / b else -((-a) / b)
  }

  /** A positive factor times a positive multiplier is at least the multiplier. */
  lemma {:induction false} MulAtLeast(d: int, b: int)
    requires d >= 1 && b > 0
    ensures d * b >= b
    decreases d
  {
    if d > 1 {
      MulAtLeast(d - 1, b);
      assert d * b == (d - 1) * b + b;
    }
  }

  /** Multiplying by a positive number preserves strict order, in both directions. */
  lemma MulStrictMonotone(x: int, y: int, b: int)
    requires b > 0
    ensures x < y <==> x * b < y * b
  {
    if x < y {
      MulAtLeast(y - x, b);
      assert y * b - x * b == (y - x) * b;
    } else if x > y {
      MulAtLeast(x - y, b);
      assert x * b - y * b == (x - y) * b;
    }
  }

  /** On an exact multiple the quotient is the factor, whatever its sign. */
  lemma QuotOfMultiple(k: int, b: int)
    requires b > 0
    ensures Quot(k * b, b) == k
  {
    var q := Quot(k * b, b);
    if k * b >= 0 {
      // q * b <= k * b < (q + 1) * b
      MulStrictMonotone(k, q + 1, b);
      MulStrictMonotone(q - 1, k, b);
      assert (q + 1) * b == q * b + b;
      assert (q - 1) * b == q * b - b;
    } else {
      // (q - 1) * b < k * b <= q * b
      MulStrictMonotone(q - 1, k, b);
      MulStrictMonotone(k, q + 1, b);
      assert (q + 1) * b == q * b + b;
      assert (q - 1) * b == q * b - b;
    }
  }
}
