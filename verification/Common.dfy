/** Small value types and arithmetic shared by the models. */
module Common {
  datatype Option<+T> = None | Some(value: T)

  function Max(a: int, b: int): int {
    if a < b then b else a
  }

  function Min(a: int, b: int): int {
    if a < b then a else b
  }

  /** Multiplication by a non-negative factor is monotone. */
  lemma MulMonotone(a: int, b: int, c: int)
    requires a <= b && 0 <= c
    ensures a * c <= b * c
  {
    assert 0 <= (b - a) * c;
  }

  /** The quotient is determined by its bounds. */
  lemma QuotientIs(n: nat, d: nat, q: nat)
    requires 1 <= d && q * d <= n < (q + 1) * d
    ensures n / d == q
  {
    var q1 := n / d;
    assert n == d * q1 + n % d;
    if q1 < q {
      MulMonotone(q1 + 1, q, d);
    } else if q < q1 {
      MulMonotone(q + 1, q1, d);
    }
  }

  lemma QuotientBounds(n: nat, d: nat)
    requires 1 <= d
    ensures (n / d) * d <= n < (n / d + 1) * d
  {
    assert n == d * (n / d) + n % d;
  }
}
