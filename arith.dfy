/** `Arith`: facts about Euclidean division that the solver does not find unaided. */
module Arith {
  lemma MultiplyMonotone(a: int, b: int, n: nat)
    requires a <= b
    ensures a * n <= b * n
  {
    assert b * n - a * n == (b - a) * n;
  }

  /** The only multiple of `n` strictly between `-n` and `n` is zero. */
  lemma SmallMultiple(k: int, n: nat)
    requires n > 0 && -(n as int) < k * n < n
    ensures k == 0
  {
    if k >= 1 {
      MultiplyMonotone(1, k, n);
      assert false;
    } else if k <= -1 {
      MultiplyMonotone(k, -1, n);
      assert false;
    }
  }

  /** The quotient is the one multiple of `n` that fits below `x` within `n`, and the remainder is what is left. */
  lemma DivisionUnique(x: int, n: nat, q: int)
    requires n > 0 && q * n <= x < q * n + n
    ensures x / n == q && x % n == x - q * n
  {
    var d, r := x / n, x % n;
    assert (d - q) * n == d * n - q * n;
    SmallMultiple(d - q, n);
  }
}
