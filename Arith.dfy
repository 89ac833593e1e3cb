/**
 * Two facts about integer multiplication and division that Dafny's
 * arithmetic reasoning does not find by itself.
 */
module Arith {

  lemma MulMonotone(a: int, b: int, c: int)
    requires a >= b && c >= 0
    ensures a * c >= b * c
  {
  }

  /** Quotient and remainder are the only pair with `0 <= r < n`. */
  lemma DivModUnique(i: int, n: int, q: int, r: int)
    requires n > 0 && i == q * n + r && 0 <= r < n
    ensures i / n == q && i % n == r
  {
    var q' := i / n;
    var r' := i % n;
    assert i == q' * n + r';
    if q' > q {
      assert q' * n >= q * n + n by { MulMonotone(q', q + 1, n); }
    } else if q' < q {
      assert q * n >= q' * n + n by { MulMonotone(q, q' + 1, n); }
    }
  }
}
