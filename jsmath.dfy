/** `Math.round` and `Math.min` on the integer quantities the pages and the
    analytics report compute. */
module JsMath {

  function Min(a: int, b: int): (m: int)
    ensures m <= a && m <= b && (m == a || m == b)
  {
    if a <= b then a else b
  }

  /** `Math.round(p / q)` for `p >= 0` and `q > 0`: the integer nearest to
      `p / q`, halves rounded up. */
  function RoundQuotient(p: nat, q: nat): (r: nat)
    requires q > 0
    ensures 2 * q * r <= 2 * p + q < 2 * q * (r + 1)
  {
    (2 * p + q) / (2 * q)
  }

  /** A larger numerator never rounds lower. */
  lemma RoundQuotientMonotone(p: nat, p': nat, q: nat)
    requires q > 0 && p <= p'
    ensures RoundQuotient(p, q) <= RoundQuotient(p', q)
  {
    var r, r' := RoundQuotient(p, q), RoundQuotient(p', q);
    if r > r' {
      assert 2 * q * (r' + 1) <= 2 * q * r by {
        assert r' + 1 <= r;
        MulMonotone(2 * q, r' + 1, r);
      }
    }
  }

  lemma MulMonotone(c: nat, a: nat, b: nat)
    requires a <= b
    ensures c * a <= c * b
  {
  }
}
