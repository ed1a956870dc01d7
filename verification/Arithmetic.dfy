/** Minimum and maximum, and facts about products and quotients. */
module Arithmetic {

  function Min(a: nat, b: nat): nat {
    if a < b then a else b
  }

  function Max(a: nat, b: nat): nat {
    if a < b then b else a
  }

  lemma MulMonotone(a: int, b: int, c: nat)
    ensures a <= b ==> a * c <= b * c && c * a <= c * b
  {
    if a <= b {
      assert (b - a) * c >= 0;
      assert b * c == a * c + (b - a) * c;
    }
  }

  lemma DivisionBound(n: nat, d: nat)
    requires d > 0
    ensures n / d <= n
    ensures n / d * d <= n < n / d * d + d
  {
    assert n == n / d * d + n % d;
    MulMonotone(1, d, n / d);
  }

  lemma QuotientIs(n: nat, d: nat, q: nat, r: nat)
    requires r < d && n == q * d + r
    ensures n / d == q
  {
    DivisionBound(n, d);
    MulMonotone(n / d + 1, q, d);
    MulMonotone(q + 1, n / d, d);
    assert (n / d + 1) * d == n / d * d + d && (q + 1) * d == q * d + d;
  }

  lemma DivisionStep(n: nat, d: nat)
    requires 0 < d <= n
    ensures n / d == (n - d) / d + 1
  {
    var q, r := (n - d) / d, (n - d) % d;
    assert (q + 1) * d == q * d + d;
    QuotientIs(n, d, q + 1, r);
  }
}
