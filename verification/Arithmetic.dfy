/**
  Powers of two, and the few facts about products and remainders that several modules need.
 */
module Arithmetic {

  /** 2 to the power k. */
  function Pow2(k: nat): (p: nat)
    ensures p >= 1
  {
    if k == 0 then 1 else 2 * Pow2(k - 1)
  }

  lemma MulLe(a: nat, b: nat, c: nat)
    requires a <= b
    ensures a * c <= b * c && c * a <= c * b
  {
  }

  lemma MulLess(a: nat, b: nat, d: nat)
    requires a < b && d > 0
    ensures a * d < b * d
  {
    MulLe(a + 1, b, d);
    assert (a + 1) * d == a * d + d;
  }

  /** Quotient and remainder are unique. */
  lemma DivUnique(q: nat, r: nat, q': nat, r': nat, d: nat)
    requires q * d + r == q' * d + r' && r < d && r' < d
    ensures q == q' && r == r'
  {
    assert (q' + 1) * d == q' * d + d && (q + 1) * d == q * d + d;
    if q > q' {
      MulLe(q' + 1, q, d);
    } else if q < q' {
      MulLe(q + 1, q', d);
    }
  }

  /** Multiples of the modulus do not count. */
  lemma DropMultiple(x: nat, q: nat, m: nat)
    requires m > 0
    ensures (x + q * m) % m == x % m
  {
    var a := x + q * m;
    assert x == x / m * m + x % m && a == a / m * m + a % m;
    assert (x / m + q) * m == x / m * m + q * m;
    DivUnique(x / m + q, x % m, a / m, a % m, m);
  }
}
