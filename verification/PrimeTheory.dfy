/**
  Primes, and the fact the prime list needs: a number from three on that is not a square has a
  prime below it whose square is above it.  The proof counts: were there none, the least common
  multiple of 1..N would be a product of fewer than sqrt(N) factors, each at most N, while it is
  at least 2^(N-1), by the Leibniz triangle.
 */
module PrimeTheory {
  import opened Arithmetic

  predicate Divides(d: nat, n: nat) { d > 0 && n % d == 0 }

  predicate IsPrime(n: nat) { n >= 2 && forall d {:trigger Divides(d, n)} :: 2 <= d < n ==> !Divides(d, n) }

  // ----- divisibility -----

  lemma DividesIs(d: nat, n: nat, q: nat)
    requires d > 0 && n == q * d
    ensures Divides(d, n)
  {
    assert n == n / d * d + n % d;
    DivUnique(q, 0, n / d, n % d, d);
  }

  /** The quotient of an exact division. */
  function Quotient(d: nat, n: nat): (q: nat)
    requires Divides(d, n)
    ensures n == q * d
  {
    n / d
  }

  lemma DividesMul(d: nat, n: nat, m: nat)
    requires Divides(d, n)
    ensures Divides(d, n * m) && Divides(d, m * n)
  {
    var q := Quotient(d, n);
    assert n * m == (q * m) * d && m * n == n * m;
    DividesIs(d, n * m, q * m);
  }

  lemma DividesTrans(a: nat, b: nat, c: nat)
    requires Divides(a, b) && Divides(b, c)
    ensures Divides(a, c)
  {
    DividesMul(a, b, Quotient(b, c));
  }

  lemma DividesBoth(p: nat, a: nat, b: nat)
    requires Divides(a, b) && p > 0
    ensures Divides(p * a, p * b)
  {
    var q := Quotient(a, b);
    assert p * b == q * (p * a);
    MulPositive(p, a);
    DividesIs(p * a, p * b, q);
  }

  lemma MulPositive(a: nat, b: nat)
    requires a > 0 && b > 0
    ensures a * b > 0
  {
  }

  lemma DividesLe(d: nat, n: nat)
    requires Divides(d, n) && n > 0
    ensures d <= n
  {
    var q := Quotient(d, n);
    assert q == 0 ==> q * d == 0;
    MulLe(1, q, d);
  }

  /** Every number from two on has a prime factor, and a composite one has it below its root. */
  lemma PrimeFactor(n: nat) returns (p: nat)
    requires n >= 2
    ensures IsPrime(p) && Divides(p, n) && p <= n && (!IsPrime(n) ==> p < n && p * p <= n)
  {
    p := 2;
    while !Divides(p, n)
      invariant 2 <= p <= n && forall d {:trigger Divides(d, n)} :: 2 <= d < p ==> !Divides(d, n)
      decreases n - p
    {
      if p == n {
        SelfDivides(n);
      }
      p := p + 1;
    }
    forall d | 2 <= d < p
      ensures !Divides(d, p)
    {
      if Divides(d, p) {
        DividesTrans(d, p, n);
      }
    }
    assert IsPrime(p);
    if !IsPrime(n) {
      var q := Quotient(p, n);
      assert p != n;
      Cofactor(p, n, q);
    }
  }

  lemma SelfDivides(n: nat)
    requires n > 0
    ensures Divides(n, n)
  {
    DividesIs(n, n, 1);
  }

  lemma Cofactor(p: nat, n: nat, q: nat)
    requires 2 <= p < n && n == q * p && forall d {:trigger Divides(d, n)} :: 2 <= d < p ==> !Divides(d, n)
    ensures p * p <= n
  {
    if q < 2 {
      MulLe(q, 1, p);
    }
    assert n == p * q;
    DividesIs(q, n, p);
    MulLe(p, q, p);
  }

  // ----- the Leibniz triangle -----

  function C(n: nat, k: nat): nat { if k == 0 then 1 else if n == 0 then 0 else C(n - 1, k - 1) + C(n - 1, k) }

  lemma {:induction false} Beyond(n: nat, k: nat)
    requires k > n
    ensures C(n, k) == 0
  {
    if n > 0 {
      Beyond(n - 1, k - 1);
      Beyond(n - 1, k);
    }
  }

  lemma {:induction false} Inside(n: nat, k: nat)
    requires k <= n
    ensures C(n, k) > 0
  {
    if k > 0 {
      Inside(n - 1, k - 1);
    }
  }

  lemma Pascal(n: nat, k: nat)
    requires n > 0 && k > 0
    ensures C(n, k) == C(n - 1, k - 1) + C(n - 1, k)
  {
  }

  /** (k+1) C(n,k+1) = n C(n-1,k) = (n-k) C(n,k) */
  lemma {:induction false} AbsorbUpper(n: nat, k: nat)
    requires k < n
    ensures (k + 1) * C(n, k + 1) == n * C(n - 1, k)
    decreases n, 0
  {
    Pascal(n, k + 1);
    hide C;
    if k == n - 1 {
      Beyond(n - 1, k + 1);
    } else {
      AbsorbUpper(n - 1, k);
      AbsorbLower(n - 1, k);
      UpperStep(n, k, C(n - 1, k), C(n - 1, k + 1));
    }
  }

  lemma UpperStep(n: nat, k: nat, a: nat, b: nat)
    requires k < n && (k + 1) * b == (n - 1 - k) * a
    ensures (k + 1) * (a + b) == n * a
  {
    assert (k + 1) * (a + b) == (k + 1) * a + (k + 1) * b;
    assert (k + 1) * a + (n - 1 - k) * a == n * a;
  }

  lemma {:induction false} AbsorbLower(n: nat, k: nat)
    requires k < n
    ensures (n - k) * C(n, k) == n * C(n - 1, k)
    decreases n, 1
  {
    if k == 0 {
      assert C(n, 0) == 1 && C(n - 1, 0) == 1;
    } else {
      Pascal(n, k);
      hide C;
      AbsorbUpper(n - 1, k - 1);
      AbsorbLower(n - 1, k - 1);
      LowerStep(n, k, C(n - 1, k - 1), C(n - 1, k));
    }
  }

  lemma LowerStep(n: nat, k: nat, a: nat, b: nat)
    requires k < n && k * b == (n - k) * a
    ensures (n - k) * (a + b) == n * b
  {
    assert (n - k) * (a + b) == (n - k) * a + (n - k) * b;
    assert k * b + (n - k) * b == n * b;
  }

  /** An entry of the triangle, scaled by d: differences of the row above, from d/(m+1) on. */
  function Leibniz(d: nat, m: nat, k: nat): int
    requires k <= m
    decreases k, m
  {
    if k == 0 then d / (m + 1) else Leibniz(d, m - 1, k - 1) - Leibniz(d, m, k - 1)
  }

  ghost predicate Multiple(d: nat, n: nat) { forall j {:trigger Divides(j, d)} :: 1 <= j <= n ==> Divides(j, d) }

  /** The entries are integers that divide d with (m+1) C(m,k) as the quotient. */
  lemma {:induction false} LeibnizIs(d: nat, m: nat, k: nat)
    requires k <= m && Multiple(d, m + 1)
    ensures Leibniz(d, m, k) * ((m + 1) * C(m, k)) == d
    decreases k, m
  {
    if k == 0 {
      assert Divides(m + 1, d);
      assert C(m, 0) == 1;
      var q := Quotient(m + 1, d);
      assert (m + 1) * 1 == m + 1;
    } else {
      LeibnizIs(d, m - 1, k - 1);
      LeibnizIs(d, m, k - 1);
      AbsorbUpper(m, k - 1);
      AbsorbLower(m, k - 1);
      Inside(m, k - 1);
      LeibnizStep(d, m, k, Leibniz(d, m - 1, k - 1), Leibniz(d, m, k - 1), C(m - 1, k - 1), C(m, k - 1), C(m, k));
    }
  }

  /** d = x m a = y (m+1) c, with (m-k+1) c = m a = k e. */
  lemma LeibnizStep(d: nat, m: nat, k: nat, x: int, y: int, a: nat, c: nat, e: nat)
    requires 0 < k <= m && c > 0
    requires x * (m * a) == d && y * ((m + 1) * c) == d && (m - (k - 1)) * c == m * a && k * e == m * a
    ensures (x - y) * ((m + 1) * e) == d
  {
    var w := m - (k - 1);
    ShareFactor(d, x, w, y, m + 1, c);
    assert (x - y) * (m + 1) == x * (m + 1) - x * w;
    Factored(x, m + 1, w);
    assert (x - y) * (m + 1) == x * k;
    MulAssoc(x - y, m + 1, e);
    MulAssoc(x, k, e);
  }

  lemma MulAssoc(a: int, b: int, c: int)
    ensures a * b * c == a * (b * c)
  {
  }

  lemma Factored(x: int, v: int, w: int)
    ensures x * v - x * w == x * (v - w)
  {
  }

  lemma ShareFactor(d: int, x: int, w: int, y: int, v: int, c: nat)
    requires c > 0 && x * (w * c) == d && y * (v * c) == d
    ensures x * w == y * v
  {
    MulAssoc(x, w, c);
    MulAssoc(y, v, c);
    Cancel(x * w, y * v, c);
  }

  lemma Cancel(a: int, b: int, c: nat)
    requires c > 0 && a * c == b * c
    ensures a == b
  {
    if a > b {
      CancelLess(b, a, c);
    } else if a < b {
      CancelLess(a, b, c);
    }
  }

  lemma CancelLess(a: int, b: int, c: nat)
    requires c > 0 && a < b
    ensures a * c < b * c
  {
    assert b * c - a * c == (b - a) * c;
    MulLe(1, b - a, c);
  }

  // ----- a common multiple of 1..m+1 is at least 2^m -----

  function Pow(b: nat, e: nat): nat { if e == 0 then 1 else b * Pow(b, e - 1) }

  /** C(n,0) + ... + C(n,k) */
  function RowSum(n: nat, k: nat): nat { if k == 0 then C(n, 0) else RowSum(n, k - 1) + C(n, k) }

  lemma {:induction false} RowSplits(n: nat, k: nat)
    requires n > 0 && k > 0
    ensures RowSum(n, k) == RowSum(n - 1, k) + RowSum(n - 1, k - 1)
    decreases k
  {
    Pascal(n, k);
    if k == 1 {
      assert RowSum(n, 0) == 1 && RowSum(n - 1, 0) == 1 && C(n - 1, 0) == 1;
    } else {
      RowSplits(n, k - 1);
    }
  }

  lemma {:induction false} RowIsPower(n: nat)
    ensures RowSum(n, n) == Pow(2, n)
  {
    if n > 0 {
      RowSplits(n, n);
      Beyond(n - 1, n);
      RowIsPower(n - 1);
    }
  }

  lemma Positive(x: int, y: nat)
    requires x * y > 0
    ensures x > 0
  {
  }

  lemma EntryBound(d: nat, m: nat, k: nat)
    requires k <= m && Multiple(d, m + 1) && d > 0
    ensures (m + 1) * C(m, k) <= d
  {
    LeibnizIs(d, m, k);
    var x, y := Leibniz(d, m, k), (m + 1) * C(m, k);
    hide Leibniz, C;
    assert x * y == d;
    Positive(x, y);
    MulLe(1, x, y);
  }

  lemma {:induction false} RowBound(d: nat, m: nat, k: nat)
    requires k <= m && Multiple(d, m + 1) && d > 0
    ensures (m + 1) * RowSum(m, k) <= (k + 1) * d
    decreases k
  {
    EntryBound(d, m, k);
    hide C, Multiple;
    if k > 0 {
      RowBound(d, m, k - 1);
      assert (m + 1) * (RowSum(m, k - 1) + C(m, k)) == (m + 1) * RowSum(m, k - 1) + (m + 1) * C(m, k);
      assert k * d + d == (k + 1) * d;
    }
  }

  lemma MultipleIsLarge(d: nat, m: nat)
    requires Multiple(d, m + 1) && d > 0
    ensures Pow(2, m) <= d
  {
    hide Multiple, RowSum;
    RowBound(d, m, m);
    RowIsPower(m);
    if d < Pow(2, m) {
      CancelLess(d, Pow(2, m), m + 1);
    }
  }

  // ----- a small common multiple, if all primes are small -----

  /** The largest power of p that is at most n. */
  function MaxPow(p: nat, n: nat): (r: nat)
    requires p >= 2
    ensures r >= 1 && (n >= 1 ==> r <= n)
    decreases n
  {
    if n < p then 1 else Shrinks(n, p); Grown(p, MaxPow(p, n / p), n); p * MaxPow(p, n / p)
  }

  lemma Shrinks(n: nat, p: nat)
    requires n >= p >= 2
    ensures 1 <= n / p < n
  {
    assert n == p * (n / p) + n % p;
    var q := n / p;
    assert q == 0 ==> p * q == 0;
    MulLe(2, p, q);
  }

  lemma Grown(p: nat, r: nat, n: nat)
    requires p >= 2 && r >= 1 && r <= n / p
    ensures 1 <= p * r <= n
  {
    assert n == p * (n / p) + n % p;
    MulLe(r, n / p, p);
    MulPositive(p, r);
  }

  /** The product of those powers for the primes up to k. */
  function Product(k: nat, n: nat): (d: nat)
    ensures d >= 1
  {
    if k < 2 then 1
    else if IsPrime(k) then MulPositive(MaxPow(k, n), Product(k - 1, n)); MaxPow(k, n) * Product(k - 1, n)
    else Product(k - 1, n)
  }

  ghost predicate Smooth(m: nat, k: nat) {
    forall p: nat {:trigger Divides(p, m)} :: IsPrime(p) && Divides(p, m) ==> p <= k
  }

  /** Every m up to n whose prime factors are at most k divides the product. */
  lemma {:induction false} SmoothDivides(k: nat, n: nat, m: nat)
    requires 1 <= m <= n && Smooth(m, k)
    ensures Divides(m, Product(k, n))
    decreases k, m, 1
  {
    if k < 2 {
      if m >= 2 {
        var p := PrimeFactor(m);
      }
      assert m == 1;
    } else if IsPrime(k) {
      SmoothPower(k, n, n, m);
    } else {
      assert Smooth(m, k - 1);
      SmoothDivides(k - 1, n, m);
    }
  }

  lemma {:induction false} SmoothPower(k: nat, n: nat, n': nat, m: nat)
    requires IsPrime(k) && 1 <= m <= n' <= n && Smooth(m, k)
    ensures Divides(m, MaxPow(k, n') * Product(k - 1, n))
    decreases k, m, 0
  {
    if Divides(k, m) {
      var q := Quotient(k, m);
      PartOf(k, q, m, n');
      Shrinks(n', k);
      assert Smooth(q, k) by { SmoothPart(q, m, k); }
      SmoothPower(k, n, n' / k, q);
      var a, b := MaxPow(k, n' / k), Product(k - 1, n);
      DividesBoth(k, q, a * b);
      MulAssoc(k, a, b);
      assert k * q == m;
    } else {
      assert Smooth(m, k - 1) by { SmoothLess(m, k); }
      SmoothDivides(k - 1, n, m);
      DividesMul(m, Product(k - 1, n), MaxPow(k, n'));
    }
  }

  lemma PartOf(k: nat, q: nat, m: nat, n: nat)
    requires k >= 2 && m == q * k && 1 <= m <= n
    ensures 1 <= q < m && q <= n / k && k <= n
  {
    assert q == 0 ==> q * k == 0;
    MulLe(2, k, q);
    MulLe(1, q, k);
    assert n == k * (n / k) + n % k;
    assert (n / k + 1) * k == k * (n / k) + k;
    if q > n / k {
      MulLe(n / k + 1, q, k);
    }
  }

  lemma SmoothPart(q: nat, m: nat, k: nat)
    requires Divides(k, m) && m == q * k && q >= 1 && Smooth(m, k)
    ensures Smooth(q, k)
  {
    forall p: nat | IsPrime(p) && Divides(p, q)
      ensures p <= k
    {
      DividesMul(p, q, k);
    }
  }

  lemma SmoothLess(m: nat, k: nat)
    requires Smooth(m, k) && !Divides(k, m) && k >= 1
    ensures Smooth(m, k - 1)
  {
  }

  lemma {:induction false} ProductBound(k: nat, n: nat)
    requires n >= 1 && k >= 1
    ensures Product(k, n) <= Pow(n, k - 1)
  {
    if k >= 2 {
      ProductBound(k - 1, n);
      var x, y := Product(k - 1, n), Pow(n, k - 2);
      assert Pow(n, k - 1) == n * y;
      MulLe(x, y, n);
      MulLe(1, n, x);
      if IsPrime(k) {
        MulLe(MaxPow(k, n), n, x);
      }
    }
  }

  // ----- a prime above the root -----

  lemma {:induction false} PowLess(a: nat, b: nat, e: nat)
    requires a < b
    ensures Pow(a, e) <= Pow(b, e) && (e > 0 ==> Pow(a, e) < Pow(b, e))
  {
    if e > 0 {
      PowLess(a, b, e - 1);
      var x, y := Pow(a, e - 1), Pow(b, e - 1);
      PowPositive(b, e - 1);
      MulLe(x, y, a);
      MulLess(a, b, y);
    }
  }

  lemma {:induction false} PowPositive(b: nat, e: nat)
    requires b > 0
    ensures Pow(b, e) > 0
  {
    if e > 0 {
      PowPositive(b, e - 1);
      MulPositive(b, Pow(b, e - 1));
    }
  }

  lemma {:induction false} PowAdd(b: nat, d: nat, e: nat)
    ensures Pow(b, d + e) == Pow(b, d) * Pow(b, e)
  {
    if d > 0 {
      PowAdd(b, d - 1, e);
      MulAssoc(b, Pow(b, d - 1), Pow(b, e));
    }
  }

  lemma {:induction false} PowPow(b: nat, d: nat, e: nat)
    ensures Pow(Pow(b, d), e) == Pow(b, d * e)
  {
    if e == 0 {
      assert d * e == 0;
    } else {
      PowPow(b, d, e - 1);
      assert d * e == d + d * (e - 1);
      PowAdd(b, d, d * (e - 1));
    }
  }

  lemma {:induction false} PowMonotone(d: nat, e: nat)
    requires d <= e
    ensures Pow(2, d) <= Pow(2, e)
    decreases e
  {
    if d < e {
      PowMonotone(d, e - 1);
    }
  }

  /** s^2 <= 2^s from four on. */
  lemma {:induction false} SquareBelowPower(s: nat)
    requires s >= 4
    ensures s * s <= Pow(2, s)
  {
    if s == 4 {
      assert Pow(2, 2) == 4;
      PowAdd(2, 2, 2);
    } else {
      SquareBelowPower(s - 1);
      var t := s - 1;
      assert s * s == t * t + 2 * t + 1;
      MulLe(4, t, t);
      assert t * t >= 2 * t + 1;
    }
  }

  /** Primes no larger than r cannot make up all numbers to n, if r is the root of n. */
  lemma PrimeBetween(n: nat, r: nat)
    requires r >= 3 && r * r <= n < (r + 1) * (r + 1)
    ensures exists p: nat {:trigger IsPrime(p)} :: IsPrime(p) && r < p <= n
  {
    if !exists p: nat {:trigger IsPrime(p)} :: IsPrime(p) && r < p <= n {
      var d := Product(r, n);
      forall j | 1 <= j <= n
        ensures Divides(j, d)
      {
        SmallSmooth(j, n, r);
        SmoothDivides(r, n, j);
      }
      assert Multiple(d, n);
      assert n >= 1;
      hide Multiple, Product, Pow, IsPrime, Divides;
      assert (r + 1) * (r - 1) == r * r - 1;
      MultipleIsLarge(d, n - 1);
      ProductBound(r, n);
      SquareBelowPower(r + 1);
      PowPow(2, r + 1, r - 1);
      PowMonotone(r * r - 1, n - 1);
      PowLess(n, Pow(2, r + 1), r - 1);
    }
  }

  lemma SmallSmooth(j: nat, n: nat, r: nat)
    requires 1 <= j <= n && forall p: nat {:trigger IsPrime(p)} :: IsPrime(p) && p <= n ==> p <= r
    ensures Smooth(j, r)
  {
    hide IsPrime;
    forall p: nat | IsPrime(p) && Divides(p, j)
      ensures p <= r
    {
      DividesLe(p, j);
    }
  }

  lemma Root(n: nat) returns (r: nat)
    ensures r * r <= n < (r + 1) * (r + 1)
  {
    r := 0;
    while (r + 1) * (r + 1) <= n
      invariant r * r <= n
      decreases n - r * r
    {
      assert (r + 1) * (r + 1) == r * r + 2 * r + 1;
      r := r + 1;
    }
  }

  lemma Two()
    ensures IsPrime(2) && IsPrime(3)
  {
    assert !Divides(2, 3);
  }

  ghost predicate IsSquare(n: nat) { exists s: nat {:trigger Square(s)} :: Square(s) == n }
  function Square(s: nat): nat { s * s }

  /** A number from three on that is not a square has a prime below it whose square is above it. */
  lemma PrimeAboveRoot(i: nat) returns (q: nat)
    requires i >= 3 && !IsSquare(i)
    ensures IsPrime(q) && q < i < q * q
  {
    Two();
    if i < 9 {
      assert Square(2) == 4;
      q := if i == 3 then 2 else 3;
    } else {
      assert Square(3) == 9;
      var n := i - 1;
      var r := Root(n);
      AtLeastThree(n, r);
      PrimeBetween(n, r);
      q :| IsPrime(q) && r < q <= n;
      AboveRoot(i, r, q);
    }
  }

  lemma AtLeastThree(n: nat, r: nat)
    requires 9 <= n < (r + 1) * (r + 1)
    ensures r >= 3
  {
    if r < 3 {
      MulLe(r + 1, 3, r + 1);
    }
  }

  lemma AboveRoot(i: nat, r: nat, p: nat)
    requires i >= 1 && !IsSquare(i) && i - 1 < (r + 1) * (r + 1) && r < p
    ensures i < p * p
  {
    MulLe(r + 1, p, r + 1);
    MulLe(r + 1, p, p);
    assert Square(p) == p * p;
  }
}
