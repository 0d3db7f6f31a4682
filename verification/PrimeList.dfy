/**
  The trial-division loop of smptest17: cpu1 records the primes below a limit in an array that
  it also takes its divisors from.
 */
module PrimeList {
  import opened Arithmetic
  import opened PrimeTheory

  /** The primes below n, in ascending order. */
  ghost function PrimesBelow(n: nat): seq<nat> {
    if n == 0 then [] else PrimesBelow(n - 1) + (if IsPrime(n - 1) then [n - 1] else [])
  }

  lemma {:induction false} PrimesBelowAre(n: nat)
    ensures var ps := PrimesBelow(n);
            && (forall p :: p in ps <==> 0 <= p < n && IsPrime(p))
            && (forall j, k :: 0 <= j < k < |ps| ==> ps[j] < ps[k])
  {
    hide IsPrime;
    if n > 0 {
      PrimesBelowAre(n - 1);
      var qs, ps := PrimesBelow(n - 1), PrimesBelow(n);
      forall j, k | 0 <= j < k < |ps|
        ensures ps[j] < ps[k]
      {
        assert qs[j] in qs;
      }
    }
  }

  /** Nothing is recorded for an even number above two. */
  lemma EvenSkipped(n: nat)
    requires n >= 4 && n % 2 == 0
    ensures PrimesBelow(n + 1) == PrimesBelow(n)
  {
    assert Divides(2, n);
    assert !IsPrime(n);
  }

  lemma FirstPrimes()
    ensures PrimesBelow(3) == [2]
  {
    Two();
    assert PrimesBelow(2) == [];
  }

  /** None of the first j recorded primes decides the test of i. */
  ghost predicate Undecided(i: nat, ps: seq<nat>, j: nat) {
    j <= |ps| && forall k {:trigger ps[k]} :: 0 <= k < j ==> Square(ps[k]) <= i && !Divides(ps[k], i)
  }

  lemma SmallFactor(i: nat) returns (p: nat)
    requires i >= 2 && !IsPrime(i)
    ensures IsPrime(p) && Divides(p, i) && p < i && Square(p) <= i
  {
    p := PrimeFactor(i);
  }

  lemma SquareLe(s: nat, t: nat)
    requires s <= t
    ensures Square(s) <= Square(t)
  {
    MulLe(s, t, s);
    MulLe(s, t, t);
  }

  lemma PlaceOf(i: nat, ps: seq<nat>, p: nat) returns (k: nat)
    requires ps == PrimesBelow(i) && p < i && IsPrime(p)
    ensures k < |ps| && ps[k] == p
  {
    hide IsPrime;
    PrimesBelowAre(i);
    k :| 0 <= k < |ps| && ps[k] == p;
  }

  lemma Ascending(i: nat, ps: seq<nat>, j: nat, k: nat)
    requires ps == PrimesBelow(i) && j <= k < |ps|
    ensures ps[j] <= ps[k]
  {
    hide IsPrime;
    PrimesBelowAre(i);
  }

  /** An undecided number is divisible by no prime whose square is at most the number. */
  lemma PrimeIfUndecided(i: nat, ps: seq<nat>, j: nat)
    requires i >= 3 && ps == PrimesBelow(i) && Undecided(i, ps, j) && (j < |ps| ==> Square(ps[j]) > i)
    ensures IsPrime(i)
  {
    hide IsPrime, Divides, Square, PrimesBelow;
    if !IsPrime(i) {
      var p := SmallFactor(i);
      var k := PlaceOf(i, ps, p);
      if j <= k {
        Ascending(i, ps, j, k);
        SquareLe(ps[j], p);
      }
    }
  }

  lemma SquareNotPrime(s: nat, i: nat)
    requires i >= 3 && Square(s) == i
    ensures !IsPrime(i)
  {
    assert s == 0 ==> s * s == 0;
    assert s == 1 ==> s * s == 1;
    DividesIs(s, i, s);
    MulLess(1, s, s);
  }

  /** The scan never runs past the recorded primes: one of them decides. */
  lemma ScanStaysInside(i: nat, ps: seq<nat>, j: nat)
    requires i >= 3 && ps == PrimesBelow(i) && Undecided(i, ps, j)
    ensures j < |ps|
  {
    if j == |ps| {
      PrimeIfUndecided(i, ps, j);
      if IsSquare(i) {
        var s: nat :| Square(s) == i;
        SquareNotPrime(s, i);
      } else {
        var q := PrimeAboveRoot(i);
        var k := PlaceOf(i, ps, q);
      }
    }
  }

  /** What the array holds at the end: for limits below three the first entry is written all the same. */
  ghost function Recorded(limit: int): seq<nat> { if limit < 3 then [2] else PrimesBelow(limit) }

  lemma {:induction false} FewerBelow(m: nat, n: nat)
    requires m <= n
    ensures |PrimesBelow(m)| <= |PrimesBelow(n)|
    decreases n
  {
    hide IsPrime;
    if m < n {
      FewerBelow(m, n - 1);
    }
  }

  /** One candidate: it is recorded exactly when it is prime, and only recorded entries are read. */
  method Test(a: array<nat>, count: nat, i: nat) returns (count': nat)
    requires i >= 3 && count <= a.Length && a[..count] == PrimesBelow(i) && |PrimesBelow(i + 1)| <= a.Length
    modifies a
    ensures count' <= a.Length && a[..count'] == PrimesBelow(i + 1)
  {
    hide IsPrime;
    ghost var ps := PrimesBelow(i);
    PrimesBelowAre(i);
    count' := count;
    var quit, j := false, 0;
    while !quit
      invariant 0 <= j && (!quit ==> j <= count && Undecided(i, ps, j) && count' == count && a[..count] == ps)
      invariant quit ==> count' <= a.Length && a[..count'] == PrimesBelow(i + 1)
      decreases if quit then 0 else 1, count - j
    {
      ScanStaysInside(i, ps, j);
      assert a[j] == ps[j] && ps[j] in ps;
      AtLeastTwo(ps[j]);
      if a[j] * a[j] > i {
        PrimeIfUndecided(i, ps, j);
        assert PrimesBelow(i + 1) == ps + [i];
        a[count'] := i;
        count' := count' + 1;
        assert a[..count'] == ps + [i];
        quit := true;
      } else if i % a[j] == 0 {
        NotPrime(ps[j], i);
        quit := true;
      }
      j := j + 1;
    }
  }

  lemma AtLeastTwo(p: nat)
    requires IsPrime(p)
    ensures p >= 2
  {
  }

  lemma NotPrime(p: nat, i: nat)
    requires 2 <= p < i && i % p == 0
    ensures !IsPrime(i)
  {
    assert Divides(p, i);
  }

  /**
    The whole program, for every limit: the array holds exactly the primes below the limit, in
    ascending order, if it has room for them.
   */
  method ListPrimes(a: array<nat>, limit: int) returns (count: nat)
    requires |Recorded(limit)| <= a.Length
    modifies a
    ensures count == |Recorded(limit)| && a[..count] == Recorded(limit)
  {
    hide IsPrime, PrimesBelow;
    FirstPrimes();
    if limit >= 3 { FewerBelow(3, limit); }
    a[0] := 2;
    count := 1;
    var i: nat := 3;
    assert a[..1] == [2];
    while i < limit
      invariant i % 2 == 1 && i >= 3 && count <= a.Length
      invariant a[..count] == if i <= limit then PrimesBelow(i) else Recorded(limit)
      decreases limit - i
    {
      FewerBelow(i + 1, limit);
      count := Test(a, count, i);
      EvenSkipped(i + 1);
      i := i + 2;
    }
  }
}
