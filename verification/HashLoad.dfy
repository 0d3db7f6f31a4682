/**
  When the bucket array of sim/uthash.h doubles, and what that keeps: as long as expansion is not given
  up there are fewer than twenty items a bucket.
 */
module HashLoad {
  import opened Addresses
  import opened Arithmetic

  /** The fields of UT_hash_table that decide when to expand. */
  datatype Stats = Stats(idealChainMaxlen: nat, nonidealItems: nat, ineffExpands: nat, noexpand: bool)

  datatype Bucket = Bucket(hhHead: Ptr, count: nat, expandMult: nat)

  function Counts(b: seq<Bucket>): nat { if b == [] then 0 else b[0].count + Counts(b[1..]) }
  function Mults(b: seq<Bucket>): nat { if b == [] then 0 else b[0].expandMult + Mults(b[1..]) }

  /** The items beyond the first `ideal` of their bucket. */
  function Over(b: seq<Bucket>, ideal: nat): nat {
    if b == [] then 0 else (if b[0].count > ideal then b[0].count - ideal else 0) + Over(b[1..], ideal)
  }

  lemma {:induction false} SumsUpdate(b: seq<Bucket>, i: nat, x: Bucket, ideal: nat)
    requires i < |b|
    ensures Counts(b[i := x]) == Counts(b) - b[i].count + x.count
    ensures Over(b[i := x], ideal) == Over(b, ideal) - (if b[i].count > ideal then b[i].count - ideal else 0) +
                                      if x.count > ideal then x.count - ideal else 0
    decreases i
  {
    var c := b[i := x];
    if i == 0 {
      assert c[1..] == b[1..];
    } else {
      assert c[1..] == b[1..][i - 1 := x];
      SumsUpdate(b[1..], i - 1, x, ideal);
    }
  }

  lemma {:induction false} SumsEmpty(n: nat, ideal: nat)
    ensures Counts(seq(n, _ => Bucket(NULL, 0, 0))) == 0 && Mults(seq(n, _ => Bucket(NULL, 0, 0))) == 0
    ensures Over(seq(n, _ => Bucket(NULL, 0, 0)), ideal) == 0
    decreases n
  {
    if n > 0 {
      SumsEmpty(n - 1, ideal);
      assert seq(n, _ => Bucket(NULL, 0, 0))[1..] == seq(n - 1, _ => Bucket(NULL, 0, 0));
    }
  }

  // ----- what an expansion records -----

  /** The multiplier of every bucket, and the items in excess of the ideal chain length. */
  ghost predicate Rated(b: seq<Bucket>, ideal: nat, nonideal: nat) {
    && ideal > 0 && nonideal == Over(b, ideal)
    && forall i {:trigger b[i]} :: 0 <= i < |b| ==>
         b[i].expandMult == if b[i].count > ideal then b[i].count / ideal else 0
  }

  lemma RatedNone(n: nat, ideal: nat)
    requires ideal > 0
    ensures Rated(seq(n, _ => Bucket(NULL, 0, 0)), ideal, 0)
  {
    SumsEmpty(n, ideal);
  }

  /** One more item in bucket i. */
  lemma RatedStep(b: seq<Bucket>, i: nat, h: Ptr, ideal: nat, nonideal: nat)
    requires Rated(b, ideal, nonideal) && i < |b|
    ensures var count := b[i].count + 1;
            var x := Bucket(h, count, if count > ideal then count / ideal else b[i].expandMult);
            Rated(b[i := x], ideal, if count > ideal then nonideal + 1 else nonideal)
  {
    var count := b[i].count + 1;
    var x := Bucket(h, count, if count > ideal then count / ideal else b[i].expandMult);
    SumsUpdate(b, i, x, ideal);
    hide Over;
  }

  /** The ideal chain length is the number of items a bucket, rounded up. */
  ghost predicate Ideal(n: nat, buckets: nat, ideal: nat) {
    ideal > 0 && (ideal - 1) * buckets < n <= ideal * buckets
  }

  lemma Ceiling(n: nat, buckets: nat)
    requires n > 0 && buckets > 0
    ensures Ideal(n, buckets, n / buckets + if n % buckets != 0 then 1 else 0)
  {
    var q, r := n / buckets, n % buckets;
    assert n == q * buckets + r;
    assert (q + 1) * buckets == q * buckets + buckets;
    assert (q - 1) * buckets == q * buckets - buckets;
  }

  lemma IdealPositive(n: nat, buckets: nat, ideal: nat)
    requires Ideal(n, buckets, ideal)
    ensures ideal > 0
  {
  }

  // ----- the load -----

  /** No bucket is fuller than its threshold, and the thresholds are bounded together. */
  ghost predicate Balanced(b: seq<Bucket>, s: Stats) {
    s.noexpand || (Within(b) && Mults(b) <= |b|)
  }

  ghost predicate Within(b: seq<Bucket>) {
    forall i {:trigger b[i]} :: 0 <= i < |b| ==>
      b[i].count < 10 * (b[i].expandMult + 1) || (b[i].count == 10 && b[i].expandMult == 0)
  }

  lemma BalancedNew(n: nat, s: Stats)
    ensures Balanced(seq(n, _ => Bucket(NULL, 0, 0)), s)
  {
    SumsEmpty(n, 1);
  }

  /** An item in a bucket that stays below its threshold. */
  lemma BalancedStep(b: seq<Bucket>, s: Stats, i: nat, x: Bucket)
    requires Balanced(b, s) && i < |b| && x.expandMult == b[i].expandMult
    requires x.count < 10 * (x.expandMult + 1)
    ensures Balanced(b[i := x], s)
  {
    MultsUpdate(b, i, x);
    hide Mults;
  }

  lemma {:induction false} MultsUpdate(b: seq<Bucket>, i: nat, x: Bucket)
    requires i < |b|
    ensures Mults(b[i := x]) == Mults(b) - b[i].expandMult + x.expandMult
    decreases i
  {
    var c := b[i := x];
    if i == 0 {
      assert c[1..] == b[1..];
    } else {
      assert c[1..] == b[1..][i - 1 := x];
      MultsUpdate(b[1..], i - 1, x);
    }
  }

  /** The full buckets: ten items and no multiplier. */
  function Full(b: seq<Bucket>): nat {
    if b == [] then 0 else (if b[0].count == 10 && b[0].expandMult == 0 then 1 else 0) + Full(b[1..])
  }

  lemma {:induction false} LoadSums(b: seq<Bucket>)
    requires Within(b)
    ensures Counts(b) <= 10 * Mults(b) + 9 * |b| + Full(b)
    ensures Full(b) <= |b| && (Full(b) == |b| ==> Mults(b) == 0)
    decreases |b|
  {
    if b != [] {
      assert b[0].count < 10 * (b[0].expandMult + 1) || (b[0].count == 10 && b[0].expandMult == 0);
      assert forall i :: 0 <= i < |b[1..]| ==> b[1..][i] == b[i + 1];
      LoadSums(b[1..]);
    }
  }

  /** Fewer than twenty items a bucket, as long as expansion is not given up. */
  lemma LoadBound(b: seq<Bucket>, s: Stats)
    requires Balanced(b, s) && !s.noexpand && b != []
    ensures Counts(b) < 20 * |b|
  {
    LoadSums(b);
  }

  /** Each multiplier stands for that many ideal chains. */
  lemma {:induction false} MultsAtMost(b: seq<Bucket>, ideal: nat)
    requires ideal > 0
    requires forall i {:trigger b[i]} :: 0 <= i < |b| ==> b[i].expandMult * ideal <= b[i].count
    ensures Mults(b) * ideal <= Counts(b)
    decreases |b|
  {
    if b != [] {
      assert forall i :: 0 <= i < |b[1..]| ==> b[1..][i] == b[i + 1];
      MultsAtMost(b[1..], ideal);
      assert (b[0].expandMult + Mults(b[1..])) * ideal == b[0].expandMult * ideal + Mults(b[1..]) * ideal;
    }
  }

  lemma RatedBucket(c: nat, m: nat, ideal: nat)
    requires 0 < ideal <= 10 && m == if c > ideal then c / ideal else 0
    ensures m * ideal <= c && (c < 10 * (m + 1) || (c == 10 && m == 0))
  {
    if c > ideal {
      assert c == m * ideal + c % ideal;
      assert (m + 1) * ideal == m * ideal + ideal;
      MulLe(ideal, 10, m + 1);
    }
  }

  /** A rated table with at most ten items a bucket is balanced. */
  lemma BalancedExpanded(b: seq<Bucket>, s: Stats, nonideal: nat)
    requires Rated(b, s.idealChainMaxlen, nonideal) && Counts(b) <= 10 * |b| && b != []
    requires Ideal(Counts(b), |b|, s.idealChainMaxlen)
    ensures Balanced(b, s)
  {
    var ideal := s.idealChainMaxlen;
    if ideal > 10 { MulLe(10, ideal - 1, |b|); }
    hide Over, Counts, Mults;
    forall i {:trigger b[i]} | 0 <= i < |b|
      ensures b[i].expandMult * ideal <= b[i].count
      ensures b[i].count < 10 * (b[i].expandMult + 1) || (b[i].count == 10 && b[i].expandMult == 0)
    {
      RatedBucket(b[i].count, b[i].expandMult, ideal);
    }
    MultsAtMost(b, ideal);
    MultsFit(Mults(b), |b|, ideal, Counts(b));
  }

  lemma MultsFit(m: nat, n: nat, ideal: nat, c: nat)
    requires m * ideal <= c <= ideal * n && ideal > 0
    ensures m <= n
  {
    if m > n { MulLess(n, m, ideal); }
  }
}
