/**
  What the two-CPU merge sort of smptest13 computes, as functions on sequences:
  one merge, one pass of merges over neighbouring blocks, and a number of passes
  with doubling block size.  The lemmas show that the passes sort.
 */
module MergeSpec {
  import opened Arithmetic

  ghost predicate Sorted(s: seq<int>) {
    forall i, j :: 0 <= i < j < |s| ==> s[i] <= s[j]
  }

  /** Merges two runs.  An element comes from `a` exactly when it is the smaller one. */
  function Merge(a: seq<int>, b: seq<int>): (m: seq<int>)
    ensures |m| == |a| + |b|
  {
    if a == [] then b
    else if b == [] then a
    else if a[0] < b[0] then [a[0]] + Merge(a[1..], b)
    else [b[0]] + Merge(a, b[1..])
  }

  /** Merges each pair of neighbouring blocks of length `h`. */
  function Pass(s: seq<int>, h: nat): (p: seq<int>)
    requires h > 0
    ensures |p| == |s|
  {
    if |s| < 2 * h then s
    else Merge(s[..h], s[h..2 * h]) + Pass(s[2 * h..], h)
  }

  /** The first `k` passes, with block lengths 1, 2, 4, ... */
  function Passes(s: seq<int>, k: nat): (p: seq<int>)
    ensures |p| == |s|
  {
    if k == 0 then s else Pass(Passes(s, k - 1), Pow2(k - 1))
  }

  /** `s` consists of `n` sorted blocks of length `h`. */
  ghost predicate SortedBlocks(s: seq<int>, h: nat, n: nat) {
    if n == 0 then s == []
    else |s| >= h && Sorted(s[..h]) && SortedBlocks(s[h..], h, n - 1)
  }

  lemma {:induction false} MergeMultiset(a: seq<int>, b: seq<int>)
    ensures multiset(Merge(a, b)) == multiset(a) + multiset(b)
    decreases |a| + |b|
  {
    if a != [] && b != [] {
      var h, m := if a[0] < b[0] then a[0] else b[0], Merge(a, b);
      if a[0] < b[0] {
        MergeMultiset(a[1..], b);
        HeadCounts(a);
      } else {
        MergeMultiset(a, b[1..]);
        HeadCounts(b);
      }
      HeadCounts(m);
      assert m[0] == h && m[1..] == if a[0] < b[0] then Merge(a[1..], b) else Merge(a, b[1..]);
    }
  }

  lemma HeadCounts(s: seq<int>)
    requires s != []
    ensures multiset(s) == multiset{s[0]} + multiset(s[1..])
  {
    assert s == [s[0]] + s[1..];
  }

  lemma {:induction false} MergeSorted(a: seq<int>, b: seq<int>)
    requires Sorted(a) && Sorted(b)
    ensures Sorted(Merge(a, b))
    decreases |a| + |b|
  {
    if a == [] || b == [] {
    } else if a[0] < b[0] {
      MergeSorted(a[1..], b);
      MergeLowerBound(a[1..], b, a[0]);
    } else {
      MergeSorted(a, b[1..]);
      MergeLowerBound(a, b[1..], b[0]);
    }
  }

  lemma {:induction false} MergeLowerBound(a: seq<int>, b: seq<int>, low: int)
    requires forall i :: 0 <= i < |a| ==> low <= a[i]
    requires forall i :: 0 <= i < |b| ==> low <= b[i]
    ensures forall i :: 0 <= i < |Merge(a, b)| ==> low <= Merge(a, b)[i]
    decreases |a| + |b|
  {
    if a == [] || b == [] {
    } else if a[0] < b[0] {
      MergeLowerBound(a[1..], b, low);
    } else {
      MergeLowerBound(a, b[1..], low);
    }
  }

  lemma {:induction false} PassMultiset(s: seq<int>, h: nat)
    requires h > 0
    ensures multiset(Pass(s, h)) == multiset(s)
    decreases |s|
  {
    if |s| >= 2 * h {
      MergeMultiset(s[..h], s[h..2 * h]);
      PassMultiset(s[2 * h..], h);
      assert s == s[..h] + s[h..2 * h] + s[2 * h..];
    }
  }

  lemma {:induction false} PassSortsBlocks(s: seq<int>, h: nat, n: nat)
    requires h > 0 && SortedBlocks(s, h, 2 * n)
    ensures SortedBlocks(Pass(s, h), 2 * h, n)
    decreases n
  {
    if n > 0 {
      var t := s[h..];
      assert SortedBlocks(t, h, 2 * n - 1);
      assert t[..h] == s[h..2 * h] && t[h..] == s[2 * h..];
      MergeSorted(s[..h], s[h..2 * h]);
      PassSortsBlocks(s[2 * h..], h, n - 1);
      var m := Merge(s[..h], s[h..2 * h]);
      assert Pass(s, h)[..2 * h] == m;
      assert Pass(s, h)[2 * h..] == Pass(s[2 * h..], h);
    }
  }

  lemma {:induction false} Singletons(s: seq<int>)
    ensures SortedBlocks(s, 1, |s|)
    decreases |s|
  {
    if s != [] {
      Singletons(s[1..]);
    }
  }

  lemma {:induction false} PassesSortBlocks(s: seq<int>, log: nat, k: nat)
    requires |s| == Pow2(log) && k <= log
    ensures SortedBlocks(Passes(s, k), Pow2(k), Pow2(log - k))
    ensures multiset(Passes(s, k)) == multiset(s)
    decreases k
  {
    if k == 0 {
      Singletons(s);
    } else {
      PassesSortBlocks(s, log, k - 1);
      assert Pow2(log - (k - 1)) == 2 * Pow2(log - k);
      PassSortsBlocks(Passes(s, k - 1), Pow2(k - 1), Pow2(log - k));
      PassMultiset(Passes(s, k - 1), Pow2(k - 1));
    }
  }

  /** After `log` passes a sequence of 2^log elements is a sorted permutation of itself. */
  lemma {:induction false} PassesSort(s: seq<int>, log: nat)
    requires |s| == Pow2(log)
    ensures Sorted(Passes(s, log))
    ensures multiset(Passes(s, log)) == multiset(s)
  {
    PassesSortBlocks(s, log, log);
    var p := Passes(s, log);
    assert SortedBlocks(p, |p|, 1);
    assert p[..|p|] == p;
  }

  /** The whole sort: each half by passes, then one merge of the halves. */
  function SortHalves(s: seq<int>, log: nat): (r: seq<int>)
    requires |s| == 2 * Pow2(log)
    ensures |r| == |s|
  {
    Merge(Passes(s[..Pow2(log)], log), Passes(s[Pow2(log)..], log))
  }

  lemma SortHalvesSorts(s: seq<int>, log: nat)
    requires |s| == 2 * Pow2(log)
    ensures Sorted(SortHalves(s, log))
    ensures multiset(SortHalves(s, log)) == multiset(s)
  {
    var h := Pow2(log);
    PassesSort(s[..h], log);
    PassesSort(s[h..], log);
    MergeSorted(Passes(s[..h], log), Passes(s[h..], log));
    MergeMultiset(Passes(s[..h], log), Passes(s[h..], log));
    assert s == s[..h] + s[h..];
  }

  lemma HeadIsLeast(s: seq<int>, x: int)
    requires Sorted(s) && x in multiset(s)
    ensures s != [] && s[0] <= x
  {
    var i :| 0 <= i < |s| && s[i] == x;
  }

  lemma RemoveHead(s: seq<int>)
    requires s != []
    ensures multiset(s[1..]) == multiset(s) - multiset{s[0]}
  {
    assert s == [s[0]] + s[1..];
  }

  lemma SameHead(s: seq<int>, t: seq<int>)
    requires Sorted(s) && Sorted(t) && multiset(s) == multiset(t) && s != []
    ensures t != [] && s[0] == t[0]
  {
    assert s[0] in multiset(s);
    HeadIsLeast(t, s[0]);
    assert t[0] in multiset(t);
    HeadIsLeast(s, t[0]);
  }

  lemma TailSorted(s: seq<int>)
    requires Sorted(s) && s != []
    ensures Sorted(s[1..])
  {
  }

  /** Two sorted sequences with the same elements are the same sequence. */
  lemma {:induction false} SortedUnique(s: seq<int>, t: seq<int>)
    requires Sorted(s) && Sorted(t) && multiset(s) == multiset(t)
    ensures s == t
    decreases |s|
  {
    if s == [] {
      assert |multiset(t)| == 0;
    } else {
      SameHead(s, t);
      var s', t' := s[1..], t[1..];
      assert multiset(s') == multiset(t') by {
        RemoveHead(s);
        RemoveHead(t);
      }
      TailSorted(s);
      TailSorted(t);
      SortedUnique(s', t');
      assert s == [s[0]] + s';
      assert t == [t[0]] + t';
    }
  }
}
