/**
  The hash table of sim/uthash.h as vpibridge.c uses it: items are found by key, appended in
  application order, and the bucket array doubles.  An item is an address; the fields of its
  hash handle are maps from addresses, so a store through a pointer is a map update.
 */
module HashTable {
  import opened Addresses
  import opened Arithmetic
  import opened HashLoad

  type Links = map<Ptr, Ptr>

  const INITIAL_BUCKETS: nat := 32       // HASH_INITIAL_NUM_BUCKETS
  const INITIAL_LOG2: nat := 5           // HASH_INITIAL_NUM_BUCKETS_LOG2

  // ----- doubly linked, null-terminated lists -----

  ghost function First(c: seq<Ptr>): Ptr { if c == [] then NULL else c[0] }

  /** `c` is what the links `next` list, starting at `head`. */
  ghost predicate Forward(next: Links, head: Ptr, c: seq<Ptr>) {
    && head == First(c)
    && forall i {:trigger next[c[i]]} {:trigger c[i] in next} :: 0 <= i < |c| ==>
         c[i] in next && next[c[i]] == if i + 1 < |c| then c[i + 1] else NULL
  }

  ghost predicate Backward(prev: Links, c: seq<Ptr>) {
    forall i {:trigger prev[c[i]]} {:trigger c[i] in prev} :: 0 <= i < |c| ==>
      c[i] in prev && prev[c[i]] == if i > 0 then c[i - 1] else NULL
  }

  ghost predicate List(next: Links, prev: Links, head: Ptr, c: seq<Ptr>) {
    Distinct(c) && Forward(next, head, c) && Backward(prev, c)
  }

  /** The back links after x has been linked in before the list c. */
  ghost function PrevAfterPush(prev: Links, x: Ptr, c: seq<Ptr>): Links {
    if c == [] then prev[x := NULL] else prev[x := NULL][c[0] := x]
  }

  lemma PushList(next: Links, prev: Links, x: Ptr, c: seq<Ptr>)
    requires List(next, prev, First(c), c) && x != NULL && x !in c
    ensures List(next[x := First(c)], PrevAfterPush(prev, x, c), x, [x] + c)
  {
    var d := [x] + c;
    forall i | 0 <= i < |d|
      ensures d[i] in next[x := First(c)] && next[x := First(c)][d[i]] == if i + 1 < |d| then d[i + 1] else NULL
    {
      if i > 0 {
        assert d[i] == c[i - 1];
      }
    }
    forall i | 0 <= i < |d|
      ensures d[i] in PrevAfterPush(prev, x, c) && PrevAfterPush(prev, x, c)[d[i]] == if i > 0 then d[i - 1] else NULL
    {
      if i > 0 {
        assert d[i] == c[i - 1];
      }
    }
  }

  lemma PushKeepsOther(next: Links, prev: Links, x: Ptr, c: seq<Ptr>, head: Ptr, d: seq<Ptr>)
    requires List(next, prev, head, d) && x !in d && (c != [] ==> c[0] !in d)
    ensures List(next[x := First(c)], PrevAfterPush(prev, x, c), head, d)
  {
  }

  // ----- the bucket chains -----

  /** Every bucket heads its chain and counts it. */
  ghost predicate Chained(next: Links, prev: Links, b: seq<Bucket>, cs: seq<seq<Ptr>>) {
    && |b| == |cs|
    && forall i {:trigger cs[i]} :: 0 <= i < |cs| ==> List(next, prev, b[i].hhHead, cs[i]) && b[i].count == |cs[i]|
  }

  /** The chains hold exactly the items `all`, each in the bucket its hash selects. */
  ghost predicate Placed(hash: map<Ptr, nat>, all: set<Ptr>, cs: seq<seq<Ptr>>) {
    && |cs| > 0
    && (forall i, x {:trigger x in cs[i]} :: 0 <= i < |cs| && x in cs[i] ==>
        x in all && x in hash && hash[x] % |cs| == i)
    && (forall x {:trigger x in all} :: x in all ==> x in hash && x in cs[hash[x] % |cs|])
  }

  ghost function Total(cs: seq<seq<Ptr>>): nat {
    if cs == [] then 0 else |cs[0]| + Total(cs[1..])
  }

  lemma {:induction false} TotalGrows(cs: seq<seq<Ptr>>, i: nat, x: Ptr)
    requires i < |cs|
    ensures Total(cs[i := [x] + cs[i]]) == Total(cs) + 1
    decreases i
  {
    var ds := cs[i := [x] + cs[i]];
    if i == 0 {
      assert ds[1..] == cs[1..];
    } else {
      assert ds[1..] == cs[1..][i - 1 := [x] + cs[i]];
      TotalGrows(cs[1..], i - 1, x);
    }
  }

  lemma {:induction false} TotalEmpty(cs: seq<seq<Ptr>>)
    requires forall i :: 0 <= i < |cs| ==> cs[i] == []
    ensures Total(cs) == 0
    decreases |cs|
  {
    if cs != [] {
      TotalEmpty(cs[1..]);
    }
  }

  /** Linking x in at the head of its bucket. */
  lemma PushChained(next: Links, prev: Links, hash: map<Ptr, nat>, b: seq<Bucket>, cs: seq<seq<Ptr>>, all: set<Ptr>,
                    x: Ptr)
    requires Chained(next, prev, b, cs) && Placed(hash, all, cs)
    requires x in hash && x !in all && x != NULL
    ensures var i := hash[x] % |cs|;
            var b' := b[i := b[i].(hhHead := x, count := b[i].count + 1)];
            Chained(next[x := b[i].hhHead], PrevAfterPush(prev, x, cs[i]), b', cs[i := [x] + cs[i]])
  {
    var i := hash[x] % |cs|;
    var ds := cs[i := [x] + cs[i]];
    var b' := b[i := b[i].(hhHead := x, count := b[i].count + 1)];
    assert b[i].hhHead == First(cs[i]) by { assert List(next, prev, b[i].hhHead, cs[i]); }
    forall j | 0 <= j < |ds|
      ensures List(next[x := b[i].hhHead], PrevAfterPush(prev, x, cs[i]), b'[j].hhHead, ds[j]) && b'[j].count == |ds[j]|
    {
      assert List(next, prev, b[j].hhHead, cs[j]) && b[j].count == |cs[j]|;
      if j == i {
        assert x !in cs[i];
        PushList(next, prev, x, cs[i]);
      } else {
        assert x !in cs[j];
        assert cs[i] != [] ==> cs[i][0] in cs[i];
        assert cs[i] != [] ==> cs[i][0] !in cs[j];
        PushKeepsOther(next, prev, x, cs[i], b[j].hhHead, cs[j]);
      }
    }
  }

  lemma PushPlaced(hash: map<Ptr, nat>, cs: seq<seq<Ptr>>, all: set<Ptr>, x: Ptr)
    requires Placed(hash, all, cs) && x in hash && x !in all
    ensures Placed(hash, all + {x}, cs[hash[x] % |cs| := [x] + cs[hash[x] % |cs|]])
  {
    var k := hash[x] % |cs|;
    var ds := cs[k := [x] + cs[k]];
    assert forall y :: y in ds[k] <==> y == x || y in cs[k];
    forall i, y | 0 <= i < |ds| && y in ds[i]
      ensures y in all + {x} && y in hash && hash[y] % |ds| == i
    {
      assert i != k ==> y in cs[i];
    }
    forall y | y in all + {x}
      ensures y in hash && y in ds[hash[y] % |ds|]
    {
      assert y != x ==> y in cs[hash[y] % |cs|];
    }
  }

  ghost function Elements(c: seq<Ptr>): set<Ptr> { set x | x in c }

  lemma {:induction false} DistinctSize(c: seq<Ptr>)
    requires Distinct(c)
    ensures |Elements(c)| == |c|
    decreases |c|
  {
    if c != [] {
      var d := c[..|c| - 1];
      DistinctSize(d);
      assert Elements(c) == Elements(d) + {c[|c| - 1]};
    }
  }

  /** Appending x behind the last element of a list. */
  lemma AppendList(next: Links, prev: Links, head: Ptr, c: seq<Ptr>, x: Ptr)
    requires List(next, prev, head, c) && c != [] && x != NULL && x !in c
    ensures List(next[x := NULL][c[|c| - 1] := x], prev[x := c[|c| - 1]], head, c + [x])
  {
    var d, next', prev' := c + [x], next[x := NULL][c[|c| - 1] := x], prev[x := c[|c| - 1]];
    forall i | 0 <= i < |d|
      ensures d[i] in next' && next'[d[i]] == if i + 1 < |d| then d[i + 1] else NULL
      ensures d[i] in prev' && prev'[d[i]] == if i > 0 then d[i - 1] else NULL
    {
      assert i < |c| ==> d[i] == c[i];
    }
  }

  /** All chains of a new table are empty. */
  lemma EmptyChains(next: Links, prev: Links, hash: map<Ptr, nat>, n: nat)
    requires n > 0
    ensures Chained(next, prev, seq(n, _ => Bucket(NULL, 0, 0)), seq(n, _ => []))
    ensures Placed(hash, {}, seq(n, _ => []))
    ensures Total(seq(n, _ => [])) == 0
  {
    TotalEmpty(seq(n, _ => []));
  }

  lemma HeadOf(next: Links, prev: Links, hash: map<Ptr, nat>, b: seq<Bucket>, cs: seq<seq<Ptr>>, all: set<Ptr>, i: nat)
    requires Chained(next, prev, b, cs) && Placed(hash, all, cs) && i < |cs|
    ensures b[i].hhHead == First(cs[i]) && (b[i].hhHead == NULL <==> cs[i] == [])
  {
    assert List(next, prev, b[i].hhHead, cs[i]);
  }

  lemma ElementsAppend(c: seq<Ptr>, x: Ptr)
    ensures Elements(c + [x]) == Elements(c) + {x}
  {
  }

  lemma SingletonList(next: Links, prev: Links, x: Ptr)
    requires x != NULL && x in next && x in prev && next[x] == NULL && prev[x] == NULL
    ensures List(next, prev, x, [x])
  {
  }

  lemma ListDistinct(next: Links, prev: Links, head: Ptr, c: seq<Ptr>)
    requires List(next, prev, head, c)
    ensures Distinct(c)
  {
  }

  /** The hash value of an item outside the table does not matter. */
  lemma Rehash(hash: map<Ptr, nat>, x: Ptr, v: nat, cs: seq<seq<Ptr>>, all: set<Ptr>)
    requires Placed(hash, all, cs) && x !in all
    ensures Placed(hash[x := v], all, cs)
  {
  }

  lemma MultIsFree(next: Links, prev: Links, b: seq<Bucket>, cs: seq<seq<Ptr>>, i: nat, mult: nat)
    requires Chained(next, prev, b, cs) && i < |b|
    ensures Chained(next, prev, b[i := b[i].(expandMult := mult)], cs)
  {
    var b' := b[i := b[i].(expandMult := mult)];
    assert forall j :: 0 <= j < |b| ==> b'[j].hhHead == b[j].hhHead && b'[j].count == b[j].count;
  }

  /** The counts of the buckets add up to the lengths of the chains. */
  lemma {:induction false} CountsTotal(next: Links, prev: Links, b: seq<Bucket>, cs: seq<seq<Ptr>>)
    requires Chained(next, prev, b, cs)
    ensures Counts(b) == Total(cs)
    decreases |b|
  {
    hide List;
    if b != [] {
      var i := 0;
      assert b[0].count == |cs[i]|;
      assert forall j :: 0 <= j < |cs[1..]| ==> cs[1..][j] == cs[j + 1];
      CountsTotal(next, prev, b[1..], cs[1..]);
    }
  }

  /** One more item in bucket i: the load stays in bounds as far as an expansion needs it, and without one
      when the bucket stays below its threshold. */
  lemma OneMore(b: seq<Bucket>, s: Stats, i: nat, h: Ptr)
    requires Balanced(b, s) && i < |b|
    ensures var x := Bucket(h, b[i].count + 1, b[i].expandMult);
            && (!s.noexpand ==> Counts(b[i := x]) <= 20 * |b|)
            && (x.count < 10 * (x.expandMult + 1) || s.noexpand ==> Balanced(b[i := x], s))
  {
    var x := Bucket(h, b[i].count + 1, b[i].expandMult);
    SumsUpdate(b, i, x, 0);
    if !s.noexpand { LoadBound(b, s); }
    if x.count < 10 * (x.expandMult + 1) { BalancedStep(b, s, i, x); }
  }

  // ----- walking all chains, bucket by bucket -----

  /** `done` are the items of the chains before i and of the first n elements of chain i. */
  ghost predicate Walked(hash: map<Ptr, nat>, all: set<Ptr>, cs: seq<seq<Ptr>>, done: set<Ptr>, i: nat, n: nat) {
    && done <= all && i <= |cs| && (n > 0 ==> i < |cs| && n <= |cs[i]|)
    && forall x {:trigger x in done} :: x in all && x in hash && |cs| > 0 ==>
         (x in done <==> hash[x] % |cs| < i || (hash[x] % |cs| == i && n > 0 && x in cs[i][..n]))
  }

  lemma WalkStart(hash: map<Ptr, nat>, all: set<Ptr>, cs: seq<seq<Ptr>>)
    requires Placed(hash, all, cs)
    ensures Walked(hash, all, cs, {}, 0, 0)
  {
  }

  lemma WalkHead(next: Links, prev: Links, b: seq<Bucket>, cs: seq<seq<Ptr>>, i: nat)
    requires Chained(next, prev, b, cs) && i < |cs|
    ensures NULL !in cs[i] && b[i].hhHead == if |cs[i]| > 0 then cs[i][0] else NULL
  {
    assert List(next, prev, b[i].hhHead, cs[i]);
  }

  lemma WalkItem(next: Links, prev: Links, hash: map<Ptr, nat>, all: set<Ptr>, b: seq<Bucket>, cs: seq<seq<Ptr>>,
                 i: nat, n: nat)
    requires Chained(next, prev, b, cs) && Placed(hash, all, cs) && i < |cs| && n < |cs[i]|
    ensures var x := cs[i][n];
            && x in all && x != NULL && x in hash && hash[x] % |cs| == i && x !in cs[i][..n]
            && x in next && next[x] == if n + 1 < |cs[i]| then cs[i][n + 1] else NULL
  {
    assert List(next, prev, b[i].hhHead, cs[i]);
    assert cs[i][n] in cs[i];
  }

  lemma WalkStep(next: Links, prev: Links, hash: map<Ptr, nat>, all: set<Ptr>, b: seq<Bucket>, cs: seq<seq<Ptr>>,
                 done: set<Ptr>, i: nat, n: nat)
    requires Chained(next, prev, b, cs) && Placed(hash, all, cs) && Walked(hash, all, cs, done, i, n)
    requires i < |cs| && n < |cs[i]|
    ensures var x := cs[i][n];
            && x in all && x !in done && x != NULL && x in hash
            && x in next && next[x] == (if n + 1 < |cs[i]| then cs[i][n + 1] else NULL)
            && Walked(hash, all, cs, done + {x}, i, n + 1)
  {
    hide List, Placed, Chained;
    var c, x := cs[i], cs[i][n];
    WalkItem(next, prev, hash, all, b, cs, i, n);
    assert c[..n + 1] == c[..n] + [x];
  }

  lemma WalkNext(hash: map<Ptr, nat>, all: set<Ptr>, cs: seq<seq<Ptr>>, done: set<Ptr>, i: nat)
    requires Placed(hash, all, cs) && i < |cs| && Walked(hash, all, cs, done, i, |cs[i]|)
    ensures Walked(hash, all, cs, done, i + 1, 0)
  {
    assert cs[i][..|cs[i]|] == cs[i];
    forall x | x in all && x in hash
      ensures x in done <==> hash[x] % |cs| < i + 1
    {
      assert x in cs[hash[x] % |cs|];
    }
  }

  lemma WalkEnd(hash: map<Ptr, nat>, all: set<Ptr>, cs: seq<seq<Ptr>>, done: set<Ptr>)
    requires Placed(hash, all, cs) && Walked(hash, all, cs, done, |cs|, 0)
    ensures done == all
  {
    forall x | x in all
      ensures x in done
    {
      assert x in cs[hash[x] % |cs|];
    }
  }

  // ----- keys -----

  /** Hash values and dictionary agree with the keys of the items. */
  ghost predicate KeyedBy(hashFn: string -> nat, key: map<Ptr, string>, hash: map<Ptr, nat>, items: seq<Ptr>,
                          dict: map<string, Ptr>) {
    && (forall x {:trigger x in items} :: x in items ==>
          x in key && x in hash && hash[x] == hashFn(key[x]) && key[x] in dict && dict[key[x]] == x)
    && (forall k {:trigger k in dict} :: k in dict ==> dict[k] in items && dict[k] in key && key[dict[k]] == k)
  }

  lemma EmptyKeyed(hashFn: string -> nat, key: map<Ptr, string>, hash: map<Ptr, nat>)
    ensures KeyedBy(hashFn, key, hash, [], map[])
  {
  }

  lemma KeyedAdd(hashFn: string -> nat, key: map<Ptr, string>, hash: map<Ptr, nat>, items: seq<Ptr>,
                 dict: map<string, Ptr>, x: Ptr, k: string, h: nat)
    requires KeyedBy(hashFn, key, hash, items, dict) && x !in items && k !in dict && h == hashFn(k)
    ensures KeyedBy(hashFn, key[x := k], hash[x := h], items + [x], dict[k := x])
  {
    assert forall y :: y in items + [x] <==> y in items || y == x;
  }

  // ----- the table -----

  class Table {
    const hashFn: string -> nat
    // fields of the items' hash handles
    var key: map<Ptr, string>
    var hashv: map<Ptr, nat>
    var next: Links
    var prev: Links
    var hhNext: Links
    var hhPrev: Links
    // UT_hash_table
    var head: Ptr
    var tail: Ptr
    var buckets: seq<Bucket>
    var numBuckets: nat
    var log2: nat
    var numItems: nat
    var stats: Stats
    // abstract state: application order, bucket chains, and the dictionary
    ghost var items: seq<Ptr>
    ghost var chains: seq<seq<Ptr>>
    ghost var dict: map<string, Ptr>

    ghost predicate Keyed()
      reads this`key, this`hashv, this`items, this`dict
    {
      KeyedBy(hashFn, key, hashv, items, dict)
    }

    ghost predicate AppOrder()
      reads this`items, this`next, this`prev, this`head, this`tail, this`numItems
    {
      items != [] && List(next, prev, head, items) && tail == items[|items| - 1] && numItems == |items|
    }

    ghost predicate Bucketed(all: set<Ptr>)
      reads this
    {
      && Chained(hhNext, hhPrev, buckets, chains) && Placed(hashv, all, chains)
      && |chains| == numBuckets == Pow2(log2) && Total(chains) == |all|
    }

    ghost predicate Valid()
      reads this
    {
      if head == NULL then items == [] && dict == map[]
      else Keyed() && AppOrder() && Bucketed(Elements(items)) && Loaded()
    }

    ghost predicate Loaded()
      reads this`buckets, this`stats
    {
      Balanced(buckets, stats)
    }

    constructor (hashFn: string -> nat)
      ensures Valid() && items == [] && dict == map[] && this.hashFn == hashFn
    {
      this.hashFn := hashFn;
      head, items, dict := NULL, [], map[];
      buckets, chains := [], [];
      key, hashv, next, prev, hhNext, hhPrev := map[], map[], map[], map[], map[], map[];
    }

    /** The chain that a key selects: its links, its keys, and where the key's item is. */
    lemma KeyChain(k: string, h: nat)
      requires Valid() && head != NULL && h == hashFn(k)
      ensures numBuckets > 0
      ensures var bkt := h % numBuckets;
              && bkt < |chains| == |buckets|
              && Distinct(chains[bkt]) && Forward(hhNext, buckets[bkt].hhHead, chains[bkt])
              && (forall x {:trigger x in chains[bkt]} :: x in chains[bkt] ==>
                  x in key && key[x] in dict && dict[key[x]] == x)
              && (k in dict ==> dict[k] in chains[bkt] && dict[k] in key && key[dict[k]] == k)
    {
      hide Total;
      var bkt := h % numBuckets;
      assert List(hhNext, hhPrev, buckets[bkt].hhHead, chains[bkt]);
      if k in dict {
        assert dict[k] in Elements(items);
      }
    }

    /** HASH_FIND: what the dictionary says, or NULL. */
    method Find(k: string) returns (out: Ptr)
      requires Valid()
      ensures out == if k in dict then dict[k] else NULL
    {
      hide Total, Placed, Chained, Valid, Forward, Distinct;
      out := NULL;
      HeadNull();
      if head != NULL {
        var h := hashFn(k);
        KeyChain(k, h);
        var bkt := h % numBuckets;
        out := Search(k, buckets[bkt].hhHead, chains[bkt]);
      }
    }

    lemma HeadNull()
      requires Valid()
      ensures head == NULL ==> dict == map[]
    {
    }

    /** HASH_FIND_IN_BKT */
    method Search(k: string, hd: Ptr, ghost c: seq<Ptr>) returns (out: Ptr)
      requires Forward(hhNext, hd, c) && Distinct(c) &&
               (k in dict ==> dict[k] in c && dict[k] in key && key[dict[k]] == k)
      requires forall x {:trigger x in c} :: x in c ==> x in key && key[x] in dict && dict[key[x]] == x
      ensures out == if k in dict then dict[k] else NULL
    {
      out := hd;
      ghost var n := 0;
      while out != NULL
        invariant 0 <= n <= |c| && out == if n < |c| then c[n] else NULL
        invariant forall m :: 0 <= m < n ==> c[m] in key && key[c[m]] != k
        decreases |c| - n
      {
        assert c[n] in c;
        if key[out] == k {
          return;
        }
        out, n := hhNext[out], n + 1;
      }
    }

    /** A new table: 32 empty buckets. */
    ghost predicate Fresh()
      reads this`numBuckets, this`stats, this`buckets
    {
      numBuckets == 32 == |buckets| && !stats.noexpand &&
      forall i {:trigger buckets[i]} :: 0 <= i < 32 ==> buckets[i].count == 0 && buckets[i].expandMult == 0
    }

    ghost predicate SameSize(n: nat, s: Stats, b: seq<Bucket>)
      reads this`numBuckets, this`stats, this`buckets
    {
      numBuckets == n && stats == s && buckets == b
    }

    /** HASH_MAKE_TABLE */
    method MakeTable()
      modifies this`buckets, this`numBuckets, this`log2, this`numItems, this`stats, this`chains
      ensures Bucketed({}) && numItems == 0 && Loaded() && Fresh()
    {
      BalancedNew(INITIAL_BUCKETS, Stats(0, 0, 0, false));
      numBuckets, log2, numItems := INITIAL_BUCKETS, INITIAL_LOG2, 0;
      stats := Stats(0, 0, 0, false);
      buckets := seq(INITIAL_BUCKETS, _ => Bucket(NULL, 0, 0));
      chains := seq(INITIAL_BUCKETS, _ => []);
      EmptyChains(hhNext, hhPrev, hashv, INITIAL_BUCKETS);
      assert Pow2(3) == 8;
    }

    /** HASH_ADD_TO_BKT up to the expansion test. */
    method Push(x: Ptr, ghost all: set<Ptr>)
      requires Bucketed(all) && x in hashv && x !in all && x != NULL
      modifies this`buckets, this`chains, this`hhNext, this`hhPrev
      ensures Bucketed(all + {x}) && |buckets| == |old(buckets)| == numBuckets
      ensures var bkt := hashv[x] % numBuckets; var b := old(buckets)[bkt];
              buckets == old(buckets)[bkt := Bucket(x, b.count + 1, b.expandMult)]
    {
      hide List, Placed, Total;
      var bkt := hashv[x] % numBuckets;
      HeadOf(hhNext, hhPrev, hashv, buckets, chains, all, bkt);
      PushChained(hhNext, hhPrev, hashv, buckets, chains, all, x);
      PushPlaced(hashv, chains, all, x);
      TotalGrows(chains, bkt, x);
      var oldHead := buckets[bkt].hhHead;
      hhNext := hhNext[x := oldHead];
      hhPrev := hhPrev[x := NULL];
      if oldHead != NULL {
        hhPrev := hhPrev[oldHead := x];
      }
      buckets := buckets[bkt := buckets[bkt].(hhHead := x, count := buckets[bkt].count + 1)];
      chains := chains[bkt := [x] + chains[bkt]];
    }

    /** What holds of the new chains while items move over from the old ones. */
    ghost predicate Moving(done: set<Ptr>, newBuckets: seq<Bucket>, ns: seq<seq<Ptr>>, next0: Links)
      reads this
    {
      && Chained(hhNext, hhPrev, newBuckets, ns) && Placed(hashv, done, ns)
      && |ns| == 2 * numBuckets > 0 && Total(ns) == |done|
      && (forall x {:trigger x in next0} :: x in next0 && x !in done ==> x in hhNext && hhNext[x] == next0[x])
    }

    /** The new bucket with one more item, and the count of items beyond the ideal chain length. */
    method Grade(newBuckets: seq<Bucket>, bkt: nat, th: Ptr) returns (b: Bucket)
      requires bkt < |newBuckets| && Rated(newBuckets, stats.idealChainMaxlen, stats.nonidealItems)
      modifies this`stats
      ensures Rated(newBuckets[bkt := b], stats.idealChainMaxlen, stats.nonidealItems)
      ensures stats == old(stats).(nonidealItems := stats.nonidealItems)
      ensures b.hhHead == th && b.count == newBuckets[bkt].count + 1
    {
      RatedStep(newBuckets, bkt, th, stats.idealChainMaxlen, stats.nonidealItems);
      assert stats.idealChainMaxlen > 0;
      hide Rated;
      b := Bucket(th, newBuckets[bkt].count + 1, newBuckets[bkt].expandMult);
      if b.count > stats.idealChainMaxlen {
        stats := stats.(nonidealItems := stats.nonidealItems + 1);
        b := b.(expandMult := b.count / stats.idealChainMaxlen);
      }
    }

    /** The body of the expansion loop: th moves to the head of its new chain. */
    method Move(th: Ptr, newBuckets: seq<Bucket>, ghost done: set<Ptr>, ghost ns: seq<seq<Ptr>>, ghost next0: Links)
        returns (newBuckets': seq<Bucket>, ghost ns': seq<seq<Ptr>>)
      requires Moving(done, newBuckets, ns, next0) && th in hashv && th !in done && th != NULL
      requires Rated(newBuckets, stats.idealChainMaxlen, stats.nonidealItems)
      modifies this`hhNext, this`hhPrev, this`stats
      ensures Moving(done + {th}, newBuckets', ns', next0)
      ensures Rated(newBuckets', stats.idealChainMaxlen, stats.nonidealItems)
      ensures stats == old(stats).(nonidealItems := stats.nonidealItems)
    {
      hide List, Placed, Total, Rated;
      var bkt := hashv[th] % (2 * numBuckets);
      HeadOf(hhNext, hhPrev, hashv, newBuckets, ns, done, bkt);
      PushChained(hhNext, hhPrev, hashv, newBuckets, ns, done, th);
      PushPlaced(hashv, ns, done, th);
      TotalGrows(ns, bkt, th);
      var b := newBuckets[bkt];
      var b' := Grade(newBuckets, bkt, th);
      hhPrev := hhPrev[th := NULL];
      hhNext := hhNext[th := b.hhHead];
      if b.hhHead != NULL {
        hhPrev := hhPrev[b.hhHead := th];
      }
      newBuckets' := newBuckets[bkt := b'];
      ns' := ns[bkt := [th] + ns[bkt]];
      ghost var pushed := newBuckets[bkt := b.(hhHead := th, count := b.count + 1)];
      MultIsFree(hhNext, hhPrev, pushed, ns', bkt, b'.expandMult);
      assert newBuckets' == pushed[bkt := b'];
    }

    /** Moves the items of old chain i. */
    method MoveChain(i: nat, newBuckets: seq<Bucket>, ghost all: set<Ptr>, ghost done: set<Ptr>,
                     ghost ns: seq<seq<Ptr>>, ghost next0: Links, ghost prev0: Links)
        returns (newBuckets': seq<Bucket>, ghost done': set<Ptr>, ghost ns': seq<seq<Ptr>>)
      requires Chained(next0, prev0, buckets, chains) && Placed(hashv, all, chains) && i < |chains|
      requires Moving(done, newBuckets, ns, next0) && Walked(hashv, all, chains, done, i, 0)
      requires Rated(newBuckets, stats.idealChainMaxlen, stats.nonidealItems)
      modifies this`hhNext, this`hhPrev, this`stats
      ensures Moving(done', newBuckets', ns', next0) && Walked(hashv, all, chains, done', i + 1, 0)
      ensures Rated(newBuckets', stats.idealChainMaxlen, stats.nonidealItems)
      ensures stats == old(stats).(nonidealItems := stats.nonidealItems)
    {
      hide List, Placed, Total, Distinct, Walked, Rated;
      newBuckets', done', ns' := newBuckets, done, ns;
      var th := buckets[i].hhHead;
      ghost var c, n := chains[i], 0;
      WalkHead(next0, prev0, buckets, chains, i);
      while th != NULL
        invariant n <= |c| && th == if n < |c| then c[n] else NULL
        invariant Moving(done', newBuckets', ns', next0) && Walked(hashv, all, chains, done', i, n)
        invariant Rated(newBuckets', stats.idealChainMaxlen, stats.nonidealItems)
        invariant stats == old(stats).(nonidealItems := stats.nonidealItems)
        decreases |c| - n
      {
        WalkStep(next0, prev0, hashv, all, buckets, chains, done', i, n);
        var nxt := hhNext[th];
        newBuckets', ns' := Move(th, newBuckets', done', ns', next0);
        done' := done' + {th};
        th, n := nxt, n + 1;
      }
      WalkNext(hashv, all, chains, done', i);
    }

    /** Moves the items of all old chains. */
    method MoveAll(ghost all: set<Ptr>) returns (newBuckets: seq<Bucket>, ghost ns: seq<seq<Ptr>>)
      requires Bucketed(all) && stats.idealChainMaxlen > 0 && stats.nonidealItems == 0
      modifies this`hhNext, this`hhPrev, this`stats
      ensures Rated(newBuckets, stats.idealChainMaxlen, stats.nonidealItems)
      ensures stats == old(stats).(nonidealItems := stats.nonidealItems)
      ensures Chained(hhNext, hhPrev, newBuckets, ns) && Placed(hashv, all, ns)
      ensures |ns| == 2 * numBuckets && Total(ns) == |all|
    {
      hide List, Placed, Total, Distinct, Walked, Rated;
      RatedNone(2 * numBuckets, stats.idealChainMaxlen);
      newBuckets := seq(2 * numBuckets, _ => Bucket(NULL, 0, 0));
      ns := seq(2 * numBuckets, _ => []);
      EmptyChains(hhNext, hhPrev, hashv, 2 * numBuckets);
      ghost var next0, prev0, done: set<Ptr> := hhNext, hhPrev, {};
      WalkStart(hashv, all, chains);
      var i := 0;
      while i < numBuckets
        invariant i <= numBuckets
        invariant Moving(done, newBuckets, ns, next0) && Walked(hashv, all, chains, done, i, 0)
        invariant Rated(newBuckets, stats.idealChainMaxlen, stats.nonidealItems)
        invariant stats == old(stats).(nonidealItems := stats.nonidealItems)
      {
        newBuckets, done, ns := MoveChain(i, newBuckets, all, done, ns, next0, prev0);
        i := i + 1;
      }
      WalkEnd(hashv, all, chains, done);
    }

    /**
      HASH_EXPAND_BUCKETS: twice as many buckets, the same items.  The ideal chain length is the number of
      items a bucket, rounded up; expansion is given up when for the second time in a row more than half of
      the items stand beyond it.
     */
    method Expand()
      requires Bucketed(Elements(items)) && items != [] && numItems == |items| && Distinct(items)
      modifies this`buckets, this`chains, this`hhNext, this`hhPrev, this`numBuckets, this`log2, this`stats
      ensures Bucketed(Elements(items)) && numBuckets == 2 * old(numBuckets)
      ensures var ideal := stats.idealChainMaxlen;
              && Ideal(numItems, numBuckets, ideal) && Rated(buckets, ideal, stats.nonidealItems)
              && stats.ineffExpands == (if stats.nonidealItems > numItems / 2 then old(stats.ineffExpands) + 1 else 0)
              && (stats.noexpand <==> old(stats.noexpand) || stats.ineffExpands > 1)
      ensures old(Counts(buckets) <= 20 * numBuckets) ==> Loaded()
    {
      hide List, Placed, Total, Distinct, Chained, Rated, Counts, Balanced, Ideal, Elements, Pow2;
      Pow2Double(log2);
      var n := 2 * numBuckets;
      stats := stats.(idealChainMaxlen := numItems / n + (if numItems % n != 0 then 1 else 0), nonidealItems := 0);
      BucketRange(Elements(items));
      Ceiling(numItems, n);
      assert stats.idealChainMaxlen > 0 by { IdealPositive(numItems, n, stats.idealChainMaxlen); }
      CountsAre(buckets);
      ghost var ns;
      buckets, ns := MoveAll(Elements(items));
      numBuckets := numBuckets * 2;
      log2 := log2 + 1;
      chains := ns;
      JudgeExpansion();
      BucketRange(Elements(items));
      CountsAre(buckets);
      if numItems <= 10 * numBuckets { BalancedExpanded(buckets, stats, stats.nonidealItems); }
    }

    /** Whether the expansion was worth while, and whether to go on expanding. */
    method JudgeExpansion()
      modifies this`stats
      ensures stats.idealChainMaxlen == old(stats.idealChainMaxlen) && stats.nonidealItems == old(stats.nonidealItems)
      ensures stats.ineffExpands ==
              if stats.nonidealItems > numItems / 2 then old(stats.ineffExpands) + 1 else 0
      ensures stats.noexpand <==> old(stats.noexpand) || stats.ineffExpands > 1
    {
      stats := stats.(ineffExpands := if stats.nonidealItems > numItems / 2 then stats.ineffExpands + 1 else 0);
      if stats.ineffExpands > 1 {
        stats := stats.(noexpand := true);
      }
    }

    lemma Pow2Double(k: nat)
      ensures Pow2(k + 1) == 2 * Pow2(k)
    {
    }

    /** The buckets count all items. */
    lemma CountsAre(b: seq<Bucket>)
      requires Bucketed(Elements(items)) && numItems == |items| && Distinct(items) && b == buckets
      ensures Counts(b) == numItems
    {
      DistinctSize(items);
      CountsTotal(hhNext, hhPrev, b, chains);
    }

    /** The application-order part of HASH_ADD_KEYPTR; the first item creates the table. */
    method Append(x: Ptr)
      requires Valid() && x != NULL && x !in items
      modifies this
      ensures items == old(items) + [x] && head != NULL && AppOrder() && Bucketed(old(Elements(items))) && Loaded()
      ensures key == old(key) && hashv == old(hashv) && dict == old(dict)
      ensures if old(head) == NULL then Fresh() else SameSize(old(numBuckets), old(stats), old(buckets))
    {
      hide List, Placed, Total, Chained, Balanced;
      if head == NULL {
        assert items + [x] == [x] && Elements(items) == {};
        hide Elements;
        AppendFirst(x);
      } else {
        AppendLast(x);
      }
    }

    method AppendFirst(x: Ptr)
      requires x != NULL && items == []
      modifies this`head, this`tail, this`next, this`prev, this`items, this`buckets, this`numBuckets, this`log2,
               this`numItems, this`stats, this`chains
      ensures items == [x] && head != NULL && AppOrder() && Bucketed({}) && Loaded()
      ensures Fresh()
    {
      hide List, Chained, Placed, Total, Balanced, Fresh, Elements, Pow2;
      prev, next := prev[x := NULL], next[x := NULL];
      SingletonList(next, prev, x);
      head, tail, items := x, x, [x];
      MakeTable();
      numItems := numItems + 1;
    }

    method AppendLast(x: Ptr)
      requires AppOrder() && Bucketed(Elements(items)) && head != NULL && x != NULL && x !in items
      modifies this`tail, this`next, this`prev, this`items, this`numItems
      ensures items == old(items) + [x] && AppOrder() && Bucketed(old(Elements(items)))
    {
      hide List, Elements;
      AppendList(next, prev, head, items, x);
      next := next[x := NULL][tail := x];
      prev := prev[x := tail];
      tail, numItems, items := x, numItems + 1, items + [x];
    }

    /** HASH_FCN: the new item gets its key and hash value. */
    method SetKey(x: Ptr, k: string, h: nat, ghost all: set<Ptr>)
      requires Bucketed(all) && x !in all
      modifies this`key, this`dict, this`hashv
      ensures Bucketed(all) && hashv == old(hashv)[x := h]
      ensures key == old(key)[x := k] && dict == old(dict)[k := x]
    {
      hide Chained, Placed, Total;
      Rehash(hashv, x, h, chains, all);
      key := key[x := k];
      dict := dict[k := x];
      hashv := hashv[x := h];
    }

    lemma BucketRange(all: set<Ptr>)
      requires Bucketed(all)
      ensures numBuckets > 0 && |buckets| == numBuckets
    {
    }

    /** HASH_ADD_TO_BKT for the item just appended: the array doubles when the bucket has reached ten times
        its multiplier plus one, unless expansion was given up. */
    method AddToBucket(x: Ptr, ghost all: set<Ptr>)
      requires items != [] && Distinct(items) && numItems == |items| && Loaded()
      requires Bucketed(all) && x !in all && x != NULL && x in hashv && Elements(items) == all + {x}
      modifies this
      ensures Bucketed(Elements(items)) && Loaded()
      ensures old(numBuckets == |buckets| > 0) &&
              var b := old(buckets[hashv[x] % numBuckets]);
              numBuckets == if b.count + 1 >= 10 * (b.expandMult + 1) && !old(stats.noexpand) then 2 * old(numBuckets)
                            else old(numBuckets)
      ensures old(stats.noexpand) ==> stats.noexpand
      ensures key == old(key) && hashv == old(hashv) && items == old(items) && dict == old(dict)
      ensures next == old(next) && prev == old(prev) && head == old(head) && tail == old(tail) &&
              numItems == old(numItems)
    {
      hide Bucketed, Distinct, Elements, Balanced, Rated, Counts;
      BucketRange(all);
      var bkt := hashv[x] % numBuckets;
      ghost var b := buckets;
      Push(x, all);
      BucketRange(all + {x});
      OneMore(b, stats, bkt, x);
      if buckets[bkt].count >= (buckets[bkt].expandMult + 1) * 10 && !stats.noexpand {
        Expand();
      }
    }

    /** The first half of HASH_ADD_KEYPTR: application order, key and hash value. */
    method Enlist(x: Ptr, k: string, ghost all: set<Ptr>)
      requires Valid() && x != NULL && x !in items && k !in dict && all == Elements(items)
      modifies this
      ensures Keyed() && AppOrder() && head != NULL && Bucketed(all) && x in hashv && Loaded()
      ensures items == old(items) + [x] && dict == old(dict)[k := x] && hashv[x] == hashFn(k)
      ensures if old(head) == NULL then Fresh() else SameSize(old(numBuckets), old(stats), old(buckets))
    {
      assert x !in all;
      hide Fresh, SameSize;
      hide List, KeyedBy, Distinct, Bucketed, Valid, Elements, AppOrder, Balanced;
      var h := hashFn(k);
      KeyedWithNew(x, k, h);
      Append(x);
      SetKey(x, k, h, all);
    }

    /** HASH_ADD_KEYPTR for an item x whose key is not in the table. */
    method Add(x: Ptr, k: string)
      requires Valid() && x != NULL && x !in items && k !in dict
      modifies this
      ensures Valid() && items == old(items) + [x] && dict == old(dict)[k := x]
      ensures old(head) == NULL ==> numBuckets == 32
      ensures old(head) != NULL ==>
                && old(numBuckets == |buckets| > 0)
                && var b := old(buckets)[hashFn(k) % old(numBuckets)];
                   numBuckets == if b.count + 1 >= 10 * (b.expandMult + 1) && !old(stats.noexpand)
                                 then 2 * old(numBuckets) else old(numBuckets)
    {
      ghost var all := Elements(items);
      assert x !in all;
      ElementsAppend(items, x);
      hide List, KeyedBy, Distinct, Bucketed, Valid, Elements, Chained, Placed, Total, Balanced;
      Enlist(x, k, all);
      Ordered();
      AddToBucket(x, all);
      ValidIf();
    }

    /** As long as expansion is not given up there are fewer than twenty items a bucket, and no chain is
        longer than ten times the multiplier of its bucket plus one. */
    lemma ChainBound()
      requires Valid() && head != NULL && !stats.noexpand
      ensures numItems < 20 * numBuckets && numBuckets == |chains| == |buckets|
      ensures forall i {:trigger chains[i]} :: 0 <= i < |chains| ==> |chains[i]| <= 10 * (buckets[i].expandMult + 1)
    {
      hide List, Placed, Total, Counts, Mults;
      Ordered();
      BucketRange(Elements(items));
      CountsAre(buckets);
      LoadBound(buckets, stats);
      forall i {:trigger chains[i]} | 0 <= i < |chains|
        ensures |chains[i]| <= 10 * (buckets[i].expandMult + 1)
      {
        assert |chains[i]| == buckets[i].count;
      }
    }

    lemma Ordered()
      requires AppOrder()
      ensures items != [] && Distinct(items) && numItems == |items|
    {
      hide List;
      ListDistinct(next, prev, head, items);
    }

    lemma KeyedWithNew(x: Ptr, k: string, h: nat)
      requires Valid() && x !in items && k !in dict && h == hashFn(k)
      ensures KeyedBy(hashFn, key[x := k], hashv[x := h], items + [x], dict[k := x])
    {
      hide List, Bucketed;
      if head == NULL { EmptyKeyed(hashFn, key, hashv); }
      KeyedAdd(hashFn, key, hashv, items, dict, x, k, h);
    }

    lemma ValidIf()
      requires head != NULL && Keyed() && AppOrder() && Bucketed(Elements(items)) && Loaded()
      ensures Valid()
    {
    }

    /**
      get_signal: the item of that name, created at freeAddr if it is new.  A null freeAddr stands
      for a name the simulator does not know, or for memory that ran out.
     */
    method GetSignal(name: string, freeAddr: Ptr) returns (s: Ptr)
      requires Valid() && freeAddr !in items
      modifies this
      ensures Valid()
      ensures old(name in dict) || freeAddr == NULL ==> dict == old(dict) && items == old(items)
      ensures old(name !in dict) && freeAddr != NULL ==>
              dict == old(dict)[name := freeAddr] && items == old(items) + [freeAddr]
      ensures s == if name in dict then dict[name] else NULL
    {
      s := Find(name);
      if s == NULL {
        assert name !in dict by { if name in dict { DictNotNull(name); } }
        if freeAddr == NULL {
          return NULL;
        }
        s := freeAddr;
        Add(s, name);
      }
    }

    lemma DictNotNull(k: string)
      requires Valid() && k in dict
      ensures dict[k] != NULL
    {
      assert Distinct(items);
      assert dict[k] in items;
    }

    // ----- HASH_FSCK -----

    /** What the walks of the checker need to end: forward links that list the ghost sequences. */
    ghost predicate Walkable()
      reads this
    {
      head != NULL ==>
        && WalkableList(next, prev, head, items)
        && |chains| == |buckets| == numBuckets
        && forall i {:trigger chains[i]} :: 0 <= i < |chains| ==>
           WalkableList(hhNext, hhPrev, buckets[i].hhHead, chains[i])
    }

    ghost predicate BucketSound(i: nat)
      reads this
    {
      i < |chains| && i < |buckets| && Backward(hhPrev, chains[i]) && buckets[i].count == |chains[i]|
    }

    /** What the checker checks. */
    ghost predicate Sound()
      reads this
    {
      head != NULL ==>
        && (forall i {:trigger BucketSound(i)} :: 0 <= i < |chains| ==> BucketSound(i))
        && Total(chains) == numItems
        && Backward(prev, items) && |items| == numItems
    }

    lemma ValidIsSound()
      requires Valid()
      ensures Walkable() && Sound()
    {
      hide Placed, Total;
      if head != NULL {
        DistinctSize(items);
        forall i | 0 <= i < |chains|
          ensures WalkableList(hhNext, hhPrev, buckets[i].hhHead, chains[i]) && BucketSound(i)
        {
          assert List(hhNext, hhPrev, buckets[i].hhHead, chains[i]);
        }
      }
    }

    /** The integrity check reports no fault exactly when links, counts and totals are right. */
    method Fsck() returns (ok: bool)
      requires Walkable()
      ensures ok <==> Sound()
    {
      hide WalkableList, Backward, Total;
      if head == NULL {
        return true;
      }
      var count := 0;
      var i := 0;
      TotalPrefixAll(chains);
      while i < numBuckets
        invariant 0 <= i <= |chains| && count == Total(chains[..i])
        invariant forall j {:trigger BucketSound(j)} :: 0 <= j < i ==> BucketSound(j)
      {
        var good, n := CheckLinks(hhNext, hhPrev, buckets[i].hhHead, chains[i]);
        if !good {
          assert !BucketSound(i);
          return false;
        }
        count := count + n;
        if buckets[i].count != n {
          assert !BucketSound(i);
          return false;
        }
        TotalPrefix(chains, i);
        i := i + 1;
      }
      if count != numItems {
        return false;
      }
      var good, n := CheckLinks(next, prev, head, items);
      ok := good && n == numItems;
    }

    /** After any insertion the checker is silent. */
    method AddChecked(x: Ptr, k: string) returns (ok: bool)
      requires Valid() && x != NULL && x !in items && k !in dict
      modifies this
      ensures Valid() && ok && items == old(items) + [x] && dict == old(dict)[k := x]
    {
      Add(x, k);
      ValidIsSound();
      ok := Fsck();
    }
  }

  /**
    A whole run: any sequence of distinct keys goes in, item i + 1 under key i.  The integrity
    check never reports a fault, and a lookup agrees with the sequence of keys, across any
    number of expansions.
   */
  method InsertAll(hashFn: string -> nat, keys: seq<string>, query: string) returns (faults: nat, found: Ptr)
    requires forall i, j :: 0 <= i < j < |keys| ==> keys[i] != keys[j]
    ensures faults == 0
    ensures forall i :: 0 <= i < |keys| && keys[i] == query ==> found == i + 1
    ensures query !in keys ==> found == NULL
  {
    hide Table.Valid, Numbered, AtMost;
    var t := new Table(hashFn);
    faults := 0;
    var n := 0;
    NumberedNone(keys);
    while n < |keys|
      invariant 0 <= n <= |keys| && fresh(t) && t.Valid() && faults == 0
      invariant AtMost(t.items, n) && Numbered(t.dict, keys, n)
    {
      NumberedNext(t.dict, keys, n);
      AtMostNext(t.items, n);
      var ok := t.AddChecked(n + 1, keys[n]);
      faults := faults + if ok then 0 else 1;
      n := n + 1;
    }
    found := t.Find(query);
    NumberedAll(t.dict, keys, query);
  }

  ghost predicate AtMost(items: seq<Ptr>, n: nat) { forall x :: x in items ==> x <= n }

  lemma AtMostNext(items: seq<Ptr>, n: nat)
    requires AtMost(items, n)
    ensures n + 1 !in items && AtMost(items + [n + 1], n + 1)
  {
  }

  /** Item i + 1 is under key i, for the first n keys, and nothing else is there. */
  ghost predicate Numbered(dict: map<string, Ptr>, keys: seq<string>, n: nat) {
    && (forall k :: k in dict ==> k in keys[..if n < |keys| then n else |keys|])
    && forall i {:trigger keys[i]} :: 0 <= i < n && i < |keys| ==> keys[i] in dict && dict[keys[i]] == i + 1
  }

  lemma NumberedNone(keys: seq<string>)
    ensures Numbered(map[], keys, 0) && AtMost([], 0)
  {
  }

  lemma NumberedNext(dict: map<string, Ptr>, keys: seq<string>, n: nat)
    requires Numbered(dict, keys, n) && n < |keys| && forall i, j :: 0 <= i < j < |keys| ==> keys[i] != keys[j]
    ensures keys[n] !in dict && Numbered(dict[keys[n] := n + 1], keys, n + 1)
  {
    assert keys[n] !in keys[..n];
    assert keys[..n + 1] == keys[..n] + [keys[n]];
  }

  lemma NumberedAll(dict: map<string, Ptr>, keys: seq<string>, query: string)
    requires Numbered(dict, keys, |keys|)
    ensures forall i {:trigger keys[i]} :: 0 <= i < |keys| && keys[i] == query ==> query in dict && dict[query] == i + 1
    ensures query !in keys ==> query !in dict
  {
    assert keys[..|keys|] == keys;
  }

  ghost predicate WalkableList(next: Links, prev: Links, head: Ptr, c: seq<Ptr>) {
    NULL !in c && Forward(next, head, c) && forall x :: x in c ==> x in prev
  }

  lemma {:induction false} TotalPrefix(cs: seq<seq<Ptr>>, i: nat)
    requires i < |cs|
    ensures Total(cs[..i + 1]) == Total(cs[..i]) + |cs[i]|
    decreases i
  {
    if i == 0 {
      assert cs[..1] == [cs[0]] && cs[..0] == [];
      assert cs[..1][1..] == cs[..0];
    } else {
      TotalPrefix(cs[1..], i - 1);
      assert cs[..i + 1][1..] == cs[1..][..i] && cs[..i][1..] == cs[1..][..i - 1];
    }
  }

  lemma TotalPrefixAll(cs: seq<seq<Ptr>>)
    ensures Total(cs[..0]) == 0 && cs[..|cs|] == cs
  {
  }

  /** Walks a list, comparing each back link with the element just left. */
  method CheckLinks(next: Links, prev: Links, head: Ptr, ghost c: seq<Ptr>) returns (good: bool, count: nat)
    requires WalkableList(next, prev, head, c)
    ensures good <==> Backward(prev, c)
    ensures good ==> count == |c|
  {
    hide WalkableList, Backward;
    var p, th := NULL, head;
    count := 0;
    CheckBegins(next, prev, head, c);
    while th != NULL
      invariant 0 <= count <= |c| && th == (if count < |c| then c[count] else NULL)
      invariant p == if count > 0 then c[count - 1] else NULL
      invariant Backward(prev, c[..count])
      decreases |c| - count
    {
      CheckNext(next, prev, head, c, count);
      if prev[th] != p {
        return false, count;
      }
      count := count + 1;
      p, th := th, next[th];
    }
    CheckEnds(next, prev, head, c, count);
    good := true;
  }

  lemma CheckBegins(next: Links, prev: Links, head: Ptr, c: seq<Ptr>)
    requires WalkableList(next, prev, head, c)
    ensures head == (if 0 < |c| then c[0] else NULL) && Backward(prev, c[..0])
  {
  }

  lemma CheckNext(next: Links, prev: Links, head: Ptr, c: seq<Ptr>, n: nat)
    requires WalkableList(next, prev, head, c) && n < |c| && Backward(prev, c[..n])
    ensures c[n] in next && next[c[n]] == (if n + 1 < |c| then c[n + 1] else NULL) && c[n] in prev
    ensures var good := prev[c[n]] == if n > 0 then c[n - 1] else NULL;
            (good ==> Backward(prev, c[..n + 1])) && (!good ==> !Backward(prev, c))
  {
    var d := c[..n + 1];
    assert c[n] in c && d[n] == c[n] && forall i :: 0 <= i < n ==> d[i] == c[..n][i];
  }

  lemma CheckEnds(next: Links, prev: Links, head: Ptr, c: seq<Ptr>, n: nat)
    requires WalkableList(next, prev, head, c) && n <= |c| && (n < |c| ==> c[n] == NULL) && Backward(prev, c[..n])
    ensures n == |c| && Backward(prev, c)
  {
    assert forall i :: 0 <= i < |c| ==> c[i] in c;
    assert c[..|c|] == c;
  }
}
