/**
  One CPU sorting its half of the work array, access by access.
 */
module SmpHalfProof {
  import opened Arithmetic
  import opened MergeSpec
  import opened SmpSort
  import opened SmpMergeProof

  /** The cells of one half in one bank. */
  ghost function Half(w: seq<int>, base: int, bank: nat, lo: nat): (r: seq<int>)
    requires |w| == WORDS && 0 <= base < 8 && bank < 2 && lo <= HALF
    ensures |r| == HALF
  {
    w[base + bank * N + lo..base + bank * N + lo + HALF]
  }

  predicate InHalf(base: int, lo: nat, a: int) {
    || base + lo <= a < base + lo + HALF
    || base + N + lo <= a < base + N + lo + HALF
  }

  ghost function Src(base: int, level: nat, index: int): int { base + (level % 2) * N + index }
  ghost function Dst(base: int, level: nat, index: int): int { base + (1 - level % 2) * N + index }

  ghost predicate Multiple(k: int, w: int)
    requires w > 0
    decreases k
  {
    k == 0 || (k >= w && Multiple(k - w, w))
  }

  lemma {:induction false} MultipleSum(a: int, b: int, w: int)
    requires w > 0 && Multiple(a, w) && Multiple(b, w)
    ensures Multiple(a + b, w) && a >= 0
    decreases a
  {
    if a != 0 {
      MultipleSum(a - w, b, w);
    }
  }

  lemma {:induction false} MultipleGap(a: int, b: int, w: int)
    requires w > 0 && Multiple(a, w) && Multiple(b, w) && a < b
    ensures 0 <= a && a + w <= b
    decreases b
  {
    if a != 0 {
      MultipleGap(a - w, b - w, w);
    }
  }

  lemma {:induction false} MultipleEven(a: int, h: nat)
    requires h > 0 && Multiple(a, 2 * h)
    ensures a % 2 == 0
    decreases a
  {
    if a != 0 {
      MultipleEven(a - 2 * h, h);
    }
  }

  lemma {:induction false} PowMultiple(j: nat, k: nat)
    requires j <= k
    ensures Multiple(Pow2(k), Pow2(j))
    decreases k
  {
    if j < k {
      PowMultiple(j, k - 1);
      MultipleSum(Pow2(k - 1), Pow2(k - 1), Pow2(j));
    }
  }

  /** The block loop visits aligned blocks that fit into the half. */
  lemma Blocks(level: nat, k: int)
    requires level < LEVELS && 0 <= k < HALF && Multiple(k, 2 * Pow2(level))
    ensures var k' := k + 2 * Pow2(level);
            k' <= HALF && Multiple(k', 2 * Pow2(level)) && k' % 2 == 0
  {
    HalfIsPower();
    PowMultiple(level + 1, LEVELS);
    MultipleGap(k, HALF, 2 * Pow2(level));
    MultipleEven(k + 2 * Pow2(level), Pow2(level));
  }

  lemma HalfIsPower()
    ensures Pow2(LEVELS) == HALF
  {
    assert Pow2(4) == 16;
  }

  ghost predicate SortGeo(base: int, lo: nat, level: nat, index: nat, m: MergeRegs) {
    && 0 <= base < 8 && (lo == 0 || lo == HALF) && level < LEVELS
    && lo <= index < lo + HALF && Multiple(index - lo, 2 * Pow2(level))
    && MergeGeo(m, Src(base, level, index), Dst(base, level, index), Pow2(level))
  }

  lemma SortRoom(w: seq<int>, base: int, lo: nat, level: nat, index: nat)
    requires |w| == WORDS && 0 <= base < 8 && (lo == 0 || lo == HALF) && level < LEVELS
    requires lo <= index < lo + HALF && Multiple(index - lo, 2 * Pow2(level))
    ensures index + 2 * Pow2(level) <= lo + HALF
    ensures Room(w, Src(base, level, index), Dst(base, level, index), Pow2(level))
  {
    Blocks(level, index - lo);
  }

  /** What a half-sort that is under way has done to its half, given the half's input. */
  ghost predicate SortData(w: seq<int>, base: int, lo: nat, level: nat, index: nat, m: MergeRegs, input: seq<int>)
    requires |w| == WORDS && SortGeo(base, lo, level, index, m)
    requires Room(w, Src(base, level, index), Dst(base, level, index), Pow2(level))
    requires index + 2 * Pow2(level) <= lo + HALF
  {
    var src, dst := Half(w, base, level % 2, lo), Half(w, base, 1 - level % 2, lo);
    var h, k := Pow2(level), index - lo;
    var a0, d0 := Src(base, level, index), Dst(base, level, index);
    && src == Passes(input, level)
    && dst[..k] + Pass(src[k..], h) == Pass(src, h)
    && MergeData(m, w[a0..a0 + 2 * h], w[d0..m.d], a0, d0)
  }

  ghost predicate Sorting(w: seq<int>, base: int, lo: nat, level: nat, index: nat, m: MergeRegs, input: seq<int>) {
    && |w| == WORDS && SortGeo(base, lo, level, index, m)
    && Room(w, Src(base, level, index), Dst(base, level, index), Pow2(level))
    && index + 2 * Pow2(level) <= lo + HALF
    && SortData(w, base, lo, level, index, m, input)
  }

  lemma StartMergeOk(w: seq<int>, base: int, level: nat, index: nat)
    requires Room(w, Src(base, level, index), Dst(base, level, index), Pow2(level))
    ensures var m := StartMerge(base, level, index);
            var a0, d0 := Src(base, level, index), Dst(base, level, index);
            && MergeGeo(m, a0, d0, Pow2(level))
            && MergeData(m, w[a0..a0 + 2 * Pow2(level)], w[d0..m.d], a0, d0)
  {
    PowPositive(level);
    hide Merge, Pow2;
    var h, a0, d0 := Pow2(level), Src(base, level, index), Dst(base, level, index);
    StartMergeIs(base, level, index);
    FreshMerge(StartMerge(base, level, index), w[a0..a0 + 2 * h], a0, d0, h);
    assert w[d0..d0] == [];
  }

  lemma PowPositive(level: nat)
    ensures Pow2(level) > 0
  {
  }

  lemma StartMergeIs(base: int, level: nat, index: int)
    ensures var m := StartMerge(base, level, index);
            var a0, d0, h := Src(base, level, index), Dst(base, level, index), Pow2(level);
            Fresh(m, a0, d0, h)
  {
    PowPositive(level);
    hide Pow2;
  }

  ghost predicate Fresh(m: MergeRegs, a0: int, d0: int, h: nat) {
    m.pc.LoadA? && m.h == h > 0 && m.a == a0 && m.b == a0 + h == m.alim && m.blim == a0 + 2 * h && m.d == d0 && m.i == 0
  }

  lemma FreshGeo(m: MergeRegs, a0: int, d0: int, h: nat)
    requires Fresh(m, a0, d0, h)
    ensures MergeGeo(m, a0, d0, h)
  {
  }

  lemma FreshRest(m: MergeRegs, S: seq<int>, a0: int, d0: int, h: nat)
    requires Fresh(m, a0, d0, h) && |S| == 2 * h && MergeGeo(m, a0, d0, h)
    ensures Rest(m, S, a0, d0) == Merge(S[..h], S[h..])
  {
    hide Merge, MergeGeo;
  }

  lemma FreshMerge(m: MergeRegs, S: seq<int>, a0: int, d0: int, h: nat)
    requires Fresh(m, a0, d0, h) && |S| == 2 * h
    ensures MergeGeo(m, a0, d0, h) && MergeData(m, S, [], a0, d0)
  {
    hide Merge, MergeGeo, Rest;
    FreshGeo(m, a0, d0, h);
    FreshRest(m, S, a0, d0, h);
    NothingYet(Rest(m, S, a0, d0));
  }

  lemma NothingYet(r: seq<int>)
    ensures [] + r == r
  {
  }

  /** A half that holds its input is ready to be sorted. */
  lemma SortBegins(w: seq<int>, base: int, lo: nat)
    requires |w| == WORDS && 0 <= base < 8 && (lo == 0 || lo == HALF)
    ensures Sorting(w, base, lo, 0, lo, StartMerge(base, 0, lo), Half(w, base, 0, lo))
  {
    SortRoom(w, base, lo, 0, lo);
    StartMergeOk(w, base, 0, lo);
    var src := Half(w, base, 0, lo);
    assert src[0..] == src;
  }

  /** One access of a half-sort stays in its half. */
  lemma SortFrame(w: seq<int>, base: int, lo: nat, level: nat, index: nat, m: MergeRegs)
    requires |w| == WORDS && SortGeo(base, lo, level, index, m)
    ensures var op := MergeOp(m);
            !op.Idle? && op.loc.Work? && InRange(w, op.loc.a) && InHalf(base, lo, op.loc.a)
    ensures var m' := MergeNext(m, Read(w, MergeOp(m)));
            m'.h == Pow2(level) && (m'.pc.Merged? || SortGeo(base, lo, level, index, m'))
  {
    SortRoom(w, base, lo, level, index);
    MergeStepFrame(m, w, Src(base, level, index), Dst(base, level, index), Pow2(level));
  }

  lemma StartGeo(base: int, lo: nat, level: nat, index: nat)
    requires 0 <= base < 8 && (lo == 0 || lo == HALF) && level < LEVELS
    requires lo <= index < lo + HALF && Multiple(index - lo, 2 * Pow2(level))
    ensures SortGeo(base, lo, level, index, StartMerge(base, level, index))
  {
    hide Pow2;
  }

  /** The next block, or the next level, starts inside the half again. */
  lemma SortGeoNext(base: int, lo: nat, level: nat, index: nat)
    requires 0 <= base < 8 && (lo == 0 || lo == HALF) && level < LEVELS
    requires lo <= index < lo + HALF && Multiple(index - lo, 2 * Pow2(level))
    ensures var j := index + 2 * Pow2(level);
            && j <= lo + HALF && j % 2 == 0
            && (j < lo + HALF ==> SortGeo(base, lo, level, j, StartMerge(base, level, j)))
            && (level + 1 < LEVELS ==> SortGeo(base, lo, level + 1, lo, StartMerge(base, level + 1, lo)))
  {
    hide Pow2;
    Blocks(level, index - lo);
    var j := index + 2 * Pow2(level);
    assert j - lo == index - lo + 2 * Pow2(level);
    if j < lo + HALF {
      StartGeo(base, lo, level, j);
    }
    if level + 1 < LEVELS {
      StartGeo(base, lo, level + 1, lo);
    }
  }

  /** Appending the next merged block to the finished part of a pass. */
  lemma PassNext(src: seq<int>, done: seq<int>, k: nat, h: nat)
    requires h > 0 && k + 2 * h <= |src| && |done| == k
    requires done + Pass(src[k..], h) == Pass(src, h)
    ensures (done + Merge(src[k..k + h], src[k + h..k + 2 * h])) + Pass(src[k + 2 * h..], h) == Pass(src, h)
  {
    var t := src[k..];
    assert t[..h] == src[k..k + h] && t[h..2 * h] == src[k + h..k + 2 * h] && t[2 * h..] == src[k + 2 * h..];
    assert Pass(t, h) == Merge(t[..h], t[h..2 * h]) + Pass(t[2 * h..], h);
  }

  /** The store of a merge leaves the source half and the finished part of the destination alone. */
  lemma SortStoreFrame(w: seq<int>, base: int, lo: nat, level: nat, index: nat, m: MergeRegs)
    requires |w| == WORDS && SortGeo(base, lo, level, index, m)
    ensures var u := After(w, MergeOp(m));
            && |u| == WORDS
            && Half(u, base, level % 2, lo) == Half(w, base, level % 2, lo)
            && Half(u, base, 1 - level % 2, lo)[..index - lo] == Half(w, base, 1 - level % 2, lo)[..index - lo]
  {
    hide Pow2;
    SortRoom(w, base, lo, level, index);
    MergeStepFrame(m, w, Src(base, level, index), Dst(base, level, index), Pow2(level));
    hide MergeNext, Multiple;
    var op := MergeOp(m);
    if op.Store? {
      StoreAside(w, base, lo, level % 2, index, op.loc.a, op.v);
    }
  }

  /** A store at or above the index, in the other bank. */
  lemma StoreAside(w: seq<int>, base: int, lo: nat, bank: nat, index: nat, a: int, v: int)
    requires |w| == WORDS && 0 <= base < 8 && (lo == 0 || lo == HALF) && lo <= index < lo + HALF && bank < 2
    requires base + (1 - bank) * N + index <= a < base + (1 - bank) * N + lo + HALF
    ensures var u := w[a := v];
            && Half(u, base, bank, lo) == Half(w, base, bank, lo)
            && Half(u, base, 1 - bank, lo)[..index - lo] == Half(w, base, 1 - bank, lo)[..index - lo]
  {
    var s0, t0 := base + bank * N + lo, base + (1 - bank) * N + lo;
    StoreAway(w, a, v, s0, s0 + HALF);
    StoreAway(w, a, v, t0, t0 + (index - lo));
    HalfPrefix(w, base, 1 - bank, lo, index - lo);
    HalfPrefix(w[a := v], base, 1 - bank, lo, index - lo);
  }

  lemma HalfPrefix(w: seq<int>, base: int, bank: nat, lo: nat, k: nat)
    requires |w| == WORDS && 0 <= base < 8 && bank < 2 && lo <= HALF && k <= HALF
    ensures Half(w, base, bank, lo)[..k] == w[base + bank * N + lo..base + bank * N + lo + k]
  {
  }

  lemma HalfBlock(w: seq<int>, base: int, bank: nat, lo: nat, k: nat, n: nat)
    requires |w| == WORDS && 0 <= base < 8 && bank < 2 && lo <= HALF && k <= n <= HALF
    ensures Half(w, base, bank, lo)[k..n] == w[base + bank * N + lo + k..base + bank * N + lo + n]
  {
    SubSlice(w, base + bank * N + lo, base + bank * N + lo + HALF, k, n);
  }

  lemma SubSlice(w: seq<int>, x: int, y: int, k: int, n: int)
    requires 0 <= x <= y <= |w| && 0 <= k <= n <= y - x
    ensures w[x..y][k..n] == w[x + k..x + n]
  {
    var p, q := w[x..y][k..n], w[x + k..x + n];
    forall i | 0 <= i < n - k
      ensures p[i] == q[i]
    {
      assert p[i] == w[x..y][k + i];
    }
  }

  /** An access inside a block keeps the half-sort invariant. */
  lemma SortStepInside(w: seq<int>, base: int, lo: nat, level: nat, index: nat, m: MergeRegs, input: seq<int>)
    requires Sorting(w, base, lo, level, index, m, input)
    requires !MergeNext(m, Read(w, MergeOp(m))).pc.Merged?
    ensures Sorting(After(w, MergeOp(m)), base, lo, level, index, MergeNext(m, Read(w, MergeOp(m))), input)
  {
    hide Pow2, Merge, Pass, Passes, MergeData, Multiple, Half, MergeOp, MergeNext, After, Read;
    SortStoreFrame(w, base, lo, level, index, m);
    SortFrame(w, base, lo, level, index, m);
    MergeStep(m, w, Src(base, level, index), Dst(base, level, index), Pow2(level));
  }

  /** The access that ends a block: the destination block is the merge of the source blocks. */
  lemma BlockMerged(w: seq<int>, base: int, lo: nat, level: nat, index: nat, m: MergeRegs, input: seq<int>)
    requires Sorting(w, base, lo, level, index, m, input)
    requires MergeNext(m, Read(w, MergeOp(m))).pc.Merged?
    ensures var u := After(w, MergeOp(m));
            var h, k := Pow2(level), index - lo;
            && |u| == WORDS && k + 2 * h <= HALF
            && var src, dst := Half(u, base, level % 2, lo), Half(u, base, 1 - level % 2, lo);
            dst[k..k + 2 * h] == Merge(src[k..k + h], src[k + h..k + 2 * h])
  {
    hide Pow2, Merge, Pass, Passes, MergeData, Multiple, Half, MergeOp, MergeNext, After, Read;
    var a0, d0, h, k := Src(base, level, index), Dst(base, level, index), Pow2(level), index - lo;
    MergeStep(m, w, a0, d0, h);
    var u := After(w, MergeOp(m));
    HalfBlock(u, base, level % 2, lo, k, k + 2 * h);
    HalfBlock(u, base, 1 - level % 2, lo, k, k + 2 * h);
    SplitBlock(Half(u, base, level % 2, lo), k, h);
  }

  /** ... and extends the finished part of the pass by that block. */
  lemma SortStepBlock(w: seq<int>, base: int, lo: nat, level: nat, index: nat, m: MergeRegs, input: seq<int>)
    requires Sorting(w, base, lo, level, index, m, input)
    requires MergeNext(m, Read(w, MergeOp(m))).pc.Merged?
    ensures var u := After(w, MergeOp(m));
            var h, k := Pow2(level), index + 2 * Pow2(level) - lo;
            && |u| == WORDS && k <= HALF
            && var src, dst := Half(u, base, level % 2, lo), Half(u, base, 1 - level % 2, lo);
            && src == Passes(input, level)
            && dst[..k] + Pass(src[k..], h) == Pass(src, h)
  {
    hide Pow2, Merge, Pass, Passes, MergeData, Multiple, Half, Rest;
    SortStoreFrame(w, base, lo, level, index, m);
    BlockMerged(w, base, lo, level, index, m, input);
    var h, k := Pow2(level), index - lo;
    var u := After(w, MergeOp(m));
    var src, dst := Half(u, base, level % 2, lo), Half(u, base, 1 - level % 2, lo);
    BlockAppended(src, dst, dst[..k], dst[k..k + 2 * h], k, h);
  }

  lemma SplitBlock(src: seq<int>, k: nat, h: nat)
    requires k + 2 * h <= |src|
    ensures src[k..k + 2 * h][..h] == src[k..k + h]
    ensures src[k..k + 2 * h][h..] == src[k + h..k + 2 * h]
  {
    SubSlice(src, k, k + 2 * h, 0, h);
    SubSlice(src, k, k + 2 * h, h, 2 * h);
  }

  lemma BlockAppended(src: seq<int>, dst: seq<int>, done: seq<int>, block: seq<int>, k: nat, h: nat)
    requires |dst| == |src| && h > 0 && k + 2 * h <= |src|
    requires done == dst[..k] && block == dst[k..k + 2 * h]
    requires done + Pass(src[k..], h) == Pass(src, h)
    requires block == Merge(src[k..k + h], src[k + h..k + 2 * h])
    ensures dst[..k + 2 * h] + Pass(src[k + 2 * h..], h) == Pass(src, h)
  {
    hide Merge, Pass;
    PassNext(src, done, k, h);
    Concat(dst, k, k + 2 * h);
  }

  lemma Concat(d: seq<int>, k: nat, n: nat)
    requires k <= n <= |d|
    ensures d[..n] == d[..k] + d[k..n]
  {
  }

  lemma SortNextBlock(u: seq<int>, base: int, lo: nat, level: nat, index: nat, input: seq<int>)
    requires |u| == WORDS && 0 <= base < 8 && (lo == 0 || lo == HALF) && level < LEVELS
    requires lo <= index < lo + HALF && Multiple(index - lo, 2 * Pow2(level))
    requires var src, dst := Half(u, base, level % 2, lo), Half(u, base, 1 - level % 2, lo);
             var k, h := index - lo, Pow2(level);
             && src == Passes(input, level) && dst[..k] + Pass(src[k..], h) == Pass(src, h)
    ensures Sorting(u, base, lo, level, index, StartMerge(base, level, index), input)
  {
    hide Pow2, Merge, Pass, Passes, MergeData, Multiple;
    SortRoom(u, base, lo, level, index);
    StartMergeOk(u, base, level, index);
    StartGeo(base, lo, level, index);
  }

  lemma PassComplete(src: seq<int>, dst: seq<int>, h: nat, input: seq<int>, level: nat)
    requires h == Pow2(level) && |dst| == |src| == HALF && src == Passes(input, level)
    requires dst[..HALF] + Pass(src[HALF..], h) == Pass(src, h)
    ensures dst == Passes(input, level + 1)
  {
    hide Merge;
    assert src[HALF..] == [];
    assert dst[..HALF] == dst;
  }

  /** A finished pass is the source of the next level. */
  lemma SortNextLevel(u: seq<int>, base: int, lo: nat, level: nat, input: seq<int>)
    requires |u| == WORDS && 0 <= base < 8 && (lo == 0 || lo == HALF) && level < LEVELS
    requires var src, dst := Half(u, base, level % 2, lo), Half(u, base, 1 - level % 2, lo);
             src == Passes(input, level) && dst[..HALF] + Pass(src[HALF..], Pow2(level)) == Pass(src, Pow2(level))
    ensures Half(u, base, (level + 1) % 2, lo) == Passes(input, level + 1)
    ensures level + 1 < LEVELS ==> Sorting(u, base, lo, level + 1, lo, StartMerge(base, level + 1, lo), input)
  {
    hide Half, Merge, Pass, Passes, MergeData, Sorting, Pow2;
    var src, dst := Half(u, base, level % 2, lo), Half(u, base, 1 - level % 2, lo);
    PassComplete(src, dst, Pow2(level), input, level);
    if level + 1 < LEVELS {
      assert dst[0..] == dst;
      assert (level + 1) % 2 == 1 - level % 2;
      SortNextBlock(u, base, lo, level + 1, lo, input);
    }
  }

  /** Where a half-sort stands after one access; `last` is where its block loop ends. */
  ghost predicate Stepped(u: seq<int>, base: int, lo: nat, level: nat, index: nat, m: MergeRegs, input: seq<int>) {
    if !m.pc.Merged? then Sorting(u, base, lo, level, index, m, input)
    else
      var j := index + 2 * Pow2(level);
      && |u| == WORDS && 0 <= base < 8 && lo <= HALF
      && j % 2 == 0
      && if j < lo + HALF then Sorting(u, base, lo, level, j, StartMerge(base, level, j), input)
         else if level + 1 < LEVELS then Sorting(u, base, lo, level + 1, lo, StartMerge(base, level + 1, lo), input)
         else Half(u, base, 0, lo) == Passes(input, LEVELS)
  }

  /** One access of a half-sort: still sorting, or the half holds its sorted input in bank 0. */
  lemma SortStep(w: seq<int>, base: int, lo: nat, level: nat, index: nat, m: MergeRegs, input: seq<int>)
    requires Sorting(w, base, lo, level, index, m, input)
    ensures Stepped(After(w, MergeOp(m)), base, lo, level, index, MergeNext(m, Read(w, MergeOp(m))), input)
  {
    hide Pow2, Merge, Pass, Passes, MergeData, Multiple, Half, MergeOp, MergeNext, After, Read, StartMerge, MergeGeo;
    var m' := MergeNext(m, Read(w, MergeOp(m)));
    if !m'.pc.Merged? {
      SortStepInside(w, base, lo, level, index, m, input);
    } else {
      var u := After(w, MergeOp(m));
      SortStepBlock(w, base, lo, level, index, m, input);
      SortGeoNext(base, lo, level, index);
      var j := index + 2 * Pow2(level);
      if j < lo + HALF {
        SortNextBlock(u, base, lo, level, j, input);
      } else {
        SortNextLevel(u, base, lo, level, input);
      }
    }
  }

  /** A store outside the half does not disturb its sort. */
  lemma SortForeign(w: seq<int>, a: int, v: int, base: int, lo: nat, level: nat, index: nat, m: MergeRegs,
                    input: seq<int>)
    requires Sorting(w, base, lo, level, index, m, input)
    requires InRange(w, a) && !InHalf(base, lo, a)
    ensures Sorting(w[a := v], base, lo, level, index, m, input)
  {
    hide Pow2, Merge, Pass, Passes, MergeData, Multiple;
    var a0, d0, h := Src(base, level, index), Dst(base, level, index), Pow2(level);
    StoreAway(w, a, v, a0, a0 + 2 * h);
    StoreAway(w, a, v, d0, m.d);
    HalfForeign(w, a, v, base, lo);
  }

  lemma HalfForeign(w: seq<int>, a: int, v: int, base: int, lo: nat)
    requires |w| == WORDS && 0 <= base < 8 && lo <= HALF && InRange(w, a) && !InHalf(base, lo, a)
    ensures Half(w[a := v], base, 0, lo) == Half(w, base, 0, lo)
    ensures Half(w[a := v], base, 1, lo) == Half(w, base, 1, lo)
  {
    StoreAway(w, a, v, base + lo, base + lo + HALF);
    StoreAway(w, a, v, base + N + lo, base + N + lo + HALF);
  }
}
