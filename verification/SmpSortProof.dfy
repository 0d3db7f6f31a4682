/**
  The invariant of every interleaving of the two-CPU merge sort and what follows from it.
 */
module SmpSortProof {
  import opened Arithmetic
  import opened MergeSpec
  import opened SmpSort
  import opened SmpMergeProof
  import opened SmpHalfProof

  // ----- the handshake -----

  /** How many rounds cpu0 has announced. */
  ghost function Published(p: Cpu0): nat {
    if p.pc in {Sort0, Poll, Final, Sum1, Sum2} then p.round + 1 else p.round
  }

  ghost predicate Preparing(p: Cpu0) { p.pc in {Init0, Init1, Publish} }
  ghost predicate Active(p: Cpu0) { p.pc in {Sort0, Poll} }
  ghost predicate Collecting(p: Cpu0) { p.pc in {Final, Sum1, Sum2} }
  ghost predicate Waiting(p: Cpu1) { p.pc in {WaitStop, WaitSame} }

  ghost predicate Control(c: Config, s: State) {
    var p0, p1 := s.p0, s.p1;
    && |s.mem.work| == WORDS && s.mem.ptrA == c.off
    && s.mem.ctl01 == (if p0.pc.Done? || Published(p0) == 0 then STOP else Published(p0) - 1)
    && s.mem.ctl10 == (if Waiting(p1) then p1.round else if p1.round == 0 then STOP else p1.round - 1)
    && (!p0.pc.Finish? && !p0.pc.Done? ==> p0.round < c.limit)
    && (p0.pc.Finish? || p0.pc.Done? ==> p0.round == if c.limit < 0 then 0 else c.limit)
    && (p0.pc.Done? ==> p1.round <= p0.round && (p1.round == p0.round ==> !p1.pc.WaitSame?))
    && (p0.pc in {Init0, Init1, Sum1, Sum2} ==> p0.i < N)
    && (!p1.pc.First? && !p1.pc.GetPtr? ==> p1.ptr == c.off)
  }

  /** Which phases of the two programs can coexist. */
  ghost predicate Handshake(c: Config, s: State) {
    var p0, p1 := s.p0, s.p1;
    match p1.pc
    case First => p1.round == 0 && p0.round == 0 &&
      (if c.limit <= 0 then p0.pc.Finish? || p0.pc.Done? else Preparing(p0) || Active(p0))
    case GetPtr => p1.round == 0 && p0.round == 0 && Active(p0)
    case Sort1 => p0.pc.Done? || (Active(p0) && p0.round == p1.round)
    case Notify => p0.pc.Done? || (Active(p0) && p0.round == p1.round)
    case Halted => p0.pc.Done?
    case _ =>
      || p0.pc.Done?
      || (p0.round == p1.round && (Active(p0) || Collecting(p0)))
      || (p0.round == p1.round + 1 && (Preparing(p0) || Active(p0) || p0.pc.Finish?))
  }

  // ----- the data -----

  ghost function Lower(c: Config): (r: seq<int>)
    requires ConfigOk(c)
    ensures |r| == HALF
  { c.input[..HALF] }

  ghost function Upper(c: Config): (r: seq<int>)
    requires ConfigOk(c)
    ensures |r| == HALF
  { c.input[HALF..] }

  ghost function Result(c: Config): (r: seq<int>)
    requires ConfigOk(c)
    ensures |r| == N
  { Merge(Passes(Lower(c), LEVELS), Passes(Upper(c), LEVELS)) }

  ghost function Sum(s: seq<int>): int { if s == [] then 0 else Sum(s[..|s| - 1]) + s[|s| - 1] }
  ghost function Weighted(s: seq<int>): int {
    if s == [] then 0 else Weighted(s[..|s| - 1]) + (|s| - 1) * s[|s| - 1]
  }

  /** What cpu0's own part of the work array holds. */
  ghost predicate Data0(c: Config, w: seq<int>, p: Cpu0)
    requires ConfigOk(c) && |w| == WORDS
  {
    match p.pc
    case Init0 => p.i < N && w[c.off..c.off + p.i] == c.input[..p.i]
    case Init1 => p.i < N && w[c.off..c.off + p.i + 1] == c.input[..p.i + 1]
    case Publish => w[c.off..c.off + N] == c.input
    case Sort0 => Sorting(w, c.off, 0, p.level, p.index, p.m, Lower(c))
    case Poll => Half(w, c.off, 0, 0) == Passes(Lower(c), LEVELS)
    case Final => FinalData(c, w, p.m)
    case Sum1 => p.i < N && SumData(c, w, p, p.i)
    case Sum2 => p.i < N && SumData(c, w, p, p.i + 1)
    case _ => true
  }

  ghost predicate FinalData(c: Config, w: seq<int>, m: MergeRegs)
    requires ConfigOk(c) && |w| == WORDS
  {
    && MergeGeo(m, c.off, c.off + N, HALF)
    && w[c.off..c.off + N] == Passes(Lower(c), LEVELS) + Passes(Upper(c), LEVELS)
    && MergeData(m, w[c.off..c.off + 2 * HALF], w[c.off + N..m.d], c.off, c.off + N)
  }

  ghost predicate SumData(c: Config, w: seq<int>, p: Cpu0, n: nat)
    requires ConfigOk(c) && |w| == WORDS && p.i <= N && n <= N
  {
    && w[c.off + N..c.off + 2 * N] == Result(c)
    && p.sum1 == Sum(Result(c)[..n])
    && p.sum2 == Weighted(Result(c)[..p.i])
  }

  /** What the upper half holds while a round is under way. */
  ghost predicate Data1(c: Config, w: seq<int>, p0: Cpu0, p1: Cpu1)
    requires ConfigOk(c) && |w| == WORDS
  {
    && (p1.pc.Sort1? ==> SortGeo(c.off, HALF, p1.level, p1.index, p1.m))
    && (Active(p0) ==>
          if p1.pc.Sort1? then Sorting(w, c.off, HALF, p1.level, p1.index, p1.m, Upper(c))
          else if p1.pc.Notify? || (Waiting(p1) && p1.round == p0.round)
          then Half(w, c.off, 0, HALF) == Passes(Upper(c), LEVELS)
          else Half(w, c.off, 0, HALF) == Upper(c))
  }

  /** The input is a permutation of 0 .. N-1. */
  ghost predicate Permutation(c: Config) {
    multiset(c.input) == multiset(Counting(|c.input|))
  }

  ghost function Counting(n: nat): (s: seq<int>)
    ensures |s| == n && forall i :: 0 <= i < n ==> s[i] == i
  {
    if n == 0 then [] else Counting(n - 1) + [n - 1]
  }

  /** The sorted input does not have the sums of 0 .. N-1. */
  ghost predicate Differs(c: Config)
    requires ConfigOk(c)
  {
    Sum(Result(c)) % 0x1_0000_0000 != 130816 || Weighted(Result(c)) % 0x1_0000_0000 != 44608256
  }

  ghost predicate Inv(c: Config, s: State) {
    Control(c, s) && Handshake(c, s) && DataOk(c, s)
  }

  ghost predicate DataOk(c: Config, s: State) {
    && ConfigOk(c) && |s.mem.work| == WORDS
    && Data0(c, s.mem.work, s.p0)
    && Data1(c, s.mem.work, s.p0, s.p1)
    && s.p0.diffs == (if Differs(c) then s.p0.round else 0)
  }

  // ----- the sums -----

  lemma {:induction false} SumsOfCounting(n: nat)
    ensures 2 * Sum(Counting(n)) == n * (n - 1)
    ensures n > 0 ==> 6 * Weighted(Counting(n)) == 2 * (n - 1) * (n - 1) * (n - 1) + 3 * (n - 1) * (n - 1) + (n - 1)
    ensures n == 0 ==> Weighted(Counting(n)) == 0
  {
    SumsUnfold(n);
    hide Sum, Weighted, Counting;
    if n > 0 {
      SumsOfCounting(n - 1);
      TriangleStep(n);
      if n > 1 {
        CubeStep(n - 1);
      }
    }
  }

  lemma SumsUnfold(n: nat)
    ensures n == 0 ==> Sum(Counting(n)) == 0 && Weighted(Counting(n)) == 0
    ensures n > 0 ==> Sum(Counting(n)) == Sum(Counting(n - 1)) + (n - 1)
    ensures n > 0 ==> Weighted(Counting(n)) == Weighted(Counting(n - 1)) + (n - 1) * (n - 1)
  {
    if n > 0 {
      assert Counting(n)[..n - 1] == Counting(n - 1);
    }
  }

  lemma TriangleStep(n: int)
    ensures (n - 1) * (n - 2) + 2 * (n - 1) == n * (n - 1)
  {
  }

  lemma CubeStep(k: int)
    ensures 2 * (k - 1) * (k - 1) * (k - 1) + 3 * (k - 1) * (k - 1) + (k - 1) + 6 * (k * k)
            == 2 * k * k * k + 3 * k * k + k
  {
  }

  lemma HalfLog()
    ensures Pow2(LEVELS) == HALF
  {
    HalfIsPower();
  }

  /** What the final merge leaves in bank 1 is the sorted input. */
  lemma ResultSorted(c: Config)
    requires ConfigOk(c)
    ensures Sorted(Result(c)) && multiset(Result(c)) == multiset(c.input)
  {
    hide Merge, Passes;
    HalfLog();
    SortHalvesSorts(c.input, LEVELS);
  }

  /** On a permutation of 0..N-1 the checksums are the expected ones. */
  lemma SumsExpected(c: Config)
    requires ConfigOk(c) && Permutation(c)
    ensures Sum(Result(c)) == 130816 && Weighted(Result(c)) == 44608256
  {
    hide Merge, Passes, Sum, Weighted, Counting;
    ResultSorted(c);
    assert Sorted(Counting(N));
    SortedUnique(Result(c), Counting(N));
    SumsOfCounting(N);
  }

  // ----- control steps: no data involved -----

  ghost predicate Coupled(c: Config, s: State) { Control(c, s) && Handshake(c, s) }

  lemma Control0(c: Config, s: State)
    requires ConfigOk(c) && Coupled(c, s)
    ensures Coupled(c, Step0(c, s))
  {
    hide Merge, Pow2, StartMerge;
  }

  lemma Control1(c: Config, s: State)
    requires ConfigOk(c) && Coupled(c, s)
    ensures Coupled(c, Step1(s))
  {
    hide Merge, Pow2, StartMerge;
  }

  // ----- data steps of cpu0 -----

  lemma InitStep(c: Config, s: State)
    requires ConfigOk(c) && DataOk(c, s) && (s.p0.pc.Init0? || s.p0.pc.Init1?)
    ensures DataOk(c, Step0(c, s))
  {
    hide Merge, Pass, Passes, Sorting, SortGeo, Half, Differs;
    var w, off, i := s.mem.work, c.off, s.p0.i;
    if s.p0.pc.Init0? {
      StoreNext(w, off, off + i, c.input[i]);
      assert c.input[..i + 1] == c.input[..i] + [c.input[i]];
    } else {
      StoreAway(w, off + N + i, 0, off, off + i + 1);
      assert i + 1 == N ==> c.input[..N] == c.input;
    }
  }

  lemma Announced(c: Config, w: seq<int>)
    requires ConfigOk(c) && |w| == WORDS && w[c.off..c.off + N] == c.input
    ensures Half(w, c.off, 0, 0) == Lower(c) && Half(w, c.off, 0, HALF) == Upper(c)
  {
    SubSlice(w, c.off, c.off + N, 0, HALF);
    SubSlice(w, c.off, c.off + N, HALF, N);
  }

  lemma PublishStep(c: Config, s: State)
    requires ConfigOk(c) && Coupled(c, s) && DataOk(c, s) && s.p0.pc.Publish?
    ensures DataOk(c, Step0(c, s))
  {
    hide Merge, Pass, Passes, Sorting, SortGeo, Half, StartMerge, Differs;
    Announced(c, s.mem.work);
    SortBegins(s.mem.work, c.off, 0);
  }

  /** An access of a half-sort acts on the shared memory only through the work array. */
  lemma WorkOnly(mem: Memory, m: MergeRegs)
    requires MergeOp(m).Idle? || (MergeOp(m).loc.Work? && InRange(mem.work, MergeOp(m).loc.a))
    ensures Loaded(mem, MergeOp(m)) == Read(mem.work, MergeOp(m))
    ensures Perform(mem, MergeOp(m)) == mem.(work := After(mem.work, MergeOp(m)))
  {
  }

  /** cpu1's data survives an access of cpu0's half-sort. */
  lemma UpperKept(c: Config, w: seq<int>, p0: Cpu0, p1: Cpu1, op: Op)
    requires ConfigOk(c) && |w| == WORDS && Data1(c, w, p0, p1) && Active(p0)
    requires op.Store? ==> op.loc.Work? && InRange(w, op.loc.a) && InHalf(c.off, 0, op.loc.a)
    ensures |After(w, op)| == WORDS && Data1(c, After(w, op), p0, p1)
  {
    hide Merge, Pass, Passes, SortGeo, Half, Sorting;
    if op.Store? {
      HalfForeign(w, op.loc.a, op.v, c.off, HALF);
      if p1.pc.Sort1? {
        SortForeign(w, op.loc.a, op.v, c.off, HALF, p1.level, p1.index, p1.m, Upper(c));
      }
    }
  }

  lemma Sort0Step(c: Config, s: State)
    requires ConfigOk(c) && DataOk(c, s) && s.p0.pc.Sort0?
    ensures DataOk(c, Step0(c, s))
  {
    hide Merge, Pass, Passes, SortData, Half, StartMerge, Multiple, MergeGeo, MergeOp, MergeNext, Differs, Room,
         After, Read;
    var w, p := s.mem.work, s.p0;
    SortStep(w, c.off, 0, p.level, p.index, p.m, Lower(c));
    SortFrame(w, c.off, 0, p.level, p.index, p.m);
    WorkOnly(s.mem, p.m);
    UpperKept(c, w, p, s.p1, MergeOp(p.m));
  }

  lemma PollStep(c: Config, s: State)
    requires ConfigOk(c) && Coupled(c, s) && DataOk(c, s) && s.p0.pc.Poll?
    ensures DataOk(c, Step0(c, s))
  {
    hide Merge, Pass, Passes, Sorting, SortGeo, Half, StartMerge, Rest, MergeData, Differs, FinalData;
    if s.mem.ctl10 == s.p0.round {
      assert Waiting(s.p1) && s.p1.round == s.p0.round;
      FinalBegins(c, s.mem.work);
    }
  }

  lemma FinalBegins(c: Config, w: seq<int>)
    requires ConfigOk(c) && |w| == WORDS
    requires Half(w, c.off, 0, 0) == Passes(Lower(c), LEVELS)
    requires Half(w, c.off, 0, HALF) == Passes(Upper(c), LEVELS)
    ensures FinalData(c, w, StartMerge(c.off, LEVELS, 0))
  {
    hide Merge, Pass, Passes, Rest, MergeData, Pow2, StartMerge, MergeGeo;
    HalfLog();
    StartMergeOk(w, c.off, LEVELS, 0);
    StartMergeIs(c.off, LEVELS, 0);
    TwoHalves(w, c.off);
  }

  lemma TwoHalves(w: seq<int>, off: int)
    requires |w| == WORDS && 0 <= off < 8
    ensures w[off..off + N] == Half(w, off, 0, 0) + Half(w, off, 0, HALF)
  {
    assert w[off..off + N] == w[off..off + HALF] + w[off + HALF..off + N];
  }

  lemma FinalStep(c: Config, s: State)
    requires ConfigOk(c) && DataOk(c, s) && s.p0.pc.Final?
    ensures DataOk(c, Step0(c, s))
  {
    hide Merge, Pass, Passes, Sorting, SortGeo, Half, Rest, MergeData, MergeOp, MergeNext, MergeGeo, Differs, After,
         Read, Result;
    var w, m := s.mem.work, s.p0.m;
    MergeStep(m, w, c.off, c.off + N, HALF);
    MergeStepFrame(m, w, c.off, c.off + N, HALF);
    WorkOnly(s.mem, m);
    FinalEnds(c, w[c.off..c.off + N]);
  }

  lemma FinalEnds(c: Config, S: seq<int>)
    requires ConfigOk(c) && S == Passes(Lower(c), LEVELS) + Passes(Upper(c), LEVELS)
    ensures |S| == N && Merge(S[..HALF], S[HALF..]) == Result(c)
  {
    hide Merge, Passes;
    assert S[..HALF] == Passes(Lower(c), LEVELS) && S[HALF..] == Passes(Upper(c), LEVELS);
  }

  lemma SumStep(c: Config, s: State)
    requires ConfigOk(c) && Coupled(c, s) && DataOk(c, s) && (s.p0.pc.Sum1? || s.p0.pc.Sum2?)
    ensures DataOk(c, Step0(c, s))
  {
    hide Merge, Pass, Passes, Sorting, SortGeo, Half, Result, Differs;
    var r, i := Result(c), s.p0.i;
    assert s.mem.work[c.off + N..c.off + 2 * N][i] == r[i];
    assert r[..i + 1][..i] == r[..i];
    if i + 1 == N && s.p0.pc.Sum2? {
      assert r[..N] == r;
      ExpectedAre();
      DiffersIf(c);
    }
  }

  lemma ExpectedAre()
    ensures Expected1() == 130816 && Expected2() == 44608256
  {
  }

  lemma DiffersIf(c: Config)
    requires ConfigOk(c)
    ensures Differs(c) <==> !(Sum(Result(c)) % 0x1_0000_0000 == 130816 &&
                              Weighted(Result(c)) % 0x1_0000_0000 == 44608256)
  {
    hide Result, Sum, Weighted;
  }

  lemma FinishStep(c: Config, s: State)
    requires ConfigOk(c) && DataOk(c, s) && (s.p0.pc.Finish? || s.p0.pc.Done?)
    ensures DataOk(c, Step0(c, s))
  {
    hide Merge, Pass, Passes, Sorting, SortGeo, Half, Differs, FinalData, SumData, Lower, Upper;
  }

  // ----- data steps of cpu1 -----

  /** cpu0's data survives an access of cpu1's half-sort. */
  lemma LowerKept(c: Config, w: seq<int>, p0: Cpu0, op: Op)
    requires ConfigOk(c) && |w| == WORDS && Data0(c, w, p0) && (Active(p0) || p0.pc.Done?)
    requires op.Store? ==> op.loc.Work? && InRange(w, op.loc.a) && InHalf(c.off, HALF, op.loc.a)
    ensures |After(w, op)| == WORDS && Data0(c, After(w, op), p0)
  {
    hide Merge, Pass, Passes, SortGeo, Half, Sorting;
    if op.Store? {
      HalfForeign(w, op.loc.a, op.v, c.off, 0);
      if p0.pc.Sort0? {
        SortForeign(w, op.loc.a, op.v, c.off, 0, p0.level, p0.index, p0.m, Lower(c));
      }
    }
  }

  lemma SortingGeo(w: seq<int>, base: int, lo: nat, level: nat, index: nat, m: MergeRegs, input: seq<int>)
    requires Sorting(w, base, lo, level, index, m, input)
    ensures SortGeo(base, lo, level, index, m)
  {
  }

  lemma Sort1Geo(c: Config, s: State)
    requires Coupled(c, s) && DataOk(c, s) && s.p1.pc.Sort1?
    ensures var p := Step1(s).p1; p.pc.Sort1? ==> SortGeo(c.off, HALF, p.level, p.index, p.m)
  {
    hide Merge, Pass, Passes, SortData, Half, StartMerge, Multiple, MergeGeo, MergeOp, MergeNext, Differs, Room,
         After, Read, Sorting, Data0;
    var p := s.p1;
    SortFrame(s.mem.work, c.off, HALF, p.level, p.index, p.m);
    WorkOnly(s.mem, p.m);
    SortGeoNext(c.off, HALF, p.level, p.index);
  }

  lemma Sort1Data(c: Config, s: State)
    requires Coupled(c, s) && DataOk(c, s) && s.p1.pc.Sort1? && Active(s.p0)
    ensures var t := Step1(s); |t.mem.work| == WORDS && Data1(c, t.mem.work, t.p0, t.p1)
  {
    hide Merge, Pass, Passes, SortData, Half, StartMerge, Multiple, MergeGeo, MergeOp, MergeNext, Differs, Room,
         After, Read, Data0, SortGeo, Sorting;
    var w, p := s.mem.work, s.p1;
    Sort1Geo(c, s);
    SortFrame(w, c.off, HALF, p.level, p.index, p.m);
    SortStep(w, c.off, HALF, p.level, p.index, p.m, Upper(c));
    WorkOnly(s.mem, p.m);
    assert |After(w, MergeOp(p.m))| == WORDS by { LowerKept(c, w, s.p0, MergeOp(p.m)); }
  }

  lemma Sort1Step(c: Config, s: State)
    requires Coupled(c, s) && DataOk(c, s) && s.p1.pc.Sort1?
    ensures DataOk(c, Step1(s))
  {
    hide Merge, Pass, Passes, SortData, Half, StartMerge, Multiple, MergeGeo, MergeOp, MergeNext, Differs, Room,
         After, Read, Sorting, Data0, SortGeo;
    var p := s.p1;
    SortFrame(s.mem.work, c.off, HALF, p.level, p.index, p.m);
    WorkOnly(s.mem, p.m);
    LowerKept(c, s.mem.work, s.p0, MergeOp(p.m));
    if Active(s.p0) {
      Sort1Data(c, s);
    } else {
      Sort1Geo(c, s);
    }
  }

  lemma OtherStep1(c: Config, s: State)
    requires Coupled(c, s) && DataOk(c, s) && !s.p1.pc.Sort1?
    ensures DataOk(c, Step1(s))
  {
    hide Merge, Pass, Passes, Sorting, SortGeo, Half, Differs, FinalData, SumData, Lower, Upper, StartMerge, Data0;
    SortBegins(s.mem.work, c.off, HALF);
    SortingGeo(s.mem.work, c.off, HALF, 0, HALF, StartMerge(c.off, 0, HALF), Half(s.mem.work, c.off, 0, HALF));
  }

  // ----- all runs -----

  lemma InvStep0(c: Config, s: State)
    requires ConfigOk(c) && Inv(c, s)
    ensures Inv(c, Step0(c, s))
  {
    hide Control, Handshake, DataOk;
    Control0(c, s);
    match s.p0.pc
    case Init0 => InitStep(c, s);
    case Init1 => InitStep(c, s);
    case Publish => PublishStep(c, s);
    case Sort0 => Sort0Step(c, s);
    case Poll => PollStep(c, s);
    case Final => FinalStep(c, s);
    case Sum1 => SumStep(c, s);
    case Sum2 => SumStep(c, s);
    case Finish => FinishStep(c, s);
    case Done => FinishStep(c, s);
  }

  lemma InvStep1(c: Config, s: State)
    requires ConfigOk(c) && Inv(c, s)
    ensures Inv(c, Step1(s))
  {
    hide Control, Handshake, DataOk;
    Control1(c, s);
    if s.p1.pc.Sort1? {
      Sort1Step(c, s);
    } else {
      OtherStep1(c, s);
    }
  }

  lemma InvInitial(c: Config, s: State)
    requires ConfigOk(c) && Initial(c, s)
    ensures Inv(c, s)
  {
    hide Merge, Pass, Passes, Sorting, SortGeo, Half, Differs;
  }

  lemma {:induction false} RunInv(c: Config, t: seq<State>, k: nat)
    requires ConfigOk(c) && Run(c, t) && k < |t|
    ensures Inv(c, t[k])
    decreases k
  {
    hide Inv, Step0, Step1, Initial;
    if k == 0 {
      InvInitial(c, t[0]);
    } else {
      RunInv(c, t, k - 1);
      InvStep0(c, t[k - 1]);
      InvStep1(c, t[k - 1]);
    }
  }

  ghost predicate Touches(op: Op, a: int) { !op.Idle? && op.loc == Work(a) }

  /** In no reachable state are the two CPUs about to access the same work cell. */
  lemma NoSharedCell(c: Config, t: seq<State>, k: nat, a: int)
    requires ConfigOk(c) && Run(c, t) && k < |t|
    ensures !(Touches(Op0(c, t[k].p0), a) && Touches(Op1(t[k].p1), a))
  {
    RunInv(c, t, k);
    CellsApart(c, t[k], a);
  }

  lemma CellsApart(c: Config, s: State, a: int)
    requires ConfigOk(c) && Inv(c, s)
    ensures !(Touches(Op0(c, s.p0), a) && Touches(Op1(s.p1), a))
  {
    hide Merge, Pass, Passes, SortData, Half, MergeGeo, MergeOp, MergeNext, Differs, Room, After, Read, SortGeo,
         Multiple;
    if s.p1.pc.Sort1? && s.p0.pc.Sort0? {
      SortFrame(s.mem.work, c.off, 0, s.p0.level, s.p0.index, s.p0.m);
      SortFrame(s.mem.work, c.off, HALF, s.p1.level, s.p1.index, s.p1.m);
    }
  }

  /** Every access of the work array stays inside the two banks. */
  lemma AccessesInBanks(c: Config, t: seq<State>, k: nat, a: int)
    requires ConfigOk(c) && Run(c, t) && k < |t|
    requires Touches(Op0(c, t[k].p0), a) || Touches(Op1(t[k].p1), a)
    ensures c.off <= a < c.off + 2 * N
  {
    RunInv(c, t, k);
    InBanks(c, t[k], a);
  }

  lemma InBanks(c: Config, s: State, a: int)
    requires ConfigOk(c) && Inv(c, s)
    requires Touches(Op0(c, s.p0), a) || Touches(Op1(s.p1), a)
    ensures c.off <= a < c.off + 2 * N
  {
    hide Merge, Pass, Passes, SortData, Half, MergeGeo, MergeOp, MergeNext, Differs, After, Read, SortGeo, Multiple,
         MergeData;
    if s.p1.pc.Sort1? {
      SortFrame(s.mem.work, c.off, HALF, s.p1.level, s.p1.index, s.p1.m);
    }
    if s.p0.pc.Sort0? {
      SortFrame(s.mem.work, c.off, 0, s.p0.level, s.p0.index, s.p0.m);
    }
    if s.p0.pc.Final? {
      MergeStepFrame(s.p0.m, s.mem.work, c.off, c.off + N, HALF);
    }
  }

  /** When cpu0 has ended a round's last merge, bank 1 holds the sorted input. */
  lemma SortedAfterMerge(c: Config, t: seq<State>, k: nat)
    requires ConfigOk(c) && Run(c, t) && k < |t| && (t[k].p0.pc.Sum1? || t[k].p0.pc.Sum2?)
    ensures |t[k].mem.work| == 1536
    ensures var bank1 := t[k].mem.work[c.off + 512..c.off + 1024];
            Sorted(bank1) && multiset(bank1) == multiset(c.input)
  {
    hide Merge, Pass, Passes, Sorting, SortGeo, Half, Differs, Result, Run, Sorted;
    RunInv(c, t, k);
    ResultSorted(c);
  }

  /**
    A difference is reported in every round or in none: in all finished rounds exactly when the sorted
    input does not have the plain sum 130816 and the weighted sum 44608256, in 32 bits.
   */
  lemma DifferenceExactly(c: Config, t: seq<State>, k: nat, sorted: seq<int>)
    requires ConfigOk(c) && Run(c, t) && k < |t| && Sorted(sorted) && multiset(sorted) == multiset(c.input)
    ensures t[k].p0.diffs ==
            if Sum(sorted) % 0x1_0000_0000 == 130816 && Weighted(sorted) % 0x1_0000_0000 == 44608256 then 0
            else t[k].p0.round
  {
    hide Run, Data0, Data1, Control, Handshake, Result, Sum, Weighted;
    RunInv(c, t, k);
    ResultSorted(c);
    SortedUnique(Result(c), sorted);
  }

  /** On a permutation of 0..N-1 no round ever reports a difference. */
  lemma NoDifference(c: Config, t: seq<State>, k: nat)
    requires ConfigOk(c) && Run(c, t) && k < |t|
    requires multiset(c.input) == multiset(Counting(|c.input|))
    ensures t[k].p0.diffs == 0
  {
    hide Run, Data0, Data1, Control, Handshake, Counting, Result, Sum, Weighted;
    RunInv(c, t, k);
    SumsExpected(c);
  }

  // ----- progress -----

  /** cpu0 polls for an acknowledgement that is not there. */
  ghost predicate Polling(s: State) { s.p0.pc.Poll? && s.mem.ctl10 != s.p0.round }

  /** cpu1 is in a wait loop that it cannot leave as memory stands. */
  ghost predicate Spinning(s: State) {
    match s.p1.pc
    case First => s.mem.ctl01 == STOP
    case WaitStop => s.mem.ctl01 == STOP || s.mem.ctl01 == s.p1.round
    case WaitSame => s.mem.ctl01 == s.p1.round
    case Halted => true
    case _ => false
  }

  /**
    While cpu0 waits for cpu1, cpu1 can always move on, with one exception: the round
    whose number is the stop word, when cpu1 has not yet made its first test.
   */
  lemma DeadlockExactly(c: Config, t: seq<State>, k: nat)
    requires ConfigOk(c) && Run(c, t) && k < |t| && Polling(t[k])
    ensures Spinning(t[k]) <==> t[k].p0.round == 0xffff && t[k].p1.pc.WaitStop?
    ensures c.limit <= 0xffff ==> !Spinning(t[k])
  {
    hide Run, DataOk;
    RunInv(c, t, k);
  }

  /** Once both wait at the stop word, no step of either CPU changes anything. */
  lemma StuckForever(c: Config, s: State)
    requires ConfigOk(c) && Polling(s) && s.p1.pc.WaitStop? && s.mem.ctl01 == STOP
    ensures Step0(c, s) == s && Step1(s) == s
  {
  }

  /** cpu1 starts at most one round that cpu0 never announced. */
  lemma AtMostOneExtraRound(c: Config, t: seq<State>, k: nat)
    requires ConfigOk(c) && Run(c, t) && k < |t| && c.limit >= 0
    ensures t[k].p1.round <= c.limit
  {
    hide Run, DataOk;
    RunInv(c, t, k);
  }

  /**
    That extra round does happen: the wait loop reads the control word twice, so the stop
    word stored between the two loads releases cpu1.
   */
  lemma ExtraRound(c: Config, t: seq<State>, k: nat)
    requires ConfigOk(c) && Run(c, t) && k < |t| && t[k].p0.pc.Finish? && t[k].p1.pc.WaitSame?
    requires c.limit < LAST_ROUND && c.limit != STOP + 1
    ensures var s := Step1(Step0(c, t[k])); s.p0.pc.Done? && s.p1.pc.Sort1? && s.p1.round == c.limit
  {
    hide Run, DataOk, StartMerge;
    RunInv(c, t, k);
  }

  // ----- runs -----

  /** The two CPUs in the order of a schedule: true stands for cpu1. */
  ghost function Schedule(c: Config, s: State, who: seq<bool>): seq<State>
    requires |c.input| == N
  {
    if who == [] then [s]
    else
      var t := Schedule(c, s, who[..|who| - 1]);
      if t == [] then [] else var l := t[|t| - 1]; t + [if who[|who| - 1] then Step1(l) else Step0(c, l)]
  }

  /** Every schedule of the two CPUs, from every initial memory, is a run. */
  lemma {:induction false} EverySchedule(c: Config, s: State, who: seq<bool>)
    requires ConfigOk(c) && Initial(c, s)
    ensures |Schedule(c, s, who)| == |who| + 1 && Run(c, Schedule(c, s, who))
    decreases |who|
  {
    hide Step0, Step1, Initial;
    if who != [] {
      var t, u := Schedule(c, s, who[..|who| - 1]), Schedule(c, s, who);
      EverySchedule(c, s, who[..|who| - 1]);
      assert u[..|t|] == t && u[0] == t[0];
      forall k {:trigger u[k]} | 0 < k < |u|
        ensures u[k] == Step0(c, u[k - 1]) || u[k] == Step1(u[k - 1])
      {
        assert u[k - 1] == t[k - 1];
        if k < |t| { assert u[k] == t[k]; }
      }
    }
  }

  /** There is an initial state for every input, whatever the work array holds. */
  lemma InitialExists(c: Config, w: seq<int>) returns (s: State)
    requires ConfigOk(c) && |w| == WORDS
    ensures Initial(c, s) && s.mem.work == w
  {
    s := State(Memory(w, STOP, STOP, c.off), StartRound(c, Cpu0(Init0, 0, 0, 0, 0, NO_REGS, 0, 0, 0)),
               Cpu1(First, 0, 0, 0, 0, NO_REGS));
  }
}
