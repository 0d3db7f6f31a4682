/**
  Fair schedules of the two-CPU merge sort.  A rank counts the accesses that are left, polls in vain
  not included: no access raises it, every useful one lowers it, and some CPU can always make a
  useful one, up to the end or the deadlock.
 */
module SmpFair {
  import opened Arithmetic
  import opened Schedules
  import opened SmpSort
  import opened SmpMergeProof
  import opened SmpHalfProof
  import opened SmpSortProof
  import opened SmpProgress

  // ----- accesses left -----

  const SORT_WORK: nat := 12288     // the accesses of one half-sort
  const MERGE_WORK: nat := 2052     // the accesses of the last merge
  const ROUND0: nat := 16392        // the accesses of cpu0 in one round
  const ROUND1: nat := 12292        // the accesses of cpu1 in one round

  /** An upper bound on the accesses a half-sort still makes: six for every element of every level. */
  ghost function SortWork(lo: nat, level: nat, index: nat, m: MergeRegs): int {
    (LEVELS - 1 - level) * (6 * HALF) + 6 * (lo + HALF - index - 2 * m.h) + MergeLeft(m) + 1
  }

  /** What is left of cpu0's round. */
  ghost function Stage0(p: Cpu0): int {
    match p.pc
    case Init0 => 4 + SORT_WORK + MERGE_WORK + 2 * N + 2 * (N - p.i)
    case Init1 => 3 + SORT_WORK + MERGE_WORK + 2 * N + 2 * (N - p.i)
    case Publish => 3 + SORT_WORK + MERGE_WORK + 2 * N
    case Sort0 => 1 + SortWork(0, p.level, p.index, p.m) + MERGE_WORK + 2 * N
    case Poll => 1 + MERGE_WORK + 2 * N
    case Final => MergeLeft(p.m) + 1 + 2 * N
    case Sum1 => 2 * (N - p.i)
    case Sum2 => 2 * (N - p.i) - 1
    case Finish => 0
    case Done => 0
  }

  ghost function RoundsOf(c: Config): nat { if c.limit < 0 then 0 else c.limit }

  ghost function Left0(c: Config, p: Cpu0): int {
    if p.pc.Done? then 0
    else if p.pc.Finish? then 1
    else (RoundsOf(c) - 1 - p.round) * ROUND0 + Stage0(p) + 1
  }

  /** What is left of cpu1's round; a wait counts once another round is announced. */
  ghost function Stage1(p: Cpu1, ctl01: int): int {
    match p.pc
    case First => 4 + SORT_WORK
    case GetPtr => 3 + SORT_WORK
    case Sort1 => 2 + SortWork(HALF, p.level, p.index, p.m)
    case Notify => 2
    case WaitStop => if ctl01 == p.round then 0 else 1
    case WaitSame => 0
    case Halted => 0
  }

  ghost function Left1(c: Config, p: Cpu1, ctl01: int): int {
    (RoundsOf(c) - 1 - p.round) * ROUND1 + Stage1(p, ctl01)
  }

  ghost function Rank(c: Config, s: State): int { Left0(c, s.p0) + Left1(c, s.p1, s.mem.ctl01) }

  // ----- useful accesses -----

  /** cpu0 polls, and the word is not there yet; or it has ended. */
  ghost predicate Vain0(s: State) { s.p0.pc.Done? || Polling(s) }

  /** cpu1 reads a control word that keeps it waiting; or it has ended. */
  ghost predicate Vain1(s: State) {
    match s.p1.pc
    case First => s.mem.ctl01 == STOP
    case WaitStop => s.mem.ctl01 == STOP || s.mem.ctl01 == s.p1.round
    case WaitSame => s.mem.ctl01 == s.p1.round
    case Halted => true
    case _ => false
  }

  ghost predicate Vain(s: State, cpu1: bool) { if cpu1 then Vain1(s) else Vain0(s) }

  /** The bound when a block begins. */
  lemma BlockWork(base: int, lo: nat, level: nat, index: nat)
    ensures Pow2(level) > 0 && StartMerge(base, level, index).h == Pow2(level)
    ensures SortWork(lo, level, index, StartMerge(base, level, index)) ==
            (LEVELS - 1 - level) * (6 * HALF) + 6 * (lo + HALF - index) - 4 * Pow2(level) + 4
  {
    PowPositive(level);
    hide Pow2;
  }

  /** An access of a half-sort has lowered its bound; m is what it left of the merge. */
  ghost predicate Lowered(base: int, lo: nat, level: nat, index: nat, m: MergeRegs, work: int) {
    var j := index + 2 * m.h;
    if !m.pc.Merged? then SortWork(lo, level, index, m) < work
    else
      && j <= lo + HALF && j % 2 == 0
      && (j < lo + HALF ==> SortWork(lo, level, j, StartMerge(base, level, j)) < work)
      && (level + 1 < LEVELS ==> SortWork(lo, level + 1, lo, StartMerge(base, level + 1, lo)) < work || j < lo + HALF)
  }

  lemma SortWorkNext(base: int, lo: nat, level: nat, index: nat, m: MergeRegs, v: int)
    requires SortGeo(base, lo, level, index, m)
    ensures SortWork(lo, level, index, m) > 0 && MergeNext(m, v).h == m.h
    ensures Lowered(base, lo, level, index, MergeNext(m, v), SortWork(lo, level, index, m))
  {
    hide Pow2, SortGeo, MergeNext, StartMerge, MergeLeft;
    SortStands(base, lo, level, index, m, v);
    if MergeNext(m, v).pc.Merged? {
      hide SortWork;
      WorkIs(lo, level, index, m);
      BlockWork(base, lo, level, index + 2 * m.h);
      BlockWork(base, lo, level + 1, lo);
      Doubles(level);
    }
  }

  lemma WorkIs(lo: nat, level: nat, index: nat, m: MergeRegs)
    ensures SortWork(lo, level, index, m) ==
            (LEVELS - 1 - level) * (6 * HALF) + 6 * (lo + HALF - index) - 12 * m.h + MergeLeft(m) + 1
  {
    hide MergeLeft;
  }

  lemma Doubles(level: nat)
    ensures Pow2(level + 1) == 2 * Pow2(level)
  {
  }

  /** The block under way lies in the half, and its merge moves on. */
  lemma SortStands(base: int, lo: nat, level: nat, index: nat, m: MergeRegs, v: int)
    requires SortGeo(base, lo, level, index, m)
    ensures var m', j := MergeNext(m, v), index + 2 * Pow2(level);
            && level < LEVELS && j <= lo + HALF && j % 2 == 0
            && m.h == Pow2(level) && m'.h == Pow2(level) && MergeLeft(m) >= 0
            && (m'.pc.Merged? || MergeLeft(m') < MergeLeft(m))
  {
    hide Pow2, Multiple, MergeNext, MergeLeft, StartMerge, Src, Dst;
    MergeDecreases(m, v, Src(base, level, index), Dst(base, level, index), Pow2(level));
    SortGeoNext(base, lo, level, index);
  }

  /** A sort that begins is within its bound. */
  lemma SortWorkStart(base: int, lo: nat)
    ensures SortWork(lo, 0, lo, StartMerge(base, 0, lo)) == SORT_WORK
  {
    BlockWork(base, lo, 0, lo);
    hide StartMerge;
  }

  // ----- cpu0 -----

  /** What the invariant says about the registers of cpu0 before its end. */
  ghost predicate Fit0(c: Config, p: Cpu0) {
    && !p.pc.Done? && (p.pc.Finish? || p.round < c.limit)
    && (p.pc.Init0? || p.pc.Init1? || p.pc.Sum1? || p.pc.Sum2? ==> p.i < N)
    && (p.pc.Sort0? ==> SortGeo(c.off, 0, p.level, p.index, p.m))
    && (p.pc.Final? ==> MergeGeo(p.m, c.off, c.off + N, HALF))
  }

  lemma Fits0(c: Config, s: State)
    requires ConfigOk(c) && Inv(c, s) && !s.p0.pc.Done?
    ensures Fit0(c, s.p0)
  {
    Geometry(c, s);
    Counters(c, s);
    hide Inv, SortGeo, MergeGeo;
  }

  lemma Left0Sort(c: Config, p: Cpu0, v: int)
    requires Fit0(c, p) && p.pc.Sort0?
    ensures Left0(c, Next0(c, p, v)) < Left0(c, p) && SortWork(0, p.level, p.index, p.m) > 0
  {
    SortWorkNext(c.off, 0, p.level, p.index, p.m, v);
    hide SortGeo, SortWork, MergeNext, StartMerge;
  }

  lemma Left0Final(c: Config, p: Cpu0, v: int)
    requires Fit0(c, p) && p.pc.Final?
    ensures Left0(c, Next0(c, p, v)) < Left0(c, p) && MergeLeft(p.m) >= 0
  {
    hide MergeGeo, MergeNext, StartMerge, MergeLeft;
    MergeDecreases(p.m, v, c.off, c.off + N, HALF);
  }

  lemma FinalWork(c: Config)
    ensures MergeLeft(StartMerge(c.off, LEVELS, 0)) < MERGE_WORK
  {
    HalfLog();
    hide Pow2;
  }

  /** Every access but a poll in vain lowers the bound, the announcement by two. */
  lemma Left0Next(c: Config, p: Cpu0, v: int)
    requires Fit0(c, p) && (p.pc.Poll? ==> v == p.round)
    ensures Left0(c, Next0(c, p, v)) < Left0(c, p)
    ensures p.pc.Publish? ==> Left0(c, Next0(c, p, v)) + 2 <= Left0(c, p)
  {
    if p.pc.Sort0? {
      Left0Sort(c, p, v);
      hide *;
    } else if p.pc.Final? {
      Left0Final(c, p, v);
      hide *;
    } else {
      SortWorkStart(c.off, 0);
      FinalWork(c);
      hide SortGeo, MergeGeo, SortWork, MergeNext, StartMerge, MergeLeft, Expected1, Expected2;
    }
  }

  lemma Left0Positive(c: Config, p: Cpu0)
    requires Fit0(c, p)
    ensures Left0(c, p) > 0
  {
    if p.pc.Sort0? { Left0Sort(c, p, 0); }
    if p.pc.Final? { Left0Final(c, p, 0); }
    hide SortGeo, MergeGeo, SortWork, MergeLeft;
  }

  // ----- cpu1 -----

  /** What the invariant says about the registers of cpu1 before cpu0's end. */
  ghost predicate Fit1(c: Config, p: Cpu1, ctl01: int) {
    && p.round <= RoundsOf(c) && !p.pc.Halted? && (p.pc.First? ==> p.round == 0)
    && (!p.pc.First? ==> p.round < RoundsOf(c) <= LAST_ROUND)
    && (p.pc.WaitSame? && ctl01 != p.round ==> p.round + 1 < RoundsOf(c))
    && (p.pc.Sort1? ==> SortGeo(p.ptr, HALF, p.level, p.index, p.m))
  }

  lemma Fits1(c: Config, s: State)
    requires ConfigOk(c) && Inv(c, s) && !s.p0.pc.Done?
    ensures Fit1(c, s.p1, s.mem.ctl01)
  {
    hide Inv, SortGeo;
    Geometry(c, s);
    RoundsApart(c, s);
  }

  /** Before the end cpu1 is in cpu0's round, or in the one before. */
  lemma RoundsApart(c: Config, s: State)
    requires ConfigOk(c) && Inv(c, s) && !s.p0.pc.Done?
    ensures var p := s.p1;
            && !p.pc.Halted? && (if p.pc.First? then p.round == 0 else p.ptr == c.off || p.pc.GetPtr?)
            && (!p.pc.First? ==> p.round < RoundsOf(c) <= LAST_ROUND)
            && (p.pc.WaitSame? && s.mem.ctl01 != p.round ==> p.round + 1 < RoundsOf(c))
  {
    hide DataOk;
  }

  lemma Left1Sort(c: Config, p: Cpu1, ctl01: int, v: int)
    requires Fit1(c, p, ctl01) && p.pc.Sort1?
    ensures Left1(c, Next1(p, v), ctl01) < Left1(c, p, ctl01) && SortWork(HALF, p.level, p.index, p.m) > 0
  {
    SortWorkNext(p.ptr, HALF, p.level, p.index, p.m, v);
    hide SortGeo, SortWork, MergeNext, StartMerge;
  }

  /** Every access but a wait in vain lowers the bound. */
  lemma Left1Next(c: Config, s: State, v: int)
    requires var p := s.p1; Fit1(c, p, s.mem.ctl01) && !Vain1(s)
    requires s.p1.pc.First? || s.p1.pc.WaitStop? || s.p1.pc.WaitSame? ==> v == s.mem.ctl01
    ensures Left1(c, Next1(s.p1, v), s.mem.ctl01) < Left1(c, s.p1, s.mem.ctl01)
  {
    if s.p1.pc.Sort1? {
      Left1Sort(c, s.p1, s.mem.ctl01, v);
      hide *;
    } else {
      SortWorkStart(s.p1.ptr, HALF);
      SortWorkStart(v, HALF);
      hide SortGeo, SortWork, MergeNext, StartMerge;
    }
  }

  lemma Left1Positive(c: Config, p: Cpu1, ctl01: int)
    requires Fit1(c, p, ctl01)
    ensures Left1(c, p, ctl01) >= 0
  {
    if p.pc.Sort1? { Left1Sort(c, p, ctl01, 0); }
    hide SortGeo, SortWork;
  }

  // ----- both -----

  lemma RankPositive(c: Config, s: State)
    requires ConfigOk(c) && Inv(c, s) && !s.p0.pc.Done?
    ensures Rank(c, s) > 0
  {
    hide Inv, Fit0, Fit1, Left0, Left1;
    Fits0(c, s);
    Fits1(c, s);
    Left0Positive(c, s.p0);
    Left1Positive(c, s.p1, s.mem.ctl01);
  }

  /** An access of cpu0 in vain changes nothing; any other lowers the rank, or ends. */
  lemma RankStep0(c: Config, s: State)
    requires ConfigOk(c) && Inv(c, s) && !s.p0.pc.Done?
    ensures if Vain0(s) then Step0(c, s) == s else Step0(c, s).p0.pc.Done? || Rank(c, Step0(c, s)) < Rank(c, s)
  {
    hide Inv, Fit0, Left0, Next0, Op0, Loaded, Step0, Left1;
    if Vain0(s) {
      PollInVain(c, s);
    } else if s.p0.pc.Finish? {
      FinishMoves(c, s);
    } else {
      Fits0(c, s);
      Access0(c, s);
      PollLoads(c, s);
      Left0Next(c, s.p0, Loaded(s.mem, Op0(c, s.p0)));
      if s.p0.pc.Publish? {
        OneMore(c, s.p1, s.mem.ctl01, Step0(c, s).mem.ctl01);
      } else {
        Control0Kept(c, s);
      }
    }
  }

  lemma PollInVain(c: Config, s: State)
    requires ConfigOk(c) && Polling(s)
    ensures Step0(c, s) == s
  {
    hide StartMerge, MergeNext, MergeOp;
  }

  lemma PollLoads(c: Config, s: State)
    requires ConfigOk(c)
    ensures s.p0.pc.Poll? ==> Loaded(s.mem, Op0(c, s.p0)) == s.mem.ctl10
  {
  }

  lemma OneMore(c: Config, p: Cpu1, x: int, y: int)
    ensures Left1(c, p, y) <= Left1(c, p, x) + 1
  {
    hide SortWork;
  }

  /** Only the announcement and the stop word change cpu0's control word. */
  lemma Control0Kept(c: Config, s: State)
    requires ConfigOk(c) && !s.p0.pc.Publish? && !s.p0.pc.Finish?
    ensures Step0(c, s).mem.ctl01 == s.mem.ctl01
  {
    if s.p0.pc.Sort0? || s.p0.pc.Final? { SortWrites(s.mem, s.p0.m); }
    hide Next0, MergeOp;
  }

  /** An access of cpu1 in vain changes no memory and no rank; any other lowers the rank. */
  lemma RankStep1(c: Config, s: State)
    requires ConfigOk(c) && Inv(c, s) && !s.p0.pc.Done?
    ensures Step1(s).p0 == s.p0
    ensures if Vain1(s) then Step1(s).mem == s.mem && Rank(c, Step1(s)) <= Rank(c, s)
            else Rank(c, Step1(s)) < Rank(c, s)
  {
    hide Inv, Fit1, Left1, Next1, Op1, Loaded, Left0, Step1;
    Control1Kept(s);
    if Vain1(s) {
      WaitInVain(c, s);
    } else {
      Fits1(c, s);
      WaitLoads(s);
      Left1Next(c, s, Loaded(s.mem, Op1(s.p1)));
    }
  }

  lemma Control1Kept(s: State)
    ensures Step1(s).mem.ctl01 == s.mem.ctl01 && Step1(s).p0 == s.p0
    ensures Step1(s).p1 == Next1(s.p1, Loaded(s.mem, Op1(s.p1)))
  {
    if s.p1.pc.Sort1? { SortWrites(s.mem, s.p1.m); }
    hide Next1, MergeOp;
  }

  lemma WaitLoads(s: State)
    ensures s.p1.pc.First? || s.p1.pc.WaitStop? || s.p1.pc.WaitSame? ==> Loaded(s.mem, Op1(s.p1)) == s.mem.ctl01
  {
  }

  lemma WaitInVain(c: Config, s: State)
    requires Vain1(s)
    ensures Step1(s).mem == s.mem && Left1(c, Step1(s).p1, s.mem.ctl01) <= Left1(c, s.p1, s.mem.ctl01)
  {
    hide StartMerge, MergeNext, MergeOp, SortWork;
  }

  /** Before the end, if both CPUs access in vain, they are stuck. */
  lemma Mover(c: Config, s: State)
    requires ConfigOk(c) && Inv(c, s) && !s.p0.pc.Done? && Vain0(s) && Vain1(s)
    ensures Stuck(s)
  {
    PollingPhases(c, s);
    hide Inv;
  }

  // ----- schedules -----

  /** How many accesses of a schedule are not in vain. */
  ghost function Useful(c: Config, s: State, who: seq<bool>): nat
    requires |c.input| == N
    decreases |who|
  {
    if who == [] then 0
    else (if Vain(s, who[0]) then 0 else 1) + Useful(c, Turn(c, s, who[0]), who[1..])
  }

  /** One access: in vain it keeps memory and cpu0; any other lowers the rank, or ends. */
  lemma RankTurn(c: Config, s: State, b: bool)
    requires ConfigOk(c) && Inv(c, s) && !s.p0.pc.Done?
    ensures var s' := Turn(c, s, b);
            && Inv(c, s')
            && if Vain(s, b) then s'.mem == s.mem && s'.p0 == s.p0 && (!b ==> s' == s) && Rank(c, s') <= Rank(c, s)
               else s'.p0.pc.Done? || Rank(c, s') < Rank(c, s)
  {
    hide Inv, Rank, Vain0, Vain1, Step0, Step1;
    if b {
      InvStep1(c, s);
      RankStep1(c, s);
    } else {
      InvStep0(c, s);
      RankStep0(c, s);
    }
  }

  lemma DoneTurn(c: Config, s: State, b: bool)
    requires |c.input| == N && s.p0.pc.Done?
    ensures Turn(c, s, b).p0.pc.Done?
  {
    hide Next1, Op1;
  }

  lemma {:induction false} DoneStays(c: Config, s: State, who: seq<bool>)
    requires |c.input| == N && s.p0.pc.Done?
    ensures Play(c, s, who).p0.pc.Done?
    decreases |who|
  {
    hide Turn;
    if who != [] {
      DoneTurn(c, s, who[0]);
      DoneStays(c, Turn(c, s, who[0]), who[1..]);
    }
  }

  /** As long as cpu0 has not ended, the useful accesses made and the rank left are within the rank. */
  lemma {:induction false} UsefulBounded(c: Config, s: State, who: seq<bool>)
    requires ConfigOk(c) && Inv(c, s) && !Play(c, s, who).p0.pc.Done?
    ensures Useful(c, s, who) + Rank(c, Play(c, s, who)) <= Rank(c, s)
    decreases |who|
  {
    hide Inv, Rank, Vain, Turn;
    if s.p0.pc.Done? { DoneStays(c, s, who); }
    if who != [] {
      RankTurn(c, s, who[0]);
      var s1 := Turn(c, s, who[0]);
      if s1.p0.pc.Done? { DoneStays(c, s1, who[1..]); }
      UsefulBounded(c, s1, who[1..]);
    }
  }

  lemma RankInitial(c: Config, s: State)
    requires ConfigOk(c) && Initial(c, s)
    ensures Rank(c, s) == RoundsOf(c) * (ROUND0 + ROUND1) + 1
  {
    hide SortWork, MergeLeft;
  }

  /**
    In every schedule, fair or not and for every limit, the two CPUs together make at most 28684
    accesses a round, and one more, before cpu0's end; all others are polls in vain.
   */
  lemma WorkBounded(c: Config, s: State, who: seq<bool>)
    requires ConfigOk(c) && Initial(c, s) && !Play(c, s, who).p0.pc.Done?
    ensures Useful(c, s, who) <= RoundsOf(c) * 28684
  {
    hide Inv, Rank, Initial, Play;
    InvInitial(c, s);
    PlayInv(c, s, who);
    RankInitial(c, s);
    UsefulBounded(c, s, who);
    RankPositive(c, Play(c, s, who));
  }

  // ----- fair schedules -----

  /** A CPU that could make a useful access still can, until the rank falls or cpu0 ends. */
  lemma {:induction false} TurnHelps(c: Config, s: State, who: seq<bool>, b: bool)
    requires ConfigOk(c) && Inv(c, s) && !s.p0.pc.Done?
    requires who != [] && who[|who| - 1] == b && !Vain(s, b) && (b ==> Vain(s, false))
    ensures Play(c, s, who).p0.pc.Done? || Rank(c, Play(c, s, who)) < Rank(c, s)
    decreases |who|
  {
    hide Inv, Rank, Vain, Turn;
    RankTurn(c, s, who[0]);
    var s1 := Turn(c, s, who[0]);
    if !Play(c, s, who).p0.pc.Done? {
      if s1.p0.pc.Done? { DoneStays(c, s1, who[1..]); }
      if Vain(s, who[0]) {
        VainKept(s, s1, b);
        TurnHelps(c, s1, who[1..], b);
      } else {
        UsefulBounded(c, s1, who[1..]);
      }
    }
  }

  /** An access of the other CPU in vain leaves a CPU its useful access. */
  lemma VainKept(s: State, s1: State, b: bool)
    requires !Vain(s, b) && s1.mem == s.mem && s1.p0 == s.p0 && (b ==> s1 == s)
    ensures !Vain(s1, b) && (b && Vain(s, false) ==> Vain(s1, false))
  {
  }

  /** The state of a schedule at an instant. */
  ghost function At(c: Config, s: State, who: Schedule, n: nat): State
    requires |c.input| == N
  {
    Play(c, s, Between(who, 0, n))
  }

  lemma AtLater(c: Config, s: State, who: Schedule, n: nat, m: nat)
    requires |c.input| == N && n <= m
    ensures At(c, s, who, m) == Play(c, At(c, s, who, n), Between(who, n, m))
  {
    hide Play;
    BetweenJoins(who, 0, n, m);
    PlayConcat(c, s, Between(who, 0, n), Between(who, n, m));
  }

  ghost predicate Settled(s: State) { s.p0.pc.Done? || Stuck(s) }

  /** From any instant at which the invariant holds, a fair schedule comes to cpu0's end or gets stuck. */
  lemma {:induction false} SettlesFrom(c: Config, s: State, who: Schedule, n: nat) returns (m: nat)
    requires ConfigOk(c) && Fair(who) && Inv(c, At(c, s, who, n))
    ensures n <= m && Settled(At(c, s, who, m))
    decreases RankOrZero(c, At(c, s, who, n))
  {
    hide Inv, Rank, Vain, At, Stuck, Between;
    var here := At(c, s, who, n);
    if Settled(here) {
      m := n;
    } else {
      RankPositive(c, here);
      var k := HelpingTurn(c, here, who, n);
      AtLater(c, s, who, n, k);
      PlayInv(c, here, Between(who, n, k));
      if Settled(At(c, s, who, k)) {
        m := k;
      } else {
        RankPositive(c, At(c, s, who, k));
        m := SettlesFrom(c, s, who, k);
      }
    }
  }

  ghost function RankOrZero(c: Config, s: State): nat { if Rank(c, s) < 0 then 0 else Rank(c, s) }

  /** In a fair schedule the rank falls sooner or later. */
  lemma HelpingTurn(c: Config, s: State, who: Schedule, n: nat) returns (k: nat)
    requires ConfigOk(c) && Fair(who) && Inv(c, s) && !Settled(s)
    ensures n < k
    ensures Play(c, s, Between(who, n, k)).p0.pc.Done? || Rank(c, Play(c, s, Between(who, n, k))) < Rank(c, s)
  {
    hide Inv, Rank, Vain0, Vain1, Stuck, Play;
    if Vain0(s) && Vain1(s) { Mover(c, s); }
    var b := Vain0(s);
    assert Later(who, n, b);
    var m: nat :| n <= m && who(m) == b;
    k := m + 1;
    TurnHelps(c, s, Between(who, n, k), b);
  }

  /** For every limit, in every fair schedule cpu0 ends, or both CPUs get stuck. */
  lemma FairSettles(c: Config, s: State, who: Schedule) returns (m: nat)
    requires ConfigOk(c) && Initial(c, s) && Fair(who)
    ensures Settled(At(c, s, who, m))
  {
    hide Inv, Fair, Settled, Initial, Play;
    AtStart(c, s, who);
    InvInitial(c, s);
    m := SettlesFrom(c, s, who, 0);
  }

  /** A fair schedule comes to cpu0's end. */
  ghost predicate Ends(c: Config, s: State, who: Schedule)
    requires |c.input| == N
  {
    exists n: nat :: At(c, s, who, n).p0.pc.Done?
  }

  /** A run without its last state is a run, and its last step is an access of one CPU. */
  lemma RunBefore(c: Config, t: seq<State>)
    requires ConfigOk(c) && Run(c, t)
    ensures |t| > 0
    ensures |t| > 1 ==>
              var n := |t| - 1; Run(c, t[..n]) && (t[n] == Turn(c, t[n - 1], false) || t[n] == Turn(c, t[n - 1], true))
  {
    hide Step0, Step1, Initial;
    if |t| > 1 {
      var u := t[..|t| - 1];
      assert u[0] == t[0];
      forall k {:trigger u[k]} | 0 < k < |u|
        ensures u[k] == Step0(c, u[k - 1]) || u[k] == Step1(u[k - 1])
      {
        assert u[k] == t[k] && u[k - 1] == t[k - 1];
      }
    }
  }

  /** Every run is the prefix of a schedule. */
  lemma {:induction false} RunSchedule(c: Config, t: seq<State>) returns (who: seq<bool>)
    requires ConfigOk(c) && Run(c, t)
    ensures |t| > 0 && Play(c, t[0], who) == t[|t| - 1]
    decreases |t|
  {
    hide Run, Turn, Play;
    RunBefore(c, t);
    if |t| == 1 {
      PlayNone(c, t[0]);
      who := [];
    } else {
      var n := |t| - 1;
      who := RunSchedule(c, t[..n]);
      var b := t[n] == Turn(c, t[n - 1], true);
      PlayConcat(c, t[0], who, [b] + []);
      PlayFirst(c, t[n - 1], b, []);
      PlayNone(c, Turn(c, t[n - 1], b));
      who := who + ([b] + []);
    }
  }

  /** A schedule that has got stuck never ends. */
  lemma StuckNeverEnds(c: Config, s: State, w: seq<bool>)
    requires ConfigOk(c) && Stuck(Play(c, s, w))
    ensures Fair(ByTurns(w)) && !Ends(c, s, ByTurns(w))
  {
    var who := ByTurns(w);
    ByTurnsFair(w);
    hide Fair, Between, ByTurns, Play;
    forall n: nat
      ensures !At(c, s, who, n).p0.pc.Done?
    {
      if n <= |w| {
        AtLater(c, s, who, n, |w|);
        if At(c, s, who, n).p0.pc.Done? { DoneStays(c, At(c, s, who, n), Between(who, n, |w|)); }
      } else {
        AtLater(c, s, who, |w|, n);
        StuckStays(c, Play(c, s, w), Between(who, |w|, n));
      }
    }
  }

  /** All fair schedules of the program come to its end. */
  ghost predicate FairFinish(c: Config)
    requires |c.input| == N
  {
    forall s, who: Schedule :: Initial(c, s) && Fair(who) ==> Ends(c, s, who)
  }

  /**
    Every fair schedule comes to the end, from every initial memory, exactly when the limit is at most
    the stop word.
   */
  lemma FairFinishExactly(c: Config)
    requires ConfigOk(c)
    ensures FairFinish(c) <==> c.limit <= 0xffff
  {
    hide Inv, Run, Play, Stuck, Fair, Initial;
    if c.limit <= STOP {
      forall s, who: Schedule | Initial(c, s) && Fair(who)
        ensures Ends(c, s, who)
      {
        FairEnds(c, s, who);
      }
    } else {
      var t := StuckReached(c);
      FirstOf(c, t);
      var w := RunSchedule(c, t);
      StuckNeverEnds(c, t[0], w);
    }
  }

  lemma FirstOf(c: Config, t: seq<State>)
    requires |c.input| == N && Run(c, t)
    ensures t != [] && Initial(c, t[0])
  {
  }

  /** Up to the stop word, every fair schedule comes to the end. */
  lemma FairEnds(c: Config, s: State, who: Schedule)
    requires ConfigOk(c) && c.limit <= 0xffff && Initial(c, s) && Fair(who)
    ensures Ends(c, s, who)
  {
    hide Inv, Fair, Stuck, Initial, Play;
    var m := FairSettles(c, s, who);
    if Stuck(At(c, s, who, m)) { NeverStuck(c, s, Between(who, 0, m)); }
  }

  lemma AtStart(c: Config, s: State, who: Schedule)
    requires |c.input| == N
    ensures At(c, s, who, 0) == s
  {
    assert Between(who, 0, 0) == [];
  }

  lemma NeverStuck(c: Config, s: State, who: seq<bool>)
    requires ConfigOk(c) && c.limit <= 0xffff && Initial(c, s)
    ensures !Stuck(Play(c, s, who))
  {
    assert Run(c, [s]);
    hide Run, Play, Stuck, Initial;
    var u := Extend(c, [s], who);
    RunNonEmpty(c, u);
    StuckExactly(c);
    assert Last(u) == u[|u| - 1];
  }
}
