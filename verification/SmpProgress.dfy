/**
  Progress of the two-CPU merge sort: from which states which schedules lead on.  A CPU that runs
  alone gets through its current phase; put together, these phases give schedules to the end of
  every round, to the deadlock, and to the unannounced round.
 */
module SmpProgress {
  import opened Arithmetic
  import opened MergeSpec
  import opened SmpSort
  import opened SmpMergeProof
  import opened SmpHalfProof
  import opened SmpSortProof

  // ----- schedules -----

  /** One access of cpu1 or of cpu0. */
  ghost function Turn(c: Config, s: State, cpu1: bool): State
    requires |c.input| == N
  {
    if cpu1 then Step1(s) else Step0(c, s)
  }

  /** The state a schedule leads to. */
  ghost function Play(c: Config, s: State, who: seq<bool>): State
    requires |c.input| == N
    decreases |who|
  {
    if who == [] then s else Play(c, Turn(c, s, who[0]), who[1..])
  }

  lemma {:induction false} PlayConcat(c: Config, s: State, a: seq<bool>, b: seq<bool>)
    requires |c.input| == N
    ensures Play(c, s, a + b) == Play(c, Play(c, s, a), b)
    decreases |a|
  {
    hide Turn;
    if a == [] {
      assert a + b == b;
    } else {
      assert (a + b)[0] == a[0] && (a + b)[1..] == a[1..] + b;
      PlayConcat(c, Turn(c, s, a[0]), a[1..], b);
    }
  }

  lemma PlayFirst(c: Config, s: State, x: bool, who: seq<bool>)
    requires |c.input| == N
    ensures Play(c, s, [x] + who) == Play(c, Turn(c, s, x), who)
  {
    hide Turn;
    assert ([x] + who)[0] == x && ([x] + who)[1..] == who;
  }

  lemma PlayNone(c: Config, s: State)
    requires |c.input| == N
    ensures Play(c, s, []) == s
  {
  }

  lemma {:induction false} PlayInv(c: Config, s: State, who: seq<bool>)
    requires ConfigOk(c) && Inv(c, s)
    ensures Inv(c, Play(c, s, who))
    decreases |who|
  {
    hide Inv, Step0, Step1;
    if who != [] {
      if who[0] { InvStep1(c, s); } else { InvStep0(c, s); }
      PlayInv(c, Turn(c, s, who[0]), who[1..]);
    }
  }

  /** Every run can be continued by every schedule. */
  lemma {:induction false} Extend(c: Config, t: seq<State>, who: seq<bool>) returns (u: seq<State>)
    requires ConfigOk(c) && Run(c, t)
    ensures Run(c, u) && t <= u && u[|u| - 1] == Play(c, t[|t| - 1], who)
    decreases |who|
  {
    hide Step0, Step1, Initial;
    if who == [] {
      u := t;
    } else {
      var s := Turn(c, t[|t| - 1], who[0]);
      var v := t + [s];
      forall k {:trigger v[k]} | 0 < k < |v|
        ensures v[k] == Step0(c, v[k - 1]) || v[k] == Step1(v[k - 1])
      {
        assert v[k - 1] == t[k - 1];
        if k < |t| { assert v[k] == t[k]; }
      }
      assert v[0] == t[0];
      u := Extend(c, v, who[1..]);
    }
  }

  // ----- one merge -----

  ghost function MergeRank(pc: MergePc): nat {
    match pc
    case LoadA => 3
    case LoadB => 2
    case LoadWinner => 1
    case StoreWinner => 0
    case LoadRest => 1
    case StoreRest => 0
    case Merged => 0
  }

  /** How many accesses a merge may still take. */
  ghost function MergeLeft(m: MergeRegs): int { (2 * m.h - m.i) * 4 + MergeRank(m.pc) }

  lemma MergeDecreases(m: MergeRegs, v: int, a0: int, d0: int, h: nat)
    requires MergeGeo(m, a0, d0, h)
    ensures MergeLeft(m) >= 0 && MergeNext(m, v).h == h > 0
    ensures MergeNext(m, v).pc.Merged? || (MergeGeo(MergeNext(m, v), a0, d0, h) &&
                                           MergeLeft(MergeNext(m, v)) < MergeLeft(m))
  {
    GeoNext(m, v, a0, d0, h);
  }

  // ----- phases of cpu0 alone -----

  /** Where the pointers of the sorts and merges under way stand. */
  lemma Geometry(c: Config, s: State)
    requires ConfigOk(c) && Inv(c, s)
    ensures s.p0.pc.Sort0? ==> SortGeo(c.off, 0, s.p0.level, s.p0.index, s.p0.m)
    ensures s.p0.pc.Final? ==> MergeGeo(s.p0.m, c.off, c.off + N, HALF)
    ensures s.p1.pc.Sort1? ==> SortGeo(c.off, HALF, s.p1.level, s.p1.index, s.p1.m)
  {
    hide Sorting, SortGeo, MergeGeo, Handshake, Half, Passes, Result, Differs;
    if s.p0.pc.Sort0? { SortingGeo0(c, s); }
  }

  lemma Counters(c: Config, s: State)
    requires ConfigOk(c) && Inv(c, s)
    ensures s.p0.pc.Init0? || s.p0.pc.Init1? || s.p0.pc.Sum1? || s.p0.pc.Sum2? ==> s.p0.i < N
    ensures !s.p0.pc.Finish? && !s.p0.pc.Done? ==> s.p0.round < c.limit
  {
    hide Handshake, DataOk;
  }

  lemma InitNext(c: Config, p: Cpu0, v: int)
    requires (p.pc.Init0? || p.pc.Init1?) && p.i < N
    ensures var p' := Next0(c, p, v);
            && p'.round == p.round
            && if p.pc.Init0? then p'.pc.Init1? && p'.i == p.i
               else (p'.pc.Publish? || (p'.pc.Init0? && p'.i == p.i + 1))
  {
    hide MergeNext, StartMerge;
  }

  /** An access of cpu0 leaves cpu1's registers alone. */
  lemma Access0(c: Config, s: State)
    requires |c.input| == N
    ensures Step0(c, s).p1 == s.p1 && Step0(c, s).p0 == Next0(c, s.p0, Loaded(s.mem, Op0(c, s.p0)))
  {
    hide Next0, Op0;
  }

  lemma SortingGeo0(c: Config, s: State)
    requires ConfigOk(c) && Inv(c, s) && s.p0.pc.Sort0?
    ensures SortGeo(c.off, 0, s.p0.level, s.p0.index, s.p0.m)
  {
    hide SortGeo, MergeGeo, Control, Handshake, SortData, Differs;
  }

  /** cpu1 is where it was, and cpu0 is in the same round. */
  ghost predicate Solo(s: State, s': State) { s'.p1 == s.p1 && s'.p0.round == s.p0.round }

  lemma {:induction false} InitDone(c: Config, s: State) returns (who: seq<bool>)
    requires ConfigOk(c) && Inv(c, s) && (s.p0.pc.Init0? || s.p0.pc.Init1?)
    ensures Solo(s, Play(c, s, who)) && Play(c, s, who).p0.pc.Publish?
    decreases N - s.p0.i, if s.p0.pc.Init0? then 1 else 0
  {
    Counters(c, s);
    InvStep0(c, s);
    Access0(c, s);
    InitNext(c, s.p0, Loaded(s.mem, Op0(c, s.p0)));
    hide Inv, Play, Step0, Next0, Op0, Loaded;
    var s1 := Turn(c, s, false);
    if s1.p0.pc.Publish? {
      PlayNone(c, s1);
      who := [];
    } else {
      who := InitDone(c, s1);
    }
    PlayFirst(c, s, false, who);
    who := [false] + who;
  }

  lemma PublishDone(c: Config, s: State) returns (who: seq<bool>)
    requires ConfigOk(c) && Inv(c, s) && s.p0.pc.Publish?
    ensures Solo(s, Play(c, s, who)) && Play(c, s, who).p0.pc.Sort0?
  {
    hide Inv, Play;
    PlayNone(c, Turn(c, s, false));
    PlayFirst(c, s, false, []);
    who := [false] + [];
  }

  /** A sort under way has moved on. */
  ghost predicate Further(level: nat, index: nat, m: MergeRegs, level': nat, index': nat, m': MergeRegs) {
    level' > level || (level' == level && (index' > index || (index' == index && MergeLeft(m') < MergeLeft(m))))
  }

  lemma Sort0Next(c: Config, p: Cpu0, v: int)
    requires p.pc.Sort0? && SortGeo(c.off, 0, p.level, p.index, p.m)
    ensures var p' := Next0(c, p, v);
            && p'.round == p.round && (p'.pc.Poll? ||
                                       (p'.pc.Sort0? && Further(p.level, p.index, p.m, p'.level, p'.index, p'.m)))
  {
    hide MergeGeo, MergeNext, StartMerge, MergeLeft, Multiple, Pow2;
    MergeDecreases(p.m, v, Src(c.off, p.level, p.index), Dst(c.off, p.level, p.index), Pow2(p.level));
  }

  /** One access of cpu0's sort moves it on. */
  lemma Sort0Moves(c: Config, s: State)
    requires ConfigOk(c) && Inv(c, s) && s.p0.pc.Sort0?
    ensures var p, p' := s.p0, Step0(c, s).p0;
            && p.level < LEVELS && p.index < HALF && MergeLeft(p.m) >= 0 && p'.round == p.round &&
               Step0(c, s).p1 == s.p1
            && (p'.pc.Poll? || (p'.pc.Sort0? && Further(p.level, p.index, p.m, p'.level, p'.index, p'.m)))
  {
    Geometry(c, s);
    SortLeft(c.off, 0, s.p0.level, s.p0.index, s.p0.m);
    Sort0Next(c, s.p0, Loaded(s.mem, Op0(c, s.p0)));
    hide Inv, SortGeo, Next0, Further, MergeLeft, Op0;
  }

  lemma SortLeft(base: int, lo: nat, level: nat, index: nat, m: MergeRegs)
    requires SortGeo(base, lo, level, index, m)
    ensures level < LEVELS && lo <= index < lo + HALF && MergeLeft(m) >= 0
  {
    hide Multiple, Pow2, MergeLeft;
    MergeDecreases(m, 0, Src(base, level, index), Dst(base, level, index), Pow2(level));
  }

  lemma {:induction false} SortDone(c: Config, s: State) returns (who: seq<bool>)
    requires ConfigOk(c) && Inv(c, s) && s.p0.pc.Sort0?
    ensures Solo(s, Play(c, s, who)) && Play(c, s, who).p0.pc.Poll?
    decreases LEVELS - s.p0.level, HALF - s.p0.index, MergeLeft(s.p0.m)
  {
    Sort0Moves(c, s);
    InvStep0(c, s);
    hide Inv, Play, Step0, MergeLeft;
    var s1 := Turn(c, s, false);
    if s1.p0.pc.Poll? {
      PlayNone(c, s1);
      who := [];
    } else {
      who := SortDone(c, s1);
    }
    PlayFirst(c, s, false, who);
    who := [false] + who;
  }

  lemma FinalNext(c: Config, p: Cpu0, v: int)
    requires p.pc.Final? && MergeGeo(p.m, c.off, c.off + N, HALF)
    ensures var p' := Next0(c, p, v);
            MergeLeft(p.m) >= 0 && p'.round == p.round &&
              (p'.pc.Sum1? || (p'.pc.Final? && MergeLeft(p'.m) < MergeLeft(p.m)))
  {
    hide MergeGeo, MergeNext, StartMerge, MergeLeft;
    MergeDecreases(p.m, v, c.off, c.off + N, HALF);
  }

  lemma FinalMoves(c: Config, s: State)
    requires ConfigOk(c) && Inv(c, s) && s.p0.pc.Final?
    ensures var p, p' := s.p0, Step0(c, s).p0;
            && MergeLeft(p.m) >= 0 && p'.round == p.round && Step0(c, s).p1 == s.p1
            && (p'.pc.Sum1? || (p'.pc.Final? && MergeLeft(p'.m) < MergeLeft(p.m)))
  {
    Geometry(c, s);
    FinalNext(c, s.p0, Loaded(s.mem, Op0(c, s.p0)));
    hide Inv, MergeGeo, Next0, MergeLeft, Op0;
  }

  lemma {:induction false} FinalDone(c: Config, s: State) returns (who: seq<bool>)
    requires ConfigOk(c) && Inv(c, s) && s.p0.pc.Final?
    ensures Solo(s, Play(c, s, who)) && Play(c, s, who).p0.pc.Sum1?
    decreases MergeLeft(s.p0.m)
  {
    FinalMoves(c, s);
    InvStep0(c, s);
    hide Inv, Play, Step0, MergeLeft;
    var s1 := Turn(c, s, false);
    if s1.p0.pc.Sum1? {
      PlayNone(c, s1);
      who := [];
    } else {
      who := FinalDone(c, s1);
    }
    PlayFirst(c, s, false, who);
    who := [false] + who;
  }

  /** The sums lead to the next round, or to the end. */
  ghost predicate NextBegun(c: Config, s: State, s': State) {
    && s'.p1 == s.p1 && s'.p0.round == s.p0.round + 1
    && if s'.p0.round < c.limit then s'.p0.pc.Init0? else s'.p0.pc.Finish?
  }

  lemma SumNext(c: Config, p: Cpu0, v: int)
    requires (p.pc.Sum1? || p.pc.Sum2?) && p.i < N
    ensures var p' := Next0(c, p, v);
            || (p.pc.Sum1? && p'.pc.Sum2? && p'.i == p.i && p'.round == p.round)
            || (p.pc.Sum2? && p'.pc.Sum1? && p'.i == p.i + 1 < N && p'.round == p.round)
            || (p'.round == p.round + 1 && if p'.round < c.limit then p'.pc.Init0? else p'.pc.Finish?)
  {
    hide Expected1, Expected2;
  }

  ghost function SumLeft(p: Cpu0): int { 2 * (N - p.i) + if p.pc.Sum1? then 1 else 0 }

  /** One access of the sums moves on to the next, or to the next round. */
  lemma SumMoves(c: Config, s: State)
    requires ConfigOk(c) && Inv(c, s) && (s.p0.pc.Sum1? || s.p0.pc.Sum2?)
    ensures var s' := Step0(c, s);
            if s'.p0.pc.Sum1? || s'.p0.pc.Sum2? then Solo(s, s') && 0 <= SumLeft(s'.p0) < SumLeft(s.p0)
              else NextBegun(c, s, s')
  {
    Counters(c, s);
    Access0(c, s);
    SumNext(c, s.p0, Loaded(s.mem, Op0(c, s.p0)));
    InvStep0(c, s);
    Counters(c, Step0(c, s));
    hide Inv, Step0, Next0, Op0, Loaded;
  }

  lemma StillNext(c: Config, s: State, s1: State, s2: State)
    requires Solo(s, s1) && NextBegun(c, s1, s2)
    ensures NextBegun(c, s, s2)
  {
  }

  lemma {:induction false} SumDone(c: Config, s: State) returns (who: seq<bool>)
    requires ConfigOk(c) && Inv(c, s) && (s.p0.pc.Sum1? || s.p0.pc.Sum2?)
    ensures NextBegun(c, s, Play(c, s, who))
    decreases SumLeft(s.p0)
  {
    hide Inv, Play, Step0, SumLeft, NextBegun, Solo;
    SumMoves(c, s);
    InvStep0(c, s);
    var s1 := Turn(c, s, false);
    if s1.p0.pc.Sum1? || s1.p0.pc.Sum2? {
      who := SumDone(c, s1);
      StillNext(c, s, s1, Play(c, s1, who));
    } else {
      PlayNone(c, s1);
      who := [];
    }
    PlayFirst(c, s, false, who);
    who := [false] + who;
  }

  // ----- cpu1 alone, while cpu0 polls -----

  ghost function Rank1(pc: Pc1): nat {
    match pc
    case First => 5
    case WaitStop => 5
    case GetPtr => 4
    case WaitSame => 4
    case Sort1 => 3
    case Notify => 2
    case Halted => 1
  }

  /** The phases of cpu1 while cpu0 polls: it is behind by one round, or works on the round. */
  lemma PollingPhases(c: Config, s: State)
    requires ConfigOk(c) && Inv(c, s) && Polling(s)
    ensures !s.p1.pc.Halted? && s.mem.ctl01 == s.p0.round < c.limit
    ensures s.p0.round == if s.p1.pc.WaitStop? || s.p1.pc.WaitSame? then s.p1.round + 1 else s.p1.round
    ensures (s.p1.pc.First? || s.p1.pc.GetPtr?) ==> s.p0.round == 0
  {
    hide DataOk;
  }

  lemma Sort1Next(p: Cpu1, v: int, base: int)
    requires p.pc.Sort1? && SortGeo(base, HALF, p.level, p.index, p.m)
    ensures var p' := Next1(p, v);
            && p'.round == p.round && (p'.pc.Notify? ||
                                       (p'.pc.Sort1? && Further(p.level, p.index, p.m, p'.level, p'.index, p'.m)))
            && Rank1(p'.pc) <= Rank1(p.pc) && (p'.pc.Notify? ==> Rank1(p'.pc) < Rank1(p.pc))
  {
    hide MergeGeo, MergeNext, StartMerge, MergeLeft, Multiple, Pow2;
    MergeDecreases(p.m, v, Src(base, p.level, p.index), Dst(base, p.level, p.index), Pow2(p.level));
  }

  /** Outside its sort, one access of cpu1 takes it to its next phase, unless the stop word holds it. */
  lemma OtherMoves(c: Config, s: State)
    requires ConfigOk(c) && Inv(c, s) && Polling(s) && !s.p1.pc.Sort1? && !(s.p0.round == STOP && s.p1.pc.WaitStop?)
    ensures Step1(s).p0 == s.p0
    ensures s.p1.pc.Notify? ==>
              Step1(s).p1.pc.WaitStop? && Step1(s).p1.round == s.p0.round && Step1(s).mem.ctl10 == s.p0.round
    ensures !s.p1.pc.Notify? ==>
              Polling(Step1(s)) && !Step1(s).p1.pc.WaitStop? && Rank1(Step1(s).p1.pc) < Rank1(s.p1.pc)
  {
    PollingPhases(c, s);
    OtherNext(s.p1, Loaded(s.mem, Op1(s.p1)), s.p0.round);
    OtherAccess(s);
    hide Inv, Next1, Op1, Loaded, Perform, Rank1;
  }

  lemma OtherNext(p: Cpu1, v: int, round: nat)
    requires !p.pc.Sort1? && !p.pc.Halted? && round < LAST_ROUND
    requires round == if p.pc.WaitStop? || p.pc.WaitSame? then p.round + 1 else p.round
    ensures p.pc.Notify? ==> Next1(p, v).pc.WaitStop? && Next1(p, v).round == round
    ensures p.pc.GetPtr? || ((p.pc.WaitSame? || p.pc.First? || p.pc.WaitStop?) && v == round &&
                             (v != STOP || p.pc.WaitSame?)) ==>
              !Next1(p, v).pc.WaitStop? && Rank1(Next1(p, v).pc) < Rank1(p.pc)
  {
    hide StartMerge, MergeNext;
  }

  lemma OtherAccess(s: State)
    requires !s.p1.pc.Sort1?
    ensures Step1(s).p0 == s.p0 && Step1(s).p1 == Next1(s.p1, Loaded(s.mem, Op1(s.p1)))
    ensures Step1(s).mem.ctl10 == if s.p1.pc.Notify? then s.p1.round else s.mem.ctl10
    ensures s.p1.pc.First? || s.p1.pc.WaitStop? || s.p1.pc.WaitSame? ==> Loaded(s.mem, Op1(s.p1)) == s.mem.ctl01
  {
    hide Next1, MergeOp;
  }

  /** While cpu0 polls, cpu1 alone acknowledges, unless the stop word holds it. */
  lemma {:induction false} AckDone(c: Config, s: State) returns (who: seq<bool>)
    requires ConfigOk(c) && Inv(c, s) && Polling(s) && !(s.p0.round == STOP && s.p1.pc.WaitStop?)
    ensures var s' := Play(c, s, who);
            s'.p0 == s.p0 && s'.p1.pc.WaitStop? && s'.p1.round == s.p0.round && s'.mem.ctl10 == s.p0.round
    decreases Rank1(s.p1.pc), LEVELS - s.p1.level, N - s.p1.index, MergeLeft(s.p1.m)
  {
    hide Inv, Play, Step1, MergeLeft, Polling, Rank1;
    InvStep1(c, s);
    var s1 := Turn(c, s, true);
    if s.p1.pc.Sort1? {
      Sort1Moves(c, s);
      who := AckDone(c, s1);
    } else {
      OtherMoves(c, s);
      if s.p1.pc.Notify? {
        PlayNone(c, s1);
        who := [];
      } else {
        who := AckDone(c, s1);
      }
    }
    PlayFirst(c, s, true, who);
    who := [true] + who;
  }

  lemma Sort1Moves(c: Config, s: State)
    requires ConfigOk(c) && Inv(c, s) && Polling(s) && s.p1.pc.Sort1?
    ensures var p, p' := s.p1, Step1(s).p1;
            && p.level < LEVELS && p.index < N && MergeLeft(p.m) >= 0
            && (p'.pc.Notify? || (p'.pc.Sort1? && Further(p.level, p.index, p.m, p'.level, p'.index, p'.m)))
            && Rank1(p'.pc) <= Rank1(p.pc) && (p'.pc.Notify? ==> Rank1(p'.pc) < Rank1(p.pc))
    ensures Step1(s).p0 == s.p0 && Polling(Step1(s))
  {
    Geometry(c, s);
    SortLeft(c.off, HALF, s.p1.level, s.p1.index, s.p1.m);
    Sort1Next(s.p1, Loaded(s.mem, Op1(s.p1)), c.off);
    Sort1Access(s);
    hide Inv, SortGeo, Next1, Op1, Loaded, Step1, Further, MergeLeft, Rank1;
  }

  lemma Sort1Access(s: State)
    requires s.p1.pc.Sort1?
    ensures Step1(s).p0 == s.p0 && Step1(s).p1 == Next1(s.p1, Loaded(s.mem, Op1(s.p1))) &&
            Step1(s).mem.ctl10 == s.mem.ctl10
  {
    SortWrites(s.mem, s.p1.m);
    hide Next1, MergeOp, Perform;
  }

  /** The accesses of a sort leave the control words alone. */
  lemma SortWrites(mem: Memory, m: MergeRegs)
    ensures Perform(mem, MergeOp(m)).ctl10 == mem.ctl10 && Perform(mem, MergeOp(m)).ctl01 == mem.ctl01
  {
  }

  // ----- a round -----

  /** One schedule after another. */
  lemma Then(c: Config, s: State, a: seq<bool>, b: seq<bool>)
    requires ConfigOk(c) && Inv(c, s)
    ensures Play(c, s, a + b) == Play(c, Play(c, s, a), b) && Inv(c, Play(c, s, a))
  {
    hide Inv, Play;
    PlayConcat(c, s, a, b);
    PlayInv(c, s, a);
  }

  ghost predicate BeforePoll(p: Cpu0) { p.pc.Init0? || p.pc.Init1? || p.pc.Publish? || p.pc.Sort0? || p.pc.Poll? }

  /** cpu0 alone gets to its poll. */
  lemma ToPoll(c: Config, s: State) returns (who: seq<bool>)
    requires ConfigOk(c) && Inv(c, s) && BeforePoll(s.p0)
    ensures Solo(s, Play(c, s, who)) && Play(c, s, who).p0.pc.Poll?
  {
    hide Inv, Play;
    who := [];
    PlayNone(c, s);
    if s.p0.pc.Init0? || s.p0.pc.Init1? {
      who := InitDone(c, s);
      PlayInv(c, s, who);
    }
    var s1 := Play(c, s, who);
    if s1.p0.pc.Publish? {
      var w := PublishDone(c, s1);
      Then(c, s, who, w);
      who := who + w;
      PlayInv(c, s, who);
    }
    var s2 := Play(c, s, who);
    if s2.p0.pc.Sort0? {
      var w := SortDone(c, s2);
      Then(c, s, who, w);
      who := who + w;
    }
  }

  lemma PollMoves(c: Config, s: State)
    requires |c.input| == N && s.p0.pc.Poll? && !Polling(s)
    ensures Solo(s, Step0(c, s)) && Step0(c, s).p0.pc.Final?
  {
    hide StartMerge, MergeNext, MergeOp;
  }

  lemma FinishMoves(c: Config, s: State)
    requires |c.input| == N && s.p0.pc.Finish?
    ensures Step0(c, s).p0.pc.Done?
  {
    hide StartMerge, MergeNext, MergeOp;
  }

  /** Once acknowledged, cpu0 alone merges the halves. */
  lemma PollToSum(c: Config, s: State) returns (who: seq<bool>)
    requires ConfigOk(c) && Inv(c, s) && s.p0.pc.Poll? && !Polling(s)
    ensures Solo(s, Play(c, s, who)) && Play(c, s, who).p0.pc.Sum1?
  {
    InvStep0(c, s);
    PollMoves(c, s);
    hide Inv, Play, Step0, Polling;
    var s1 := Turn(c, s, false);
    who := FinalDone(c, s1);
    PlayFirst(c, s, false, who);
    who := [false] + who;
  }

  /** cpu1 is about to be held by the stop word: it has not yet seen that the round has begun. */
  ghost predicate Held(s: State) { s.p0.round == STOP && s.p1.pc.WaitStop? && s.p1.round + 1 == STOP }

  /** Unless cpu1 is held, the round gets to its sums, and cpu1 has acknowledged it. */
  lemma ToSum(c: Config, s: State) returns (who: seq<bool>)
    requires ConfigOk(c) && Inv(c, s) && BeforePoll(s.p0) && !Held(s)
    ensures var s' := Play(c, s, who);
            && s'.p0.pc.Sum1? && s'.p0.round == s.p0.round && Inv(c, s')
            && (s'.p1 == s.p1 || (s'.p1.pc.WaitStop? && s'.p1.round == s.p0.round))
  {
    hide Inv, Play;
    who := ToPoll(c, s);
    PlayInv(c, s, who);
    var s1 := Play(c, s, who);
    if Polling(s1) {
      PollingPhases(c, s1);
      var w := AckDone(c, s1);
      Then(c, s, who, w);
      who := who + w;
      PlayInv(c, s, who);
    }
    var s2 := Play(c, s, who);
    var w := PollToSum(c, s2);
    Then(c, s, who, w);
    who := who + w;
    PlayInv(c, s, who);
  }

  /** From the last merge or the sums, cpu0 alone begins the next round. */
  lemma ToNext(c: Config, s: State) returns (who: seq<bool>)
    requires ConfigOk(c) && Inv(c, s) && (s.p0.pc.Final? || s.p0.pc.Sum1? || s.p0.pc.Sum2?)
    ensures NextBegun(c, s, Play(c, s, who)) && Inv(c, Play(c, s, who))
  {
    hide Inv, Play;
    who := [];
    PlayNone(c, s);
    if s.p0.pc.Final? {
      who := FinalDone(c, s);
      PlayInv(c, s, who);
    }
    var w := SumDone(c, Play(c, s, who));
    Then(c, s, who, w);
    who := who + w;
    PlayInv(c, s, who);
  }

  // ----- every state of a run can finish, up to the stop word -----

  ghost predicate CanFinish(c: Config, s: State)
    requires |c.input| == N
  {
    exists who :: Play(c, s, who).p0.pc.Done?
  }

  lemma FinishEnds(c: Config, s: State) returns (who: seq<bool>)
    requires ConfigOk(c) && Inv(c, s) && s.p0.pc.Finish?
    ensures Inv(c, Play(c, s, who)) && Play(c, s, who).p0.pc.Done?
  {
    FinishMoves(c, s);
    hide Inv, Play, Step0;
    PlayNone(c, Turn(c, s, false));
    PlayFirst(c, s, false, []);
    who := [false] + [];
    PlayInv(c, s, who);
  }

  lemma SumPhase(c: Config, s: State) returns (who: seq<bool>)
    requires ConfigOk(c) && Inv(c, s) && s.p0.round < STOP && BeforePoll(s.p0)
    ensures Inv(c, Play(c, s, who)) && Phases(c, Play(c, s, who).p0) < Phases(c, s.p0)
  {
    hide Inv, Play;
    who := ToSum(c, s);
  }

  lemma NextPhase(c: Config, s: State) returns (who: seq<bool>)
    requires ConfigOk(c) && Inv(c, s) && (s.p0.pc.Final? || s.p0.pc.Sum1? || s.p0.pc.Sum2?)
    ensures Inv(c, Play(c, s, who)) && Phases(c, Play(c, s, who).p0) < Phases(c, s.p0)
  {
    hide Inv, Play;
    who := ToNext(c, s);
  }

  /** The current phase ends: the sums are reached, or the next round, or the end. */
  lemma PhaseEnds(c: Config, s: State) returns (who: seq<bool>)
    requires ConfigOk(c) && Inv(c, s) && c.limit <= STOP && !s.p0.pc.Done?
    ensures Inv(c, Play(c, s, who))
    ensures Play(c, s, who).p0.pc.Done? || (Phases(c, s.p0) >= 0 && Phases(c, Play(c, s, who).p0) < Phases(c, s.p0))
  {
    Counters(c, s);
    hide Inv, Play;
    if s.p0.pc.Finish? {
      who := FinishEnds(c, s);
    } else if BeforePoll(s.p0) {
      who := SumPhase(c, s);
    } else {
      who := NextPhase(c, s);
    }
  }

  /** How many phases are left: two a round. */
  ghost function Phases(c: Config, p: Cpu0): int { 2 * (c.limit - p.round) + if BeforePoll(p) then 1 else 0 }

  lemma {:induction false} Finishes(c: Config, s: State) returns (who: seq<bool>)
    requires ConfigOk(c) && Inv(c, s) && c.limit <= STOP
    ensures Play(c, s, who).p0.pc.Done?
    decreases Phases(c, s.p0)
  {
    hide Inv, Play;
    if s.p0.pc.Done? {
      PlayNone(c, s);
      who := [];
    } else {
      who := PhaseEnds(c, s);
      var s1 := Play(c, s, who);
      if !s1.p0.pc.Done? {
        var rest := Finishes(c, s1);
        Then(c, s, who, rest);
        who := who + rest;
      }
    }
  }

  // ----- the round of the stop word -----

  /** Both CPUs wait, and no access of either changes anything. */
  ghost predicate Stuck(s: State) { Polling(s) && s.p1.pc.WaitStop? && s.mem.ctl01 == STOP }

  lemma {:induction false} StuckStays(c: Config, s: State, who: seq<bool>)
    requires ConfigOk(c) && Stuck(s)
    ensures Play(c, s, who) == s
    decreases |who|
  {
    if who != [] {
      StuckForever(c, s);
      hide Step0, Step1;
      StuckStays(c, s, who[1..]);
    }
  }

  /** A round begins, and cpu1 is ready for it: it has passed its test for the stop word, or has not
      begun, or was held back by the stop word of the round before. */
  ghost predicate Ready(s: State) {
    && (s.p0.pc.Init0? || s.p0.pc.Finish?)
    && if s.p0.round == 0 then s.p1.pc.First? && s.p1.round == 0
       else s.p1.round + 1 == s.p0.round && (s.p1.pc.WaitSame? || (s.p1.pc.WaitStop? && s.p0.round == STOP + 1))
  }

  /** cpu1 tests for the stop word before cpu0 goes on. */
  lemma TestStop(c: Config, s: State) returns (who: seq<bool>)
    requires ConfigOk(c) && Inv(c, s) && s.p0.pc.Sum1? && s.p1.pc.WaitStop? && s.p1.round == s.p0.round
    ensures var s' := Play(c, s, who);
            && Inv(c, s') && s'.p0 == s.p0 && s'.p1.round == s.p0.round
            && (s'.p1.pc.WaitSame? || (s'.p1.pc.WaitStop? && s.p0.round == STOP))
  {
    hide Inv, Play;
    PlayInv(c, s, [true] + []);
    SumWord(c, s);
    OtherAccess(s);
    WaitStopNext(s.p1, Loaded(s.mem, Op1(s.p1)));
    hide Step1, Next1, Op1, Loaded;
    PlayFirst(c, s, true, []);
    PlayNone(c, Turn(c, s, true));
    who := [true] + [];
  }

  lemma SumWord(c: Config, s: State)
    requires ConfigOk(c) && Inv(c, s) && s.p0.pc.Sum1?
    ensures s.mem.ctl01 == s.p0.round
  {
    hide Handshake, DataOk;
  }

  lemma WaitStopNext(p: Cpu1, v: int)
    requires p.pc.WaitStop?
    ensures Next1(p, v).round == p.round && if v == STOP then Next1(p, v).pc.WaitStop? else Next1(p, v).pc.WaitSame?
  {
    hide StartMerge, MergeNext;
  }

  /** A whole round, with cpu1 ready at its beginning and at its end. */
  lemma WholeRound(c: Config, s: State) returns (who: seq<bool>)
    requires ConfigOk(c) && Inv(c, s) && Ready(s) && s.p0.pc.Init0?
    ensures var s' := Play(c, s, who);
            && Inv(c, s') && Ready(s') && s'.p0.round == s.p0.round + 1
            && (s'.p0.pc.Init0? <==> s'.p0.round < c.limit)
  {
    hide Inv, Play;
    who := ToSum(c, s);
    var s1 := Play(c, s, who);
    Acknowledged(c, s1);
    if s1.p1.pc.WaitStop? {
      var w := TestStop(c, s1);
      Then(c, s, who, w);
      who := who + w;
    }
    var s2 := Play(c, s, who);
    var w := ToNext(c, s2);
    Then(c, s, who, w);
    who := who + w;
  }

  /** While cpu0 sums, cpu1 waits, in the same round. */
  lemma Acknowledged(c: Config, s: State)
    requires ConfigOk(c) && Inv(c, s) && s.p0.pc.Sum1?
    ensures s.p1.round == s.p0.round && (s.p1.pc.WaitStop? || s.p1.pc.WaitSame?)
  {
    hide Control, DataOk;
  }

  lemma {:induction false} Rounds(c: Config, s: State, q: nat) returns (who: seq<bool>)
    requires ConfigOk(c) && Inv(c, s) && Ready(s) && s.p0.round <= q && (q <= c.limit || q == s.p0.round)
    requires s.p0.round < c.limit ==> s.p0.pc.Init0?
    ensures var s' := Play(c, s, who);
            && Inv(c, s') && Ready(s') && s'.p0.round == q
            && (s'.p0.round < c.limit ==> s'.p0.pc.Init0?)
    decreases q - s.p0.round
  {
    hide Inv, Play;
    if s.p0.round == q {
      PlayNone(c, s);
      who := [];
    } else {
      var first := WholeRound(c, s);
      var rest := Rounds(c, Play(c, s, first), q);
      Then(c, s, first, rest);
      who := first + rest;
    }
  }

  // ----- what runs reach -----

  ghost function Last(t: seq<State>): State
    requires t != []
  {
    t[|t| - 1]
  }

  lemma InitialReady(c: Config) returns (s: State)
    requires ConfigOk(c)
    ensures Initial(c, s) && Run(c, [s]) && Inv(c, s) && Ready(s) && s.p0.round == 0 &&
            (0 < c.limit <==> s.p0.pc.Init0?)
  {
    s := InitialExists(c, seq(WORDS, _ => 0));
    InvInitial(c, s);
    hide Inv;
  }

  /** From an initial state to the beginning of round q, with cpu1 ready, as a run. */
  lemma RunToRound(c: Config, q: nat) returns (t: seq<State>)
    requires ConfigOk(c) && q <= c.limit
    ensures Run(c, t) && Inv(c, Last(t)) && Ready(Last(t)) && Last(t).p0.round == q &&
            (q < c.limit ==> Last(t).p0.pc.Init0?)
  {
    hide Inv, Run, Initial, Ready, Play;
    var s := InitialReady(c);
    var who := Rounds(c, s, q);
    t := Extend(c, [s], who);
    RunNonEmpty(c, t);
  }

  lemma RunNonEmpty(c: Config, t: seq<State>)
    requires |c.input| == N && Run(c, t)
    ensures t != []
  {
  }

  /** Every round below the limit, in some run, gets to its sums, with the sorted input in bank 1. */
  lemma EveryRoundSorts(c: Config, q: nat) returns (t: seq<State>)
    requires ConfigOk(c) && q < c.limit
    ensures Run(c, t) && Last(t).p0.pc.Sum1? && Last(t).p0.round == q && |Last(t).mem.work| == WORDS
    ensures var bank1 := Last(t).mem.work[c.off + N..c.off + 2 * N];
            Sorted(bank1) && multiset(bank1) == multiset(c.input)
    ensures Last(t).p1.round == q && Last(t).p1.pc.WaitStop?
  {
    hide Inv, Run, Play, Sorted;
    var u := RunToRound(c, q);
    RunNonEmpty(c, u);
    var s := Last(u);
    var who := ToSum(c, s);
    t := Extend(c, u, who);
    RunNonEmpty(c, t);
    Acknowledged(c, Last(t));
    SortedAfterMerge(c, t, |t| - 1);
  }

  /** With more rounds than the stop word, some schedule gets stuck. */
  lemma StuckReached(c: Config) returns (t: seq<State>)
    requires ConfigOk(c) && c.limit > STOP
    ensures Run(c, t) && Stuck(Last(t))
  {
    hide Inv, Run, Play, Sorted;
    var u := EveryRoundSorts(c, (STOP - 1) as nat);
    RunNonEmpty(c, u);
    RunInv(c, u, |u| - 1);
    var s := Last(u);
    var who := ToNext(c, s);
    var s1 := Play(c, s, who);
    var w := ToPoll(c, s1);
    Then(c, s, who, w);
    PlayInv(c, s, who + w);
    HeldIsStuck(c, Play(c, s, who + w));
    t := Extend(c, u, who + w);
    RunNonEmpty(c, t);
  }

  lemma HeldIsStuck(c: Config, s: State)
    requires ConfigOk(c) && Inv(c, s) && Held(s) && s.p0.pc.Poll?
    ensures Stuck(s)
  {
    hide Handshake, DataOk;
  }

  /** Some run gets stuck exactly when there are more rounds than the stop word. */
  lemma StuckExactly(c: Config)
    requires ConfigOk(c)
    ensures (exists t: seq<State> {:trigger Run(c, t)} :: Run(c, t) && t != [] && Stuck(Last(t))) <==> c.limit > 0xffff
  {
    hide Run, Inv;
    if c.limit > STOP {
      var t := StuckReached(c);
      RunNonEmpty(c, t);
    } else {
      forall t: seq<State> {:trigger Run(c, t)} | Run(c, t) && t != []
        ensures !Stuck(Last(t))
      {
        if Stuck(Last(t)) { DeadlockExactly(c, t, |t| - 1); }
      }
    }
  }

  /** Every state of every run can go on to the end exactly when there are no more rounds than that. */
  lemma FinishExactly(c: Config)
    requires ConfigOk(c)
    ensures (forall t: seq<State> {:trigger Run(c, t)} :: Run(c, t) && t != [] ==> CanFinish(c, Last(t))) <==>
            c.limit <= 0xffff
  {
    hide Run, Inv, Play;
    if c.limit <= STOP {
      forall t: seq<State> {:trigger Run(c, t)} | Run(c, t) && t != []
        ensures CanFinish(c, Last(t))
      {
        RunInv(c, t, |t| - 1);
        var who := Finishes(c, Last(t));
      }
    } else {
      var t := StuckReached(c);
      RunNonEmpty(c, t);
      var s := Last(t);
      forall who
        ensures !Play(c, s, who).p0.pc.Done?
      {
        StuckStays(c, s, who);
      }
      assert !CanFinish(c, s);
    }
  }

  // ----- the unannounced round -----

  /** cpu1 sorts in a round that cpu0 never announced. */
  ghost predicate Unannounced(c: Config, s: State) { s.p1.pc.Sort1? && s.p1.round == c.limit }

  /** What keeps cpu1 from it: no round at all, its own last round, or the stop word as the last round. */
  ghost predicate Kept(c: Config, s: State) {
    && (c.limit <= 0 ==> s.p1.pc.First?)
    && (!s.p1.pc.Halted? ==> s.p1.round < LAST_ROUND)
    && (c.limit == STOP + 1 ==> s.p1.round <= STOP && !(s.p1.round == STOP && s.p1.pc.WaitSame?))
  }

  lemma KeptStep1(c: Config, s: State)
    requires ConfigOk(c) && Inv(c, s) && Kept(c, s)
    ensures Kept(c, Step1(s))
  {
    if s.p1.pc.Sort1? {
      Geometry(c, s);
      Sort1Next(s.p1, Loaded(s.mem, Op1(s.p1)), c.off);
      hide Inv, SortGeo, Next1, Further;
    } else {
      LastWord(c, s);
      OtherAccess(s);
      KeptNext(c, s.p1, Loaded(s.mem, Op1(s.p1)));
      hide Inv, Next1, Step1;
    }
  }

  /** The control word that cpu1 can read. */
  lemma LastWord(c: Config, s: State)
    requires ConfigOk(c) && Inv(c, s)
    ensures c.limit <= 0 ==> s.mem.ctl01 == STOP
    ensures c.limit == STOP + 1 && s.p1.round == STOP && s.p1.pc.WaitStop? ==> s.mem.ctl01 == STOP
  {
    hide DataOk;
  }

  lemma KeptNext(c: Config, p: Cpu1, v: int)
    requires !p.pc.Sort1? && (c.limit <= 0 ==> p.pc.First? && v == STOP) && (!p.pc.Halted? ==> p.round < LAST_ROUND)
    requires c.limit == STOP + 1 ==> p.round <= STOP && !(p.round == STOP && p.pc.WaitSame?)
    requires c.limit == STOP + 1 && p.round == STOP && p.pc.WaitStop? ==> v == STOP
    ensures var p' := Next1(p, v);
            && (c.limit <= 0 ==> p'.pc.First?) && (!p'.pc.Halted? ==> p'.round < LAST_ROUND)
            && (c.limit == STOP + 1 ==> p'.round <= STOP && !(p'.round == STOP && p'.pc.WaitSame?))
  {
    hide StartMerge, MergeNext;
  }

  lemma {:induction false} RunKept(c: Config, t: seq<State>, k: nat)
    requires ConfigOk(c) && Run(c, t) && k < |t|
    ensures Kept(c, t[k])
    decreases k
  {
    if k > 0 {
      assert t[k] == Step0(c, t[k - 1]) || t[k] == Step1(t[k - 1]);
      hide Run, Inv, Step0, Step1, Kept;
      RunKept(c, t, k - 1);
      RunInv(c, t, k - 1);
      KeptStep0(c, t[k - 1]);
      KeptStep1(c, t[k - 1]);
    } else {
      hide Inv, Kept;
      KeptInitial(c, t[0]);
    }
  }

  lemma KeptInitial(c: Config, s: State)
    requires ConfigOk(c) && Initial(c, s)
    ensures Kept(c, s)
  {
    hide StartRound;
  }

  lemma KeptStep0(c: Config, s: State)
    requires ConfigOk(c) && Kept(c, s)
    ensures Kept(c, Step0(c, s))
  {
    hide Step0;
    Access0(c, s);
  }

  /** A run that ends with an unannounced round. */
  lemma ExtraRoundReached(c: Config) returns (t: seq<State>)
    requires ConfigOk(c) && 1 <= c.limit < LAST_ROUND && c.limit != STOP + 1
    ensures Run(c, t) && Unannounced(c, Last(t))
  {
    hide Inv, Run, Play;
    var u := RunToRound(c, c.limit as nat);
    RunNonEmpty(c, u);
    var s := Last(u);
    AtLimit(c, s);
    ExtraRound(c, u, |u| - 1);
    hide Step0, Step1;
    PlayTwo(c, s);
    t := Extend(c, u, [false, true]);
    RunNonEmpty(c, t);
  }

  lemma AtLimit(c: Config, s: State)
    requires ConfigOk(c) && Inv(c, s) && s.p0.round == c.limit
    ensures s.p0.pc.Finish? || s.p0.pc.Done?
  {
    hide Handshake, DataOk;
  }

  lemma PlayTwo(c: Config, s: State)
    requires |c.input| == N
    ensures Play(c, s, [false, true]) == Step1(Step0(c, s))
  {
    hide Step0, Step1;
    assert [false, true][1..] == [true] && [true][1..] == [];
    assert Play(c, s, [false, true]) == Play(c, Turn(c, s, false), [true]);
    assert Play(c, Turn(c, s, false), [true]) == Play(c, Turn(c, Turn(c, s, false), true), []);
  }

  /** Some run has an unannounced round exactly for these limits. */
  lemma ExtraRoundExactly(c: Config)
    requires ConfigOk(c)
    ensures (exists t: seq<State> {:trigger Run(c, t)} :: Run(c, t) && t != [] && Unannounced(c, Last(t))) <==>
            1 <= c.limit < 0x7fffffff && c.limit != 0x10000
  {
    hide Run, Inv;
    if 1 <= c.limit < LAST_ROUND && c.limit != STOP + 1 {
      var t := ExtraRoundReached(c);
      RunNonEmpty(c, t);
    } else {
      forall t: seq<State> {:trigger Run(c, t)} | Run(c, t) && t != []
        ensures !Unannounced(c, Last(t))
      {
        RunKept(c, t, |t| - 1);
      }
    }
  }
}
