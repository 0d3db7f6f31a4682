/**
  Fair schedules of the two-CPU workload: the accesses that are left, polls in vain not included, go
  down to zero, and from then on the array is that of the sequential program.
 */
module SmpWorkloadFair {
  import opened Schedules
  import opened SmpWorkload
  import opened SmpWorkloadProof
  import opened SmpWorkloadProgress

  const ROUND: nat := 6506   // the accesses of one CPU in one round

  ghost function RoundsOf(c: Config): nat { if c.limit < 0 then 0 else c.limit }

  /** What is left of a round. */
  ghost function RoundLeft(p: Cpu): int {
    match p.pc
    case Pat => REPORT + 1 + 10 * (INNER - p.j) - 2 * p.k
    case Access => REPORT + 10 * (INNER - p.j) - 2 * p.k
    case Report => REPORT + 1 - p.r
    case _ => 0
  }

  /** An upper bound on the accesses a program still makes. */
  ghost function CpuLeft(c: Config, p: Cpu): int {
    if p.pc.Over? then 0
    else if p.pc.End? then 1
    else (RoundsOf(c) - 1 - p.i) * ROUND + RoundLeft(p)
  }

  ghost function Rank(c: Config, s: State): int { CpuLeft(c, s.p0) + CpuLeft(c, s.p1) }

  /** The access changes nothing: cpu0 waits for the flag, or the program has ended. */
  ghost predicate Vain(s: State, id: nat) { CpuOf(s, id).pc.Over? || (id == 0 && s.p0.pc.End? && s.flag == 0) }

  lemma LeftPositive(c: Config, id: nat, p: Cpu)
    requires CpuOk(c, id, p)
    ensures CpuLeft(c, p) >= 0 && (!p.pc.Over? ==> CpuLeft(c, p) > 0)
  {
  }

  lemma LeftNext(c: Config, id: nat, p: Cpu, v: int)
    requires CpuOk(c, id, p) && !p.pc.Over? && (id == 0 && p.pc.End? ==> v != 0)
    ensures CpuLeft(c, Next(c, id, p, v)) < CpuLeft(c, p)
  {
    hide NextPat;
  }

  lemma InVain(c: Config, s: State, id: nat)
    requires id < 2 && Vain(s, id)
    ensures Step(c, s, id) == s
  {
  }

  lemma FlagRead(c: Config, s: State)
    ensures s.p0.pc.End? ==> Read(c, s.cells, s.flag, OpOf(0, s.p0)) == s.flag
  {
  }

  /** An access in vain changes nothing; any other lowers the rank. */
  lemma RankStep(c: Config, s: State, id: nat)
    requires PatternOk(c.pattern) && Sane(c, s) && id < 2
    ensures if Vain(s, id) then Step(c, s, id) == s else Rank(c, Step(c, s, id)) < Rank(c, s)
  {
    hide Step, PatternOk, CpuOk, Next, OpOf, Read, CpuLeft;
    if Vain(s, id) {
      InVain(c, s, id);
    } else {
      OtherKept(c, s, id);
      FlagRead(c, s);
      LeftNext(c, id, CpuOf(s, id), Read(c, s.cells, s.flag, OpOf(id, CpuOf(s, id))));
    }
  }

  /** Before cpu0's end one of the CPUs can make a useful access. */
  lemma Mover(c: Config, s: State)
    requires Sane(c, s) && !s.p0.pc.Over?
    ensures !Vain(s, 0) || !Vain(s, 1)
  {
    hide CpuOk;
  }

  ghost function IdOf(b: bool): nat { if b then 1 else 0 }

  // ----- schedules -----

  /** How many accesses of a schedule are not in vain. */
  ghost function Useful(c: Config, s: State, who: seq<bool>): nat
    decreases |who|
  {
    if who == [] then 0
    else (if Vain(s, IdOf(who[0])) then 0 else 1) + Useful(c, Step(c, s, IdOf(who[0])), who[1..])
  }

  lemma RankPositive(c: Config, s: State)
    requires Sane(c, s)
    ensures Rank(c, s) >= 0
  {
    hide CpuOk, CpuLeft;
    LeftPositive(c, 0, s.p0);
    LeftPositive(c, 1, s.p1);
  }

  lemma {:induction false} UsefulBounded(c: Config, s: State, who: seq<bool>)
    requires PatternOk(c.pattern) && Sane(c, s)
    ensures Sane(c, Play(c, s, who)) && Useful(c, s, who) + Rank(c, Play(c, s, who)) <= Rank(c, s)
    decreases |who|
  {
    hide Sane, Step, Rank, Vain, PatternOk;
    if who != [] {
      RankStep(c, s, IdOf(who[0]));
      SaneStep(c, s, IdOf(who[0]));
      UsefulBounded(c, Step(c, s, IdOf(who[0])), who[1..]);
    }
  }

  lemma RankInitial(c: Config, s: State)
    requires Initial(c, s)
    ensures Rank(c, s) <= 2 * RoundsOf(c) * ROUND + 2
  {
  }

  lemma SaneInitial(c: Config, s: State)
    requires PatternOk(c.pattern) && Initial(c, s)
    ensures Sane(c, s)
  {
    assert Run(c, [s]);
    hide Run, PatternOk, Sane, Initial;
    RunSane(c, [s], 0);
  }

  /** Every schedule makes at most 13012 accesses a round, and two more; all others are polls in vain. */
  lemma WorkBounded(c: Config, s: State, who: seq<bool>)
    requires PatternOk(c.pattern) && Initial(c, s)
    ensures Useful(c, s, who) <= RoundsOf(c) * 13012 + 2
  {
    hide Rank, Initial, Play, PatternOk, Sane, Useful;
    SaneInitial(c, s);
    RankInitial(c, s);
    UsefulBounded(c, s, who);
    RankPositive(c, Play(c, s, who));
  }

  // ----- fair schedules -----

  /** A CPU that could make a useful access still can, until the rank falls. */
  lemma {:induction false} TurnHelps(c: Config, s: State, who: seq<bool>, b: bool)
    requires PatternOk(c.pattern) && Sane(c, s) && who != [] && who[|who| - 1] == b && !Vain(s, IdOf(b))
    ensures Rank(c, Play(c, s, who)) < Rank(c, s)
    decreases |who|
  {
    hide Sane, Step, Rank, Vain, PatternOk;
    RankStep(c, s, IdOf(who[0]));
    SaneStep(c, s, IdOf(who[0]));
    if Vain(s, IdOf(who[0])) {
      TurnHelps(c, s, who[1..], b);
    } else {
      UsefulBounded(c, Step(c, s, IdOf(who[0])), who[1..]);
    }
  }

  /** The state of a schedule at an instant. */
  ghost function At(c: Config, s: State, who: Schedule, n: nat): State { Play(c, s, Between(who, 0, n)) }

  lemma AtLater(c: Config, s: State, who: Schedule, n: nat, m: nat)
    requires n <= m
    ensures At(c, s, who, m) == Play(c, At(c, s, who, n), Between(who, n, m))
  {
    hide Play;
    BetweenJoins(who, 0, n, m);
    PlayConcat(c, s, Between(who, 0, n), Between(who, n, m));
  }

  ghost function RankOrZero(c: Config, s: State): nat { if Rank(c, s) < 0 then 0 else Rank(c, s) }

  /** In every fair schedule cpu0 comes to its end. */
  lemma {:induction false} FairEnds(c: Config, s: State, who: Schedule, n: nat) returns (m: nat)
    requires PatternOk(c.pattern) && Fair(who) && Sane(c, At(c, s, who, n))
    ensures n <= m && At(c, s, who, m).p0.pc.Over?
    decreases RankOrZero(c, At(c, s, who, n))
  {
    hide Sane, Rank, Vain, At, Between, PatternOk;
    var here := At(c, s, who, n);
    if here.p0.pc.Over? {
      m := n;
    } else {
      RankPositive(c, here);
      var k := HelpingTurn(c, here, who, n);
      AtLater(c, s, who, n, k);
      RankPositive(c, At(c, s, who, k));
      m := FairEnds(c, s, who, k);
    }
  }

  /** In a fair schedule the rank falls sooner or later. */
  lemma HelpingTurn(c: Config, s: State, who: Schedule, n: nat) returns (k: nat)
    requires PatternOk(c.pattern) && Fair(who) && Sane(c, s) && !s.p0.pc.Over?
    ensures n < k && Sane(c, Play(c, s, Between(who, n, k)))
    ensures Rank(c, Play(c, s, Between(who, n, k))) < Rank(c, s)
  {
    hide Sane, Rank, Vain, Play, PatternOk, Useful;
    Mover(c, s);
    var b := Vain(s, 0);
    assert Later(who, n, b);
    var m: nat :| n <= m && who(m) == b;
    k := m + 1;
    TurnHelps(c, s, Between(who, n, k), b);
    UsefulBounded(c, s, Between(who, n, k));
  }

  lemma {:induction false} OverStays(c: Config, s: State, who: seq<bool>)
    requires s.p0.pc.Over?
    ensures Play(c, s, who).p0.pc.Over?
    decreases |who|
  {
    if who != [] {
      OverStep(c, s, IdOf(who[0]));
      hide Step;
      OverStays(c, Step(c, s, IdOf(who[0])), who[1..]);
    }
  }

  lemma OverStep(c: Config, s: State, id: nat)
    requires s.p0.pc.Over?
    ensures Step(c, s, id).p0.pc.Over?
  {
  }

  /** Whatever schedule has brought cpu0 to its end, the array is the outcome. */
  lemma OutcomeThen(c: Config, s: State, who: seq<bool>)
    requires PatternOk(c.pattern) && Initial(c, s) && Play(c, s, who).p0.pc.Over?
    ensures Play(c, s, who).cells == Outcome(c, seq(SIZE, x => x))
  {
    assert Run(c, [s]);
    hide *;
    var u := Extend(c, [s], who);
    LastOf(c, u);
    ConcurrentOutcome(c, u, |u| - 1);
  }

  /** From an instant on cpu0 has ended and the array is the outcome. */
  ghost predicate EndsWith(c: Config, s: State, who: Schedule, n: nat, r: seq<int>) {
    forall m: nat :: n <= m ==> At(c, s, who, m).p0.pc.Over? && At(c, s, who, m).cells == r
  }

  /**
    Every fair schedule of the workload comes to its end, for every loop count, and from then on the
    array is that of the sequential program.
   */
  lemma FairOutcome(c: Config, s: State, who: Schedule) returns (n: nat)
    requires PatternOk(c.pattern) && Initial(c, s) && Fair(who)
    ensures EndsWith(c, s, who, n, Outcome(c, seq(SIZE, x => x)))
  {
    hide Initial, PatternOk, Sane, Outcome, Play, Between, Fair;
    assert Between(who, 0, 0) == [];
    PlayNone(c, s);
    SaneInitial(c, s);
    n := FairEnds(c, s, who, 0);
    forall m: nat | n <= m
      ensures At(c, s, who, m).p0.pc.Over? && At(c, s, who, m).cells == Outcome(c, seq(SIZE, x => x))
    {
      AtLater(c, s, who, n, m);
      OverStays(c, At(c, s, who, n), Between(who, n, m));
      OutcomeThen(c, s, Between(who, 0, m));
    }
  }
}
