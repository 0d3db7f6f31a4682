/**
  Progress of the two-CPU workload: every state of every run can go on to the end, so the outcome
  that all finished runs share is there to be reached.
 */
module SmpWorkloadProgress {
  import opened SmpWorkload
  import opened SmpWorkloadProof

  /** The state a schedule leads to: true stands for cpu1. */
  ghost function Play(c: Config, s: State, who: seq<bool>): State
    decreases |who|
  {
    if who == [] then s else Play(c, Step(c, s, if who[0] then 1 else 0), who[1..])
  }

  lemma {:induction false} PlayConcat(c: Config, s: State, a: seq<bool>, b: seq<bool>)
    ensures Play(c, s, a + b) == Play(c, Play(c, s, a), b)
    decreases |a|
  {
    hide Step;
    if a == [] {
      assert a + b == b;
    } else {
      assert (a + b)[0] == a[0] && (a + b)[1..] == a[1..] + b;
      PlayConcat(c, Step(c, s, if a[0] then 1 else 0), a[1..], b);
    }
  }

  lemma PlayFirst(c: Config, s: State, x: bool, who: seq<bool>)
    ensures Play(c, s, [x] + who) == Play(c, Step(c, s, if x then 1 else 0), who)
  {
    hide Step;
    assert ([x] + who)[0] == x && ([x] + who)[1..] == who;
  }

  lemma PlayNone(c: Config, s: State)
    ensures Play(c, s, []) == s
  {
  }

  /** Every run can be continued by every schedule. */
  lemma {:induction false} Extend(c: Config, t: seq<State>, who: seq<bool>) returns (u: seq<State>)
    requires Run(c, t)
    ensures Run(c, u) && t <= u && u[|u| - 1] == Play(c, t[|t| - 1], who)
    decreases |who|
  {
    hide Step, Initial;
    if who == [] {
      u := t;
    } else {
      var s := Step(c, t[|t| - 1], if who[0] then 1 else 0);
      var v := t + [s];
      forall k {:trigger v[k]} | 0 < k < |v|
        ensures v[k] == Step(c, v[k - 1], 0) || v[k] == Step(c, v[k - 1], 1)
      {
        assert v[k - 1] == t[k - 1];
        if k < |t| { assert v[k] == t[k]; }
      }
      assert v[0] == t[0];
      u := Extend(c, v, who[1..]);
    }
  }

  // ----- one CPU alone -----

  ghost function CpuOf(s: State, id: nat): Cpu { if id == 0 then s.p0 else s.p1 }

  ghost predicate Running(p: Cpu) { p.pc.Pat? || p.pc.Access? || p.pc.Report? }

  /** Ranges of both programs, and the flag stands exactly when cpu1 has ended. */
  ghost predicate Sane(c: Config, s: State) {
    CpuOk(c, 0, s.p0) && CpuOk(c, 1, s.p1) && (s.flag != 0 <==> s.p1.pc.Over?)
  }

  lemma SaneStep(c: Config, s: State, id: nat)
    requires PatternOk(c.pattern) && Sane(c, s) && id < 2
    ensures Sane(c, Step(c, s, id))
  {
    StepRange(c, id, CpuOf(s, id), s.cells, s.flag);
    FlagStep(c, s, id);
    hide Next, OpOf, Cell, PatternOk, CpuOk;
  }

  lemma FlagStep(c: Config, s: State, id: nat)
    requires (s.flag != 0 <==> s.p1.pc.Over?) && id < 2
    ensures Step(c, s, id).flag != 0 <==> Step(c, s, id).p1.pc.Over?
  {
    hide Cell, NextPat, Start;
    if id == 1 { OverNext(c, s.p1, Read(c, s.cells, s.flag, OpOf(1, s.p1))); }
    hide Next;
  }

  lemma OverNext(c: Config, p: Cpu, v: int)
    ensures Next(c, 1, p, v).pc.Over? <==> p.pc.End? || p.pc.Over?
  {
    hide NextPat;
  }

  lemma {:induction false} RunSane(c: Config, t: seq<State>, n: nat)
    requires PatternOk(c.pattern) && Run(c, t) && n < |t|
    ensures Sane(c, t[n])
    decreases n
  {
    if n == 0 {
      StartOk(c, 0);
      StartOk(c, 1);
      hide CpuOk, PatternOk, FirstPat;
    } else {
      assert t[n] == Step(c, t[n - 1], 0) || t[n] == Step(c, t[n - 1], 1);
      hide Sane, Step, Run, PatternOk;
      RunSane(c, t, n - 1);
      SaneStep(c, t[n - 1], 0);
      SaneStep(c, t[n - 1], 1);
    }
  }

  lemma OtherKept(c: Config, s: State, id: nat)
    requires id < 2
    ensures CpuOf(Step(c, s, id), 1 - id) == CpuOf(s, 1 - id)
    ensures CpuOf(Step(c, s, id), id) == Next(c, id, CpuOf(s, id), Read(c, s.cells, s.flag, OpOf(id, CpuOf(s, id))))
  {
    hide Next, OpOf;
  }

  /** What is left of a program, as far as one access changes it. */
  ghost predicate Further(c: Config, p: Cpu, q: Cpu) {
    || q.i > p.i
    || (q.i == p.i && (q.j > p.j || (q.j == p.j && (q.k > p.k || (q.k == p.k && Stage(q) < Stage(p))))))
  }

  lemma MovesOn(c: Config, id: nat, p: Cpu, v: int)
    requires CpuOk(c, id, p) && Running(p) && id < 2
    ensures var q := Next(c, id, p, v); Further(c, p, q) && (Running(q) || q.pc.End?)
  {
    hide NextPat;
  }

  /** A program that runs alone gets to its end; the other one is where it was. */
  lemma {:induction false} CpuEnds(c: Config, s: State, id: nat) returns (who: seq<bool>)
    requires PatternOk(c.pattern) && Sane(c, s) && id < 2
    ensures var s' := Play(c, s, who); Sane(c, s') && !Running(CpuOf(s', id)) && CpuOf(s', 1 - id) == CpuOf(s, 1 - id)
    decreases c.limit - CpuOf(s, id).i, INNER - CpuOf(s, id).j, 5 - CpuOf(s, id).k, Stage(CpuOf(s, id))
  {
    var p := CpuOf(s, id);
    if !Running(p) {
      PlayNone(c, s);
      who := [];
    } else {
      SaneStep(c, s, id);
      OtherKept(c, s, id);
      MovesOn(c, id, p, Read(c, s.cells, s.flag, OpOf(id, p)));
      var s1 := Step(c, s, id);
      Bounds(c, id, p);
      hide Step, Next, OpOf, Read, Play, PatternOk, CpuOk, Stage, Sane;
      who := CpuEnds(c, s1, id);
      PlayFirst(c, s, id == 1, who);
      who := [id == 1] + who;
    }
  }

  lemma Bounds(c: Config, id: nat, p: Cpu)
    requires CpuOk(c, id, p) && Running(p)
    ensures p.i < c.limit && p.j <= INNER && (p.k < 5 || p.pc.Report?)
  {
  }

  // ----- both together -----

  /** From every state of a run there is a schedule to the end of cpu0's program. */
  lemma Finishes(c: Config, s: State) returns (who: seq<bool>)
    requires PatternOk(c.pattern) && Sane(c, s)
    ensures Sane(c, Play(c, s, who)) && Play(c, s, who).p0.pc.Over?
  {
    hide Sane, Play, PatternOk, Step;
    who := CpuEnds(c, s, 1);
    var s1 := Play(c, s, who);
    var w := SetFlag(c, s1);
    PlayConcat(c, s, who, w);
    who := who + w;
    var s2 := Play(c, s, who);
    w := CpuEnds(c, s2, 0);
    PlayConcat(c, s, who, w);
    who := who + w;
    var s3 := Play(c, s, who);
    w := SeeFlag(c, s3);
    PlayConcat(c, s, who, w);
    who := who + w;
  }

  /** At its end cpu1 sets the flag. */
  lemma SetFlag(c: Config, s: State) returns (who: seq<bool>)
    requires PatternOk(c.pattern) && Sane(c, s) && !Running(s.p1)
    ensures var s' := Play(c, s, who); Sane(c, s') && s'.p1.pc.Over? && s'.p0 == s.p0
  {
    if s.p1.pc.Over? {
      PlayNone(c, s);
      who := [];
    } else {
      SaneStep(c, s, 1);
      OtherKept(c, s, 1);
      OverNext(c, s.p1, Read(c, s.cells, s.flag, OpOf(1, s.p1)));
      hide Sane, Play, PatternOk, Step, Next, OpOf, Read;
      PlayFirst(c, s, true, []);
      PlayNone(c, Step(c, s, 1));
      who := [true] + [];
    }
  }

  /** Once the flag is set cpu0's wait ends. */
  lemma SeeFlag(c: Config, s: State) returns (who: seq<bool>)
    requires PatternOk(c.pattern) && Sane(c, s) && !Running(s.p0) && s.p1.pc.Over?
    ensures var s' := Play(c, s, who); Sane(c, s') && s'.p0.pc.Over?
  {
    if s.p0.pc.Over? {
      PlayNone(c, s);
      who := [];
    } else {
      SaneStep(c, s, 0);
      OtherKept(c, s, 0);
      assert Read(c, s.cells, s.flag, OpOf(0, s.p0)) == s.flag != 0;
      EndNext(c, s.p0, s.flag);
      hide Sane, Play, PatternOk, Step, Next, OpOf, Read;
      PlayFirst(c, s, false, []);
      PlayNone(c, Step(c, s, 0));
      who := [false] + [];
    }
  }

  lemma EndNext(c: Config, p: Cpu, v: int)
    requires p.pc.End? && v != 0
    ensures Next(c, 0, p, v).pc.Over?
  {
  }

  /** Every run, wherever it stands, can be continued to the end of cpu0's program. */
  lemma GoesOn(c: Config, t: seq<State>) returns (u: seq<State>)
    requires PatternOk(c.pattern) && Run(c, t)
    ensures Run(c, u) && t <= u && u[|u| - 1].p0.pc.Over?
  {
    hide *;
    LastOf(c, t);
    RunSane(c, t, |t| - 1);
    var who := Finishes(c, t[|t| - 1]);
    u := Extend(c, t, who);
  }

  lemma LastOf(c: Config, t: seq<State>)
    requires Run(c, t)
    ensures |t| > 0
  {
  }

  /** ... and then it holds the array of the sequential program. */
  lemma EveryRunFinishes(c: Config, t: seq<State>) returns (u: seq<State>)
    requires PatternOk(c.pattern) && Run(c, t)
    ensures Run(c, u) && t <= u && u[|u| - 1].p0.pc.Over? && u[|u| - 1].cells == Outcome(c, seq(SIZE, x => x))
  {
    hide *;
    u := GoesOn(c, t);
    LastOf(c, u);
    ConcurrentOutcome(c, u, |u| - 1);
  }
}
