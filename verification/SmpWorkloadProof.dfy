/**
  Every interleaving of the smptest11 workload ends with the array that the sequential
  program test11_x86.c computes.
 */
module SmpWorkloadProof {
  import opened SmpWorkload
  import opened SmpWorkloadLaw

  ghost predicate Inv(c: Config, s: State, a0: seq<int>) {
    && |s.cells| == SIZE && |a0| == SIZE
    && CpuOk(c, 0, s.p0) && CpuOk(c, 1, s.p1)
    && SameParity(Solo(c, 0, s.p0, s.cells), Solo(c, 0, Start(c, 0, FirstPat(0)), a0), 0)
    && SameParity(Solo(c, 1, s.p1, s.cells), Solo(c, 1, Start(c, 0, FirstPat(1)), a0), 1)
    && (s.flag != 0 ==> s.p1.pc.Over?)
    && (s.p0.pc.Over? ==> s.flag != 0)
  }

  lemma SoloStep(c: Config, id: nat, p: Cpu, a: seq<int>)
    requires CpuOk(c, id, p)
    ensures !p.pc.End? && !p.pc.Over? ==>
              Solo(c, id, p, a) == Solo(c, id, Next(c, id, p, Read(c, a, 0, OpOf(id, p))), Write(a, OpOf(id, p)))
    ensures p.pc.End? || p.pc.Over? ==> Solo(c, id, p, a) == a
  {
  }

  lemma StoreKeepsOther(a: seq<int>, op: Op, id: nat)
    requires |a| == SIZE && id < 2 && (op.StoreCell? ==> op.x < SIZE && op.x % 2 == id)
    ensures |Write(a, op)| == SIZE && SameParity(a, Write(a, op), 1 - id)
  {
  }

  lemma Transitive(a: seq<int>, b: seq<int>, d: seq<int>, id: nat)
    requires SameParity(a, b, id) && SameParity(a, d, id)
    ensures SameParity(b, d, id)
  {
  }

  lemma InvStep(c: Config, s: State, a0: seq<int>, id: nat)
    requires PatternOk(c.pattern) && Inv(c, s, a0) && id < 2
    ensures Inv(c, Step(c, s, id), a0)
  {
    hide Solo, SameParity, Cell, NextPat, PatternOk, FirstPat;
    var p, o := if id == 0 then s.p0 else s.p1, if id == 0 then s.p1 else s.p0;
    var op := OpOf(id, p);
    StepRange(c, id, p, s.cells, s.flag);
    StoreKeepsOther(s.cells, op, id);
    SoloStep(c, id, p, s.cells);
    var q := Next(c, id, p, Read(c, s.cells, s.flag, op));
    SoloStep(c, id, q, s.cells);
    SoloParity(c, 1 - id, o, s.cells, Write(s.cells, op));
    Transitive(Solo(c, 1 - id, o, s.cells), Solo(c, 1 - id, o, Write(s.cells, op)),
               Solo(c, 1 - id, Start(c, 0, FirstPat(1 - id)), a0), 1 - id);
  }

  lemma SoloLength(c: Config, id: nat, p: Cpu, a: seq<int>)
    requires PatternOk(c.pattern) && id < 2 && CpuOk(c, id, p) && |a| == SIZE
    ensures |Solo(c, id, p, a)| == SIZE
  {
    SoloParity(c, id, p, a, a);
  }

  lemma StartOk(c: Config, id: nat)
    requires PatternOk(c.pattern) && id < 2
    ensures CpuOk(c, id, Start(c, 0, FirstPat(id)))
  {
  }

  lemma {:induction false} RunInv(c: Config, t: seq<State>, n: nat)
    requires PatternOk(c.pattern) && Run(c, t) && n < |t|
    ensures Inv(c, t[n], seq(SIZE, x => x))
    decreases n
  {
    hide Solo, Step, Inv, PatternOk;
    if n == 0 {
      InvInitial(c, t[0]);
    } else {
      RunInv(c, t, n - 1);
      InvStep(c, t[n - 1], seq(SIZE, x => x), 0);
      InvStep(c, t[n - 1], seq(SIZE, x => x), 1);
    }
  }

  lemma InvInitial(c: Config, s: State)
    requires PatternOk(c.pattern) && Initial(c, s)
    ensures Inv(c, s, seq(SIZE, x => x))
  {
    hide Solo, FirstPat;
    var a0 := seq(SIZE, x => x);
    StartOk(c, 0);
    StartOk(c, 1);
    SoloLength(c, 0, s.p0, a0);
    SoloLength(c, 1, s.p1, a0);
  }

  /**
    In every interleaving, once cpu0 has seen the finish flag the array is the one the
    two programs compute alone, each on its own parity: cell x holds what all the inner steps
    of program x % 2, one after the other, make of it.
   */
  lemma ConcurrentOutcome(c: Config, t: seq<State>, n: nat)
    requires PatternOk(c.pattern) && Run(c, t) && n < |t| && t[n].p0.pc.Over?
    ensures t[n].cells == Outcome(c, seq(SIZE, x => x))
    ensures forall x :: 0 <= x < SIZE ==>
              t[n].cells[x] == Turns(c.pattern, x % 2, InnerSteps(c), seq(SIZE, y => y))[x]
  {
    hide Run, PatternOk, Start, FirstPat, Turns, Outcome;
    RunInv(c, t, n);
    var s, a0 := t[n], seq(SIZE, x => x);
    SoloStep(c, 0, s.p0, s.cells);
    SoloStep(c, 1, s.p1, s.cells);
    OutcomeUnique(c, s.cells, a0);
    forall x | 0 <= x < SIZE
      ensures s.cells[x] == Turns(c.pattern, x % 2, InnerSteps(c), a0)[x]
    {
      OutcomeTurns(c, a0, x);
    }
  }

  lemma OutcomeUnique(c: Config, a: seq<int>, a0: seq<int>)
    requires |a0| == SIZE
    requires SameParity(a, Solo(c, 0, Start(c, 0, FirstPat(0)), a0), 0)
    requires SameParity(a, Solo(c, 1, Start(c, 0, FirstPat(1)), a0), 1)
    ensures a == Outcome(c, a0)
  {
    hide Solo, Start, FirstPat;
    forall x | 0 <= x < SIZE
      ensures a[x] == Outcome(c, a0)[x]
    {
      assert x % 2 == 0 || x % 2 == 1;
    }
  }

  /** cpu0 stores only even cells and cpu1 only odd ones, and pattern indices stay in the table. */
  lemma OwnParity(c: Config, t: seq<State>, n: nat, id: nat)
    requires PatternOk(c.pattern) && Run(c, t) && n < |t| && id < 2
    ensures var p := if id == 0 then t[n].p0 else t[n].p1;
            var op := OpOf(id, p);
            && p.pat < PATS
            && (op.StoreCell? ==> op.x < SIZE && op.x % 2 == id)
            && (op.LoadCell? && !p.pc.Report? ==> op.x < SIZE && op.x % 2 == id)
  {
    hide Run, PatternOk, Cell;
    RunInv(c, t, n);
    StepRange(c, id, if id == 0 then t[n].p0 else t[n].p1, t[n].cells, t[n].flag);
  }

  // ----- the sequential program -----

  /** One inner step of the sequential program is two accesses of the program it stands for. */
  lemma InnerStep(c: Config, id: nat, p: Cpu, a: seq<int>)
    requires PatternOk(c.pattern) && id < 2 && p.pc.Pat? && CpuOk(c, id, p) && |a| == SIZE
    ensures var x := Cell(id, p.k, p.i, c.pattern[p.pat]);
            && x < SIZE && x % 2 == id
            && Solo(c, id, p, a) ==
               var q := p.(v := c.pattern[p.pat], pc := Access);
               Solo(c, id, Next(c, id, q, a[x]), if p.k < 4 then a else a[x := (p.sum + 11 + p.i) % MASK])
  {
    hide Solo, Cell, NextPat;
    var v := c.pattern[p.pat];
    CellParity(id, p.k, p.i, v);
    var q := p.(v := v, pc := Access);
    SoloStep(c, id, p, a);
    SoloStep(c, id, q, a);
  }

  /** The in-loop report changes nothing. */
  lemma {:induction false} ReportIsRead(c: Config, p: Cpu, a: seq<int>)
    requires CpuOk(c, 0, p) && p.pc.Report?
    ensures Solo(c, 0, p, a) == Solo(c, 0, Start(c, p.i + 1, p.pat), a)
    decreases REPORT - p.r
  {
    hide Solo;
    SoloStep(c, 0, p, a);
    if p.r + 1 < REPORT {
      ReportIsRead(c, p.(r := p.r + 1), a);
    }
  }

  /** The state of program `id` at the head of the j loop of round i. */
  function AtInner(i: nat, j: nat, k: nat, sum: int, pat: nat): Cpu {
    Cpu(Pat, i, j, k, sum, pat, 0, 0)
  }

  /** What is left for program `id` at step (j, k) of round i, whether or not the round is over. */
  ghost function Left(c: Config, id: nat, i: nat, j: nat, k: nat, sum: int, pat: nat, a: seq<int>): seq<int> {
    if j < INNER then Solo(c, id, AtInner(i, j, k, sum, pat), a) else Solo(c, id, Start(c, i + 1, pat), a)
  }

  /** Repeated subtraction: while (x >= ARRSIZE) x -= ARRSIZE. */
  method Wrap(x: nat) returns (y: nat)
    ensures y == x % SIZE
  {
    y := x;
    while y >= SIZE
      invariant y % SIZE == x % SIZE
    {
      y := y - SIZE;
    }
  }

  /** One k step, as seen from what is left to do. */
  lemma KStep(c: Config, id: nat, i: nat, j: nat, k: nat, sum: int, pat: nat, a: seq<int>)
    requires PatternOk(c.pattern) && id < 2 && i < c.limit && j < INNER && k < 5 && pat < PATS && |a| == SIZE
    ensures NextPat(pat) < PATS
    ensures var x := Cell(id, k, i, c.pattern[pat]);
            && x < SIZE && x % 2 == id
            && Left(c, id, i, j, k, sum, pat, a) ==
               if k < 4 then Left(c, id, i, j, k + 1, sum + a[x], NextPat(pat), a)
               else Left(c, id, i, j + 1, 0, 0, NextPat(pat), a[x := (sum + 11 + i) % MASK])
  {
    hide Solo, Cell;
    var p := AtInner(i, j, k, sum, pat);
    InnerStep(c, id, p, a);
    if k == 4 && j + 1 == INNER && id == 0 && i % 256 == 0 {
      var x := Cell(id, k, i, c.pattern[pat]);
      ReportIsRead(c, Cpu(Report, i, INNER, 0, 0, NextPat(pat), 0, 0), a[x := (sum + 11 + i) % MASK]);
    }
  }

  /** One k step, by its entry in the walk. */
  lemma WalkKStep(c: Config, id: nat, i: nat, j: nat, k: nat, sum: int, n: nat, a: seq<int>)
    requires PatternOk(c.pattern) && id < 2 && i < c.limit && j < INNER && k < 5 && |a| == SIZE
    ensures var x := Cell(id, k, i, Entry(c.pattern, id, n));
            && x < SIZE
            && Left(c, id, i, j, k, sum, Walk(id, n), a) ==
               if k < 4 then Left(c, id, i, j, k + 1, sum + At(a, x), Walk(id, n + 1), a)
               else Left(c, id, i, j + 1, 0, 0, Walk(id, n + 1), a[x := (sum + 11 + i) % 131072])
  {
    hide Left, Walk, NextPat, Cell;
    WalkStep(id, n);
    KStep(c, id, i, j, k, sum, Walk(id, n), a);
  }

  /** One inner step of a program alone is a Turn. */
  lemma TurnStep(c: Config, id: nat, i: nat, j: nat, a: seq<int>)
    requires PatternOk(c.pattern) && id < 2 && i < c.limit && j < INNER && |a| == SIZE
    ensures var m := 640 * i + j;
            Left(c, id, i, j, 0, 0, Walk(id, 5 * m), a) ==
            Left(c, id, i, j + 1, 0, 0, Walk(id, 5 * m + 5), Turn(c.pattern, id, m, a))
  {
    hide Left, Walk, PatternOk, At, Entry;
    var m := 640 * i + j;
    assert m / 640 == i;
    var n := 5 * m;
    WalkKStep(c, id, i, j, 0, 0, n, a);
    var s1 := At(a, Entry(c.pattern, id, n) + id);
    WalkKStep(c, id, i, j, 1, s1, n + 1, a);
    var s2 := s1 + At(a, Entry(c.pattern, id, n + 1) + id);
    WalkKStep(c, id, i, j, 2, s2, n + 2, a);
    var s3 := s2 + At(a, Entry(c.pattern, id, n + 2) + id);
    WalkKStep(c, id, i, j, 3, s3, n + 3, a);
    var s4 := s3 + At(a, (Entry(c.pattern, id, n + 3) + 4 * i + id) % 2560);
    WalkKStep(c, id, i, j, 4, s4, n + 4, a);
  }

  /** What is left after m inner steps. */
  ghost function Rest(c: Config, id: nat, m: nat, a: seq<int>): seq<int> {
    if m / 640 < c.limit then Left(c, id, m / 640, m % 640, 0, 0, Walk(id, 5 * m), a) else a
  }

  lemma RestStep(c: Config, id: nat, m: nat, a: seq<int>)
    requires PatternOk(c.pattern) && id < 2 && m / 640 < c.limit && |a| == SIZE
    ensures Rest(c, id, m, a) == Rest(c, id, m + 1, Turn(c.pattern, id, m, a))
  {
    hide Solo, Turn, Walk, PatternOk;
    var i, j := m / 640, m % 640;
    assert m == 640 * i + j;
    TurnStep(c, id, i, j, a);
    if j + 1 == 640 {
      assert m + 1 == 640 * (i + 1) && (m + 1) % 640 == 0;
      WalkStep(id, 5 * m + 5);
      SoloStep(c, id, Start(c, i + 1, Walk(id, 5 * m + 5)), Turn(c.pattern, id, m, a));
    } else {
      assert m + 1 == 640 * i + (j + 1) && (m + 1) / 640 == i;
    }
  }

  lemma {:induction false} RestTurns(c: Config, id: nat, m: nat, a: seq<int>)
    requires PatternOk(c.pattern) && id < 2 && m <= InnerSteps(c) && |a| == SIZE
    ensures Rest(c, id, 0, a) == Rest(c, id, m, Turns(c.pattern, id, m, a))
  {
    hide Rest, Turn, PatternOk;
    if m > 0 {
      RestTurns(c, id, m - 1, a);
      assert (m - 1) / 640 < c.limit;
      RestStep(c, id, m - 1, Turns(c.pattern, id, m - 1, a));
    }
  }

  /** None for a limit below one. */
  function InnerSteps(c: Config): nat { if c.limit > 0 then 640 * c.limit else 0 }

  /** A program alone does its 640 inner steps a round and nothing else. */
  lemma SoloTurns(c: Config, id: nat, a: seq<int>)
    requires PatternOk(c.pattern) && id < 2 && |a| == SIZE
    ensures Solo(c, id, Start(c, 0, FirstPat(id)), a) == Turns(c.pattern, id, InnerSteps(c), a)
  {
    hide Solo, Turns, PatternOk, Walk, FirstPat;
    WalkStep(id, 0);
    SoloStep(c, id, Start(c, 0, FirstPat(id)), a);
    RestTurns(c, id, InnerSteps(c), a);
  }

  /** The outcome, cell by cell: even cells are those after all inner steps of program 0, odd cells those
      of program 1. */
  lemma OutcomeTurns(c: Config, a: seq<int>, x: nat)
    requires PatternOk(c.pattern) && |a| == SIZE && x < SIZE
    ensures Outcome(c, a)[x] == Turns(c.pattern, x % 2, InnerSteps(c), a)[x]
  {
    hide Solo, Turns, PatternOk, FirstPat, Start;
    SoloTurns(c, x % 2, a);
  }

  lemma TurnParity(c: Config, id: nat, m: nat, a: seq<int>)
    requires PatternOk(c.pattern) && id < 2 && |a| == SIZE
    ensures SameParity(Turn(c.pattern, id, m, a), a, 1 - id)
  {
    WalkStep(id, 5 * m + 4);
    hide Walk;
    var e := Entry(c.pattern, id, 5 * m + 4);
    assert e % 2 == 0;
    hide PatternOk, Entry;
    EvenSum(e, m / 640, id);
    WrapParity(e + 2 * (m / 640) + id);
  }

  /** The loads of an inner step before its k-th access. */
  function Loaded(pattern: seq<nat>, id: nat, m: nat, k: nat, a: seq<int>): int {
    var n := 5 * m;
    (if k > 0 then At(a, Entry(pattern, id, n) + id) else 0) +
    (if k > 1 then At(a, Entry(pattern, id, n + 1) + id) else 0) +
    (if k > 2 then At(a, Entry(pattern, id, n + 2) + id) else 0) +
    (if k > 3 then At(a, (Entry(pattern, id, n + 3) + 4 * (m / 640) + id) % 2560) else 0)
  }

  /** The five steps of the k loop, for one j. */
  method InnerLoop(c: Config, cells: array<int>, id: nat, i: nat, j: nat, pat: nat) returns (pat': nat)
    requires PatternOk(c.pattern) && id < 2 && i < c.limit && j < INNER && pat == Walk(id, 5 * (640 * i + j))
    requires cells.Length == SIZE
    modifies cells
    ensures pat' == Walk(id, 5 * (640 * i + j) + 5)
    ensures cells[..] == Turn(c.pattern, id, 640 * i + j, old(cells[..]))
  {
    hide Walk, FirstPat;
    pat' := pat;
    var sum := 0;
    var k := 0;
    ghost var a0, m := cells[..], 640 * i + j;
    assert m / 640 == i;
    while k < 5
      invariant k <= 5 && pat' == Walk(id, 5 * m + k)
      invariant k < 5 ==> cells[..] == a0 && sum == Loaded(c.pattern, id, m, k, a0)
      invariant k == 5 ==> cells[..] == Turn(c.pattern, id, m, a0)
    {
      WalkStep(id, 5 * m + k);
      EntryRange(c, id, 5 * m + k, k, i);
      var x: nat;
      if k < 3 {
        x := c.pattern[pat'] + id;
        sum := sum + cells[x];
      } else if k == 3 {
        x := Wrap(c.pattern[pat'] + 4 * i + id);
        sum := sum + cells[x];
      } else {
        x := Wrap(c.pattern[pat'] + 2 * i + id);
        cells[x] := (sum + 11 + i) % 131072;
        assert cells[..] == a0[x := (sum + 11 + i) % 131072];
      }
      pat' := pat' + 1;
      if pat' % 512 == 0 {
        pat' := pat' + 1536;
      }
      if pat' >= 20480 {
        pat' := 3;
      }
      k := k + 1;
    }
  }

  lemma EntryRange(c: Config, id: nat, n: nat, k: nat, i: nat)
    requires PatternOk(c.pattern) && id < 2
    ensures var e := Entry(c.pattern, id, n);
            Walk(id, n) < |c.pattern| && e == c.pattern[Walk(id, n)] && Cell(id, k, i, e) < SIZE && e + id < SIZE
  {
    WalkStep(id, n);
    hide Walk, Cell;
    CellParity(id, k, i, Entry(c.pattern, id, n));
  }

  /** The j loop of one virtual CPU in one round. */
  method Vcpu(c: Config, cells: array<int>, id: nat, i: nat, pat: nat) returns (pat': nat)
    requires PatternOk(c.pattern) && id < 2 && i < c.limit && pat == Walk(id, 3200 * i)
    requires cells.Length == SIZE
    modifies cells
    ensures pat' == Walk(id, 3200 * (i + 1))
    ensures SameParity(cells[..], old(cells[..]), 1 - id)
    ensures Solo(c, id, Start(c, i, pat), old(cells[..])) == Solo(c, id, Start(c, i + 1, pat'), cells[..])
  {
    hide Turn, Walk, PatternOk, Solo;
    pat' := pat;
    var j := 0;
    while j < INNER
      invariant j <= INNER && pat' == Walk(id, 5 * (640 * i + j))
      invariant SameParity(cells[..], old(cells[..]), 1 - id)
      invariant Solo(c, id, Start(c, i, pat), old(cells[..])) == Left(c, id, i, j, 0, 0, pat', cells[..])
    {
      TurnStep(c, id, i, j, cells[..]);
      TurnParity(c, id, 640 * i + j, cells[..]);
      pat' := InnerLoop(c, cells, id, i, j, pat');
      j := j + 1;
    }
  }

  /** test11_x86.c: the rounds of both virtual CPUs in turn. */
  method Sequential(c: Config) returns (cells: array<int>)
    requires PatternOk(c.pattern)
    ensures fresh(cells) && cells[..] == Outcome(c, seq(SIZE, x => x))
    ensures forall x :: 0 <= x < SIZE ==>
              cells[x] == Turns(c.pattern, x % 2, InnerSteps(c), seq(SIZE, y => y))[x]
  {
    hide Solo, Walk, Turns, Outcome;
    cells := new int[SIZE](x => x);
    ghost var a0: seq<int> := seq(SIZE, x => x);
    assert cells[..] == a0;
    var pat0: nat, pat1: nat := 0, 17663;
    WalkStep(0, 0);
    WalkStep(1, 0);
    StartOk(c, 0);
    StartOk(c, 1);
    SoloLength(c, 0, Start(c, 0, pat0), a0);
    SoloLength(c, 1, Start(c, 0, pat1), a0);
    var i := 0;
    while i < c.limit
      invariant fresh(cells) && cells.Length == SIZE && pat0 < PATS && pat1 < PATS
      invariant pat0 == Walk(0, 3200 * i) && pat1 == Walk(1, 3200 * i)
      invariant SameParity(Solo(c, 0, Start(c, i, pat0), cells[..]), Solo(c, 0, Start(c, 0, FirstPat(0)), a0), 0)
      invariant SameParity(Solo(c, 1, Start(c, i, pat1), cells[..]), Solo(c, 1, Start(c, 0, FirstPat(1)), a0), 1)
      decreases c.limit - i
    {
      ghost var before := cells[..];
      WalkStep(0, 3200 * (i + 1));
      WalkStep(1, 3200 * (i + 1));
      var q0 := Vcpu(c, cells, 0, i, pat0);
      ghost var middle := cells[..];
      OtherRound(c, 1, i, pat1, before, middle, Solo(c, 1, Start(c, 0, FirstPat(1)), a0));
      var q1 := Vcpu(c, cells, 1, i, pat1);
      OtherRound(c, 0, i + 1, q0, middle, cells[..], Solo(c, 0, Start(c, 0, FirstPat(0)), a0));
      pat0, pat1, i := q0, q1, i + 1;
    }
    SoloStep(c, 0, Start(c, i, pat0), cells[..]);
    SoloStep(c, 1, Start(c, i, pat1), cells[..]);
    OutcomeUnique(c, cells[..], a0);
    forall x | 0 <= x < SIZE
      ensures cells[x] == Turns(c.pattern, x % 2, InnerSteps(c), a0)[x]
    {
      OutcomeTurns(c, a0, x);
    }
  }

  /** A round of the other virtual CPU does not change what is left for this one. */
  lemma OtherRound(c: Config, id: nat, i: nat, pat: nat, a: seq<int>, b: seq<int>, goal: seq<int>)
    requires PatternOk(c.pattern) && id < 2 && pat < PATS
    requires SameParity(b, a, id) && SameParity(Solo(c, id, Start(c, i, pat), a), goal, id)
    ensures SameParity(Solo(c, id, Start(c, i, pat), b), goal, id)
  {
    hide Solo;
    SoloParity(c, id, Start(c, i, pat), a, b);
  }

  // ----- loading the pattern table -----

  /** Reads the 5120 entries of the data file into groups of 512, four groups apart, clearing bit 0. */
  method LoadPattern(entries: seq<nat>) returns (pattern: seq<nat>)
    requires |entries| == 2 * SIZE && forall x :: 0 <= x < |entries| ==> entries[x] < SIZE
    ensures PatternOk(pattern)
    ensures forall n :: 0 <= n < 5120 ==> pattern[Slot(n)] == entries[n] - entries[n] % 2
    ensures forall x :: 0 <= x < PATS && x % 2048 >= 512 ==> pattern[x] == 0
  {
    hide Slot;
    var mem := new nat[PATS](_ => 0);
    var i := 0;
    while i < 2 * SIZE
      invariant 0 <= i <= 2 * SIZE
      invariant forall x :: 0 <= x < PATS ==> mem[x] % 2 == 0 && mem[x] < SIZE
      invariant forall n :: 0 <= n < i ==> mem[Slot(n)] == entries[n] - entries[n] % 2
      invariant forall x :: 0 <= x < PATS && x % 2048 >= 512 ==> mem[x] == 0
    {
      var pat := 4 * (i - i % 512) + i % 512;
      SlotIs(i);
      forall n | 0 <= n < i
        ensures Slot(n) != pat
      {
        SlotsDiffer(n, i);
      }
      mem[pat] := entries[i] - entries[i] % 2;
      i := i + 1;
    }
    pattern := mem[..];
  }

  /** Entries go to the first quarter of a group; the rest of it is a gap. */
  lemma SlotIs(n: nat)
    ensures 4 * (n - n % 512) + n % 512 == Slot(n) && Slot(n) % 2048 == n % 512
  {
    var a := n / 512;
    assert n - n % 512 == a * 512;
  }

  lemma SlotsDiffer(n: nat, m: nat)
    requires n < m
    ensures Slot(n) != Slot(m)
  {
    var a, b := n / 512, m / 512;
    assert n == a * 512 + n % 512 && m == b * 512 + m % 512;
  }

  // ----- runs -----

  /** The two CPUs in the order of a schedule: true stands for cpu1. */
  ghost function Schedule(c: Config, s: State, who: seq<bool>): seq<State> {
    if who == [] then [s]
    else
      var t := Schedule(c, s, who[..|who| - 1]);
      if t == [] then [] else t + [Step(c, t[|t| - 1], if who[|who| - 1] then 1 else 0)]
  }

  /** Every schedule of the two CPUs is a run. */
  lemma {:induction false} EverySchedule(c: Config, s: State, who: seq<bool>)
    requires Initial(c, s)
    ensures |Schedule(c, s, who)| == |who| + 1 && Run(c, Schedule(c, s, who))
    decreases |who|
  {
    hide Step, Initial;
    if who != [] {
      var t, u := Schedule(c, s, who[..|who| - 1]), Schedule(c, s, who);
      EverySchedule(c, s, who[..|who| - 1]);
      assert u[..|t|] == t && u[0] == t[0];
      forall k {:trigger u[k]} | 0 < k < |u|
        ensures u[k] == Step(c, u[k - 1], 0) || u[k] == Step(c, u[k - 1], 1)
      {
        assert u[k - 1] == t[k - 1];
        if k < |t| { assert u[k] == t[k]; }
      }
    }
  }
}
