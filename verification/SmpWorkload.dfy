/**
  The random read/write workload of smptest11: cpu0 (test11.c) works on the even cells of
  test_array, cpu1 (sub_cpu1/cpu1.c) on the odd ones, both walking one pattern table.
  test11_x86.c is the sequential program that predicts the result.
 */
module SmpWorkload {

  const SIZE: nat := 2560        // ARRSIZE
  const LOWER: nat := 512        // PAT_INDEX_LOWER
  const PATS: nat := 20480       // ARRSIZE << 3
  const INNER: nat := 640        // ARRSIZE >> 2
  const MASK: nat := 131072      // 0x0001FFFF + 1
  const REPORT: nat := 105       // loads of one in-loop report: 100 summed, 5 printed

  datatype Config = Config(limit: int, pattern: seq<nat>)

  ghost predicate PatternOk(p: seq<nat>) {
    |p| == PATS && forall x :: 0 <= x < |p| ==> p[x] % 2 == 0 && p[x] < SIZE
  }

  /** Where the walk through the pattern table starts. */
  function FirstPat(id: nat): nat { if id == 0 then 0 else 17663 }  // (17 << 10) | (256 - 1)

  /** The next pattern index: 512 entries, a gap of 1536, and from the end back to 3. */
  function NextPat(p: nat): nat {
    var q := if (p + 1) % LOWER == 0 then p + 1 + 3 * LOWER else p + 1;
    if q >= PATS then 3 else q
  }

  /** The cell that inner step k of round i touches, for a pattern entry v. */
  function Cell(id: nat, k: nat, i: nat, v: nat): nat {
    if k < 3 then v + id
    else if k == 3 then (v + 4 * i + id) % SIZE
    else (v + 2 * i + id) % SIZE
  }

  // ----- one CPU's program, access by access -----

  datatype Pc = Pat | Access | Report | End | Over
  datatype Cpu = Cpu(pc: Pc, i: nat, j: nat, k: nat, sum: int, pat: nat, v: nat, r: nat)
  datatype Op = LoadPat(p: nat) | LoadCell(x: nat) | StoreCell(x: nat, val: int)
              | LoadFlag | StoreFlag | Idle

  function Start(c: Config, i: nat, pat: nat): Cpu {
    Cpu(if i < c.limit then Pat else End, i, 0, 0, 0, pat, 0, 0)
  }

  function OpOf(id: nat, p: Cpu): Op {
    match p.pc
    case Pat => LoadPat(p.pat)
    case Access =>
      var x := Cell(id, p.k, p.i, p.v);
      if p.k < 4 then LoadCell(x) else StoreCell(x, (p.sum + 11 + p.i) % MASK)
    case Report => LoadCell(if p.r < 100 then p.r else p.r - 100)
    case End => if id == 0 then LoadFlag else StoreFlag
    case Over => Idle
  }

  function Next(c: Config, id: nat, p: Cpu, v: int): Cpu {
    match p.pc
    case Pat => p.(pc := Access, v := if v >= 0 then v else 0)
    case Access =>
      var q := p.(pc := Pat, pat := NextPat(p.pat), v := 0);
      if p.k < 4 then q.(k := p.k + 1, sum := p.sum + v)
      else if p.j + 1 < INNER then q.(k := 0, sum := 0, j := p.j + 1)
      else if id == 0 && p.i % 256 == 0 then q.(pc := Report, k := 0, sum := 0, j := INNER, r := 0)
      else Start(c, p.i + 1, q.pat)
    case Report => if p.r + 1 < REPORT then p.(r := p.r + 1) else Start(c, p.i + 1, p.pat)
    case End => if id == 0 && v == 0 then p else p.(pc := Over)
    case Over => p
  }

  /** Ranges of the registers of a running program. */
  ghost predicate CpuOk(c: Config, id: nat, p: Cpu) {
    && p.pat < PATS && p.v % 2 == 0 && p.v < SIZE
    && match p.pc
       case Pat => p.i < c.limit && p.j < INNER && p.k < 5
       case Access => p.i < c.limit && p.j < INNER && p.k < 5
       case Report => id == 0 && p.i < c.limit && p.j == INNER && p.r < REPORT
       case _ => true
  }

  function Read(c: Config, a: seq<int>, flag: int, op: Op): int {
    match op
    case LoadPat(p) => if p < |c.pattern| then c.pattern[p] else 0
    case LoadCell(x) => if x < |a| then a[x] else 0
    case LoadFlag => flag
    case _ => 0
  }

  function Write(a: seq<int>, op: Op): seq<int> {
    if op.StoreCell? && op.x < |a| then a[op.x := op.val] else a
  }

  // ----- the two CPUs together -----

  datatype State = State(cells: seq<int>, flag: int, p0: Cpu, p1: Cpu)

  function Step(c: Config, s: State, id: nat): State {
    var p := if id == 0 then s.p0 else s.p1;
    var op := OpOf(id, p);
    var q := Next(c, id, p, Read(c, s.cells, s.flag, op));
    var s' := s.(cells := Write(s.cells, op), flag := if op.StoreFlag? then 1 else s.flag);
    if id == 0 then s'.(p0 := q) else s'.(p1 := q)
  }

  /** test_array[i] = i; the finish flag is assumed to start at zero. */
  ghost predicate Initial(c: Config, s: State) {
    && s.cells == seq(SIZE, x => x)
    && s.flag == 0 && s.p0 == Start(c, 0, FirstPat(0)) && s.p1 == Start(c, 0, FirstPat(1))
  }

  ghost predicate Run(c: Config, t: seq<State>) {
    && |t| > 0 && Initial(c, t[0])
    && forall n {:trigger t[n]} :: 0 < n < |t| ==> t[n] == Step(c, t[n - 1], 0) || t[n] == Step(c, t[n - 1], 1)
  }

  // ----- one CPU alone -----

  ghost function Stage(p: Cpu): nat {
    match p.pc
    case Pat => 1
    case Report => if p.r < REPORT then REPORT - p.r else 0
    case _ => 0
  }

  /** The array when program `id` runs alone from p until it has done all its rounds. */
  ghost function Solo(c: Config, id: nat, p: Cpu, a: seq<int>): seq<int>
    decreases c.limit - p.i, INNER - p.j, 5 - p.k, Stage(p)
  {
    if !CpuOk(c, id, p) || p.pc.End? || p.pc.Over? then a
    else
      var op := OpOf(id, p);
      Solo(c, id, Next(c, id, p, Read(c, a, 0, op)), Write(a, op))
  }

  /** Even cells from program 0 alone, odd cells from program 1 alone. */
  ghost function Outcome(c: Config, a: seq<int>): (r: seq<int>)
    requires |a| == SIZE
    ensures |r| == SIZE
  {
    seq(SIZE, x requires 0 <= x < SIZE =>
      var s := Solo(c, x % 2, Start(c, 0, FirstPat(x % 2)), a); if x < |s| then s[x] else 0)
  }

  ghost predicate SameParity(a: seq<int>, b: seq<int>, id: nat) {
    && |a| == |b| == SIZE
    && forall x {:trigger a[x]} {:trigger b[x]} :: 0 <= x < SIZE && x % 2 == id ==> a[x] == b[x]
  }

  lemma NextPatRange(p: nat)
    requires p < PATS
    ensures NextPat(p) < PATS
  {
  }

  /** Program `id` computes cells of its own parity, inside the array. */
  lemma CellParity(id: nat, k: nat, i: nat, v: nat)
    requires id < 2 && v % 2 == 0 && v < SIZE
    ensures Cell(id, k, i, v) < SIZE && Cell(id, k, i, v) % 2 == id
  {
    if k >= 3 {
      var e := if k == 3 then 2 * i else i;
      WrapParity(v + 2 * e + id);
      EvenSum(v, e, id);
    }
  }

  lemma EvenSum(v: nat, e: nat, id: nat)
    requires v % 2 == 0 && id < 2
    ensures (v + 2 * e + id) % 2 == id
  {
    assert v + 2 * e + id == 2 * (v / 2 + e) + id;
  }

  lemma WrapParity(x: nat)
    ensures x % SIZE < SIZE && (x % SIZE) % 2 == x % 2
  {
    assert x == SIZE * (x / SIZE) + x % SIZE;
  }

  /** Registers stay in range; a store has the program's own parity. */
  lemma StepRange(c: Config, id: nat, p: Cpu, a: seq<int>, flag: int)
    requires PatternOk(c.pattern) && id < 2 && CpuOk(c, id, p)
    ensures CpuOk(c, id, Next(c, id, p, Read(c, a, flag, OpOf(id, p))))
    ensures OpOf(id, p).StoreCell? ==> OpOf(id, p).x < SIZE && OpOf(id, p).x % 2 == id
    ensures OpOf(id, p).LoadCell? && !p.pc.Report? ==> OpOf(id, p).x < SIZE && OpOf(id, p).x % 2 == id
  {
    hide Cell;
    CellParity(id, p.k, p.i, p.v);
    NextPatRange(p.pat);
  }

  /** Running alone depends only on the cells of the own parity, and leaves the others alone. */
  lemma {:induction false} SoloParity(c: Config, id: nat, p: Cpu, a: seq<int>, b: seq<int>)
    requires PatternOk(c.pattern) && id < 2 && CpuOk(c, id, p) && SameParity(a, b, id)
    ensures SameParity(Solo(c, id, p, a), Solo(c, id, p, b), id)
    decreases c.limit - p.i, INNER - p.j, 5 - p.k, Stage(p)
  {
    if !p.pc.End? && !p.pc.Over? {
      var op := OpOf(id, p);
      StepRange(c, id, p, a, 0);
      assert Next(c, id, p, Read(c, a, 0, op)) == Next(c, id, p, Read(c, b, 0, op));
      assert SameParity(Write(a, op), Write(b, op), id);
      SoloParity(c, id, Next(c, id, p, Read(c, a, 0, op)), Write(a, op), Write(b, op));
    }
  }
}
