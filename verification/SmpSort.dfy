/**
  The two-CPU merge sort of smptest13 (test13.c on cpu0, sub_cpu1/cpu1.c on cpu1).
  Each CPU is a program that says which load or store comes next and what it does
  with the loaded value; any interleaving of these single accesses is a run.
 */
module SmpSort {
  import opened Arithmetic
  import opened MergeSpec

  const N: nat := 512        // ARRAY_SIZE
  const HALF: nat := 256     // ARRAY_SIZE >> 1
  const LEVELS: nat := 8     // LOG_ARRAY_SIZE - 1
  const WORDS: nat := 1536   // int workarray[3][ARRAY_SIZE]
  const STOP: int := 0xffff
  const LAST_ROUND: int := 0x7fffffff
  const WORD: int := 0x1_0000_0000   // the sums wrap

  // ----- shared memory -----

  datatype Loc = Work(a: int) | Ctl01 | Ctl10 | PtrA
  datatype Op = Load(loc: Loc) | Store(loc: Loc, v: int) | Idle
  datatype Memory = Memory(work: seq<int>, ctl01: int, ctl10: int, ptrA: int)

  predicate InRange(w: seq<int>, a: int) { 0 <= a < |w| }

  function Get(m: Memory, l: Loc): int {
    match l
    case Work(a) => if InRange(m.work, a) then m.work[a] else 0
    case Ctl01 => m.ctl01
    case Ctl10 => m.ctl10
    case PtrA => m.ptrA
  }

  function Put(m: Memory, l: Loc, v: int): Memory {
    match l
    case Work(a) => if InRange(m.work, a) then m.(work := m.work[a := v]) else m
    case Ctl01 => m.(ctl01 := v)
    case Ctl10 => m.(ctl10 := v)
    case PtrA => m.(ptrA := v)
  }

  function Perform(m: Memory, op: Op): Memory {
    if op.Store? then Put(m, op.loc, op.v) else m
  }

  function Loaded(m: Memory, op: Op): int {
    if op.Load? then Get(m, op.loc) else 0
  }

  // ----- merge and mergecpu1: one merge of two blocks of length h -----

  datatype MergePc = LoadA | LoadB | LoadWinner | StoreWinner | LoadRest | StoreRest | Merged
  datatype MergeRegs = MergeRegs(pc: MergePc, h: nat, a: int, b: int, d: int, s: int,
                                 alim: int, blim: int, i: nat, va: int, vb: int, x: int)

  /** Pointer setup.  The source bank is the parity of the level. */
  function StartMerge(base: int, level: nat, index: int): MergeRegs {
    var bank := level % 2;
    var h := Pow2(level);
    var a := base + bank * N + index;
    MergeRegs(LoadA, h, a, a + h, base + (1 - bank) * N + index, 0, a + h, a + 2 * h, 0, 0, 0, 0)
  }

  function MergeOp(m: MergeRegs): Op {
    match m.pc
    case LoadA => Load(Work(m.a))
    case LoadB => Load(Work(m.b))
    case LoadWinner => Load(Work(if m.va < m.vb then m.a else m.b))
    case StoreWinner => Store(Work(m.d), m.x)
    case LoadRest => Load(Work(m.s))
    case StoreRest => Store(Work(m.d), m.x)
    case Merged => Idle
  }

  /** The registers after the access; `v` is the loaded value. */
  function MergeNext(m: MergeRegs, v: int): MergeRegs {
    match m.pc
    case LoadA => m.(pc := LoadB, va := v)
    case LoadB => m.(pc := LoadWinner, vb := v)
    case LoadWinner => m.(pc := StoreWinner, x := v)
    case StoreWinner =>
      var m' := m.(d := m.d + 1, i := m.i + 1);
      if m.va < m.vb then
        if m.a + 1 == m.alim then EnterRest(m'.(a := m.a + 1, s := m.b)) else m'.(pc := LoadA, a := m.a + 1)
      else
        if m.b + 1 == m.blim then EnterRest(m'.(b := m.b + 1, s := m.a)) else m'.(pc := LoadA, b := m.b + 1)
    case LoadRest => m.(pc := StoreRest, x := v)
    case StoreRest => EnterRest(m.(d := m.d + 1, s := m.s + 1, i := m.i + 1))
    case Merged => m
  }

  /** The guard of the copy loop. */
  function EnterRest(m: MergeRegs): MergeRegs {
    m.(pc := if m.i < 2 * m.h then LoadRest else Merged)
  }

  // ----- cpu0: test13.c -----

  datatype Pc0 = Init0 | Init1 | Publish | Sort0 | Poll | Final | Sum1 | Sum2 | Finish | Done
  datatype Cpu0 = Cpu0(pc: Pc0, round: nat, i: nat, level: nat, index: nat, m: MergeRegs,
                       sum1: int, sum2: int, diffs: nat)

  /** What cpu0 was started with: the alignment offset, in_array and the round count. */
  datatype Config = Config(off: nat, input: seq<int>, limit: int)

  ghost predicate ConfigOk(c: Config) {
    c.off < 8 && |c.input| == 512 && c.limit <= 0x7fffffff
  }

  function Expected1(): int { (N * (N - 1)) / 2 }
  function Expected2(): int {
    (2 * (N - 1) * (N - 1) * (N - 1) + 3 * (N - 1) * (N - 1) + (N - 1)) / 6
  }

  function StartRound(c: Config, p: Cpu0): Cpu0 {
    if p.round < c.limit then p.(pc := Init0, i := 0) else p.(pc := Finish)
  }

  function Op0(c: Config, p: Cpu0): Op
    requires |c.input| == N
  {
    match p.pc
    case Init0 => Store(Work(c.off + p.i), if p.i < N then c.input[p.i] else 0)
    case Init1 => Store(Work(c.off + N + p.i), 0)
    case Publish => Store(Ctl01, p.round)
    case Sort0 => MergeOp(p.m)
    case Poll => Load(Ctl10)
    case Final => MergeOp(p.m)
    case Sum1 => Load(Work(c.off + N + p.i))
    case Sum2 => Load(Work(c.off + N + p.i))
    case Finish => Store(Ctl01, STOP)
    case Done => Idle
  }

  function Next0(c: Config, p: Cpu0, v: int): Cpu0 {
    match p.pc
    case Init0 => p.(pc := Init1)
    case Init1 => if p.i + 1 < N then p.(pc := Init0, i := p.i + 1) else p.(pc := Publish)
    case Publish => p.(pc := Sort0, level := 0, index := 0, m := StartMerge(c.off, 0, 0))
    case Sort0 =>
      var m := MergeNext(p.m, v);
      if !m.pc.Merged? then p.(m := m)
      else if p.index + 2 * m.h < HALF then
        p.(index := p.index + 2 * m.h, m := StartMerge(c.off, p.level, p.index + 2 * m.h))
      else if p.level + 1 < LEVELS then
        p.(level := p.level + 1, index := 0, m := StartMerge(c.off, p.level + 1, 0))
      else p.(pc := Poll)
    case Poll =>
      if v != p.round then p else p.(pc := Final, m := StartMerge(c.off, LEVELS, 0))
    case Final =>
      var m := MergeNext(p.m, v);
      if !m.pc.Merged? then p.(m := m) else p.(pc := Sum1, i := 0, sum1 := 0, sum2 := 0)
    case Sum1 => p.(pc := Sum2, sum1 := p.sum1 + v)
    case Sum2 =>
      var p' := p.(sum2 := p.sum2 + p.i * v);
      if p.i + 1 < N then p'.(pc := Sum1, i := p.i + 1)
      else
        var bad := p'.sum1 % WORD != Expected1() || p'.sum2 % WORD != Expected2();
        StartRound(c, p'.(round := p.round + 1, diffs := p.diffs + if bad then 1 else 0))
    case Finish => p.(pc := Done)
    case Done => p
  }

  // ----- cpu1: sub_cpu1/cpu1.c -----

  datatype Pc1 = First | GetPtr | Sort1 | Notify | WaitStop | WaitSame | Halted
  datatype Cpu1 = Cpu1(pc: Pc1, round: nat, ptr: int, level: nat, index: nat, m: MergeRegs)

  function Op1(p: Cpu1): Op {
    match p.pc
    case First => Load(Ctl01)
    case GetPtr => Load(PtrA)
    case Sort1 => MergeOp(p.m)
    case Notify => Store(Ctl10, p.round)
    case WaitStop => Load(Ctl01)
    case WaitSame => Load(Ctl01)
    case Halted => Idle
  }

  function BeginSort1(p: Cpu1): Cpu1 {
    p.(pc := Sort1, level := 0, index := HALF, m := StartMerge(p.ptr, 0, HALF))
  }

  function Next1(p: Cpu1, v: int): Cpu1 {
    match p.pc
    case First => if v == STOP then p else p.(pc := GetPtr)
    case GetPtr => BeginSort1(p.(ptr := v))
    case Sort1 =>
      var m := MergeNext(p.m, v);
      if !m.pc.Merged? then p.(m := m)
      else if p.index + 2 * m.h < N - 1 then
        p.(index := p.index + 2 * m.h, m := StartMerge(p.ptr, p.level, p.index + 2 * m.h))
      else if p.level + 1 < LEVELS then
        p.(level := p.level + 1, index := HALF, m := StartMerge(p.ptr, p.level + 1, HALF))
      else p.(pc := Notify)
    case Notify => p.(pc := WaitStop)
    case WaitStop => if v == STOP then p else p.(pc := WaitSame)
    case WaitSame =>
      if v == p.round then p.(pc := WaitStop)
      else if p.round + 1 < LAST_ROUND then BeginSort1(p.(round := p.round + 1))
      else p.(pc := Halted, round := p.round + 1)
    case Halted => p
  }

  // ----- runs -----

  datatype State = State(mem: Memory, p0: Cpu0, p1: Cpu1)

  const NO_REGS := MergeRegs(Merged, 0, 0, 0, 0, 0, 0, 0, 0, 0, 0, 0)

  function Step0(c: Config, s: State): State
    requires |c.input| == N
  {
    var op := Op0(c, s.p0);
    s.(mem := Perform(s.mem, op), p0 := Next0(c, s.p0, Loaded(s.mem, op)))
  }

  function Step1(s: State): State {
    var op := Op1(s.p1);
    s.(mem := Perform(s.mem, op), p1 := Next1(s.p1, Loaded(s.mem, op)))
  }

  /** cpu0 has set up the communication area and enabled cpu1; the work array is arbitrary. */
  ghost predicate Initial(c: Config, s: State) {
    && |s.mem.work| == WORDS
    && s.mem.ctl01 == STOP && s.mem.ctl10 == STOP && s.mem.ptrA == c.off
    && s.p0 == StartRound(c, Cpu0(Init0, 0, 0, 0, 0, NO_REGS, 0, 0, 0))
    && s.p1 == Cpu1(First, 0, 0, 0, 0, NO_REGS)
  }

  /** A run: every step is one access of one of the CPUs. */
  ghost predicate Run(c: Config, t: seq<State>)
    requires |c.input| == N
  {
    && |t| > 0
    && Initial(c, t[0])
    && forall k {:trigger t[k]} :: 0 < k < |t| ==> t[k] == Step0(c, t[k - 1]) || t[k] == Step1(t[k - 1])
  }
}
