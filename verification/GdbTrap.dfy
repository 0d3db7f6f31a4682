/**
  The exception entry and exit code of testrom/sh2.c, as programs of the few SH-2 instructions
  they use.  An exception pushes SR and PC; the entry code copies the machine into the register
  file; gdb_return_from_exception loads the machine from it and leaves through RTE.
 */
module GdbTrap {

  const WORD: nat := 0x1_0000_0000

  // Register numbers as in the stub: R0..R15, then these.
  const PC: nat := 16
  const PR: nat := 17
  const GBR: nat := 18
  const VBR: nat := 19
  const MACH: nat := 20
  const MACL: nat := 21
  const SR: nat := 22

  /** All 23 registers, and memory by word address. */
  datatype Cpu = Cpu(reg: seq<nat>, mem: map<nat, nat>)

  ghost predicate Regs(c: Cpu) { |c.reg| == 23 && forall i {:trigger c.reg[i]} :: 0 <= i < 23 ==> c.reg[i] < WORD }

  function At(mem: map<nat, nat>, a: nat): (v: nat) { if a in mem then mem[a] else 0 }

  // ----- instructions -----

  datatype Op =
    | Const(n: nat, v: nat)           // MOV #imm,Rn and MOV.L @(disp,PC),Rn
    | Copy(n: nat, m: nat)            // MOV Rm,Rn and LDC Rm,SR
    | AddImm(n: nat, i: int)          // ADD #imm,Rn
    | Load(n: nat, m: nat, d: nat)    // MOV.L @(disp,Rm),Rn
    | Store(m: nat, n: nat, d: nat)   // MOV.L Rm,@(disp,Rn)
    | Push(n: nat, m: nat)            // MOV.L Rm,@-Rn, STS.L and STC.L
    | Pop(m: nat, n: nat)             // MOV.L @Rm+,Rn, LDS.L and LDC.L

  function R(c: Cpu, i: nat): nat { if i < |c.reg| then c.reg[i] else 0 }
  function Set(c: Cpu, i: nat, v: int): Cpu { if i < |c.reg| then c.(reg := c.reg[i := v % WORD]) else c }

  function Exec(c: Cpu, op: Op): Cpu {
    match op
    case Const(n, v) => Set(c, n, v)
    case Copy(n, m) => Set(c, n, R(c, m))
    case AddImm(n, i) => Set(c, n, R(c, n) + i)
    case Load(n, m, d) => Set(c, n, At(c.mem, (R(c, m) + d) % WORD))
    case Store(m, n, d) => c.(mem := c.mem[(R(c, n) + d) % WORD := R(c, m)])
    case Push(n, m) =>
      var a := (R(c, n) + WORD - 4) % WORD;
      Set(c.(mem := c.mem[a := R(c, m)]), n, a)
    case Pop(m, n) => Set(Set(c, m, R(c, m) + 4), n, At(c.mem, R(c, m)))
  }

  function Run(ops: seq<Op>, c: Cpu): Cpu
    decreases |ops|
  {
    if ops == [] then c else Run(ops[1..], Exec(c, ops[0]))
  }

  lemma {:induction false} RunSplit(a: seq<Op>, b: seq<Op>, c: Cpu)
    ensures Run(a + b, c) == Run(b, Run(a, c))
    decreases |a|
  {
    hide Exec;
    if a == [] {
      assert a + b == b;
    } else {
      assert (a + b)[0] == a[0] && (a + b)[1..] == a[1..] + b;
      RunSplit(a[1..], b, Exec(c, a[0]));
    }
  }

  lemma Run1(c: Cpu, x: Op)
    ensures Run([x], c) == Exec(c, x)
  {
    hide Exec;
    assert [x][1..] == [];
  }

  lemma Run2(c: Cpu, x: Op, y: Op)
    ensures Run([x, y], c) == Exec(Exec(c, x), y)
  {
    hide Exec, Run;
    assert [x, y] == [x] + [y];
    RunSplit([x], [y], c);
    Run1(c, x);
    Run1(Exec(c, x), y);
  }

  lemma Run3(c: Cpu, x: Op, y: Op, z: Op)
    ensures Run([x, y, z], c) == Exec(Exec(Exec(c, x), y), z)
  {
    hide Exec, Run;
    assert [x, y, z] == [x, y] + [z];
    RunSplit([x, y], [z], c);
    Run2(c, x, y);
    Run1(Exec(Exec(c, x), y), z);
  }

  // ----- the programs -----

  function Pushes(n: nat, ms: seq<nat>): seq<Op> { seq(|ms|, i requires 0 <= i < |ms| => Push(n, ms[i])) }
  function Pops(m: nat, ns: seq<nat>): seq<Op> { seq(|ns|, i requires 0 <= i < |ns| => Pop(m, ns[i])) }

  function HighRegs(): seq<nat> { [14, 13, 12, 11, 10, 9, 8, 7, 6, 5, 4, 3, 2] }

  function SystemRegs(): seq<nat> { [MACL, MACH, VBR, GBR, PR] }

  /** save_registers_handle_exception up to the call; file is the address of register_file. */
  function SaveOps(file: nat): seq<Op> {
    [Const(0, file + 88), Load(1, 15, 16), Store(1, 0, 0)] +
    ([Load(1, 15, 12), Push(0, 1)] +
    ([Copy(1, 15), AddImm(1, 20), Push(0, 1)] +
     TailOps()))
  }

  /** From R14 down to PR. */
  function TailOps(): seq<Op> {
    Pushes(0, HighRegs()) +
    ([Load(1, 15, 4), Push(0, 1)] +
    ([Load(1, 15, 8), Push(0, 1)] +
     Pushes(0, SystemRegs())))
  }

  /** gdb_trapa32_isr: the stacked PC is moved back to the trapping instruction. */
  function Trap32Ops(): seq<Op> {
    [Push(15, 0), Push(15, 1)] + ([Const(0, 0xFFFFFFF0), Copy(SR, 0)] + ([Const(0, 5), Push(15, 0)] +
    [Load(0, 15, 12), AddImm(0, -2), Store(0, 15, 12)]))
  }

  /** The other entries, which leave the stacked PC alone. */
  function OtherOps(signal: nat): seq<Op> {
    [Push(15, 0)] + ([Const(0, 0xFFFFFFF0), Copy(SR, 0)] + ([Push(15, 1)] + [Const(0, signal), Push(15, 0)]))
  }

  function FirstRegs(): seq<nat> { [PR, GBR, VBR, MACH, MACL] }
  function LowRegs(): seq<nat> { [2, 3, 4, 5, 6, 7, 8, 9, 10, 11, 12, 13, 14, 15] }

  /** gdb_return_from_exception up to RTE. */
  function ReturnOps(file: nat): seq<Op> {
    [Const(0, file)] +
    (Pops(0, FirstRegs()) +
    ([AddImm(0, 8)] +
    (Pops(0, LowRegs()) + LeaveOps())))
  }

  function LeaveOps(): seq<Op> {
    [Load(1, 0, 4), Push(15, 1)] + ([Load(1, 0, 0), Push(15, 1)] + [AddImm(0, -64), Load(1, 0, 4), Load(0, 0, 0)])
  }

  /** What the processor does on an exception: SR and the return address go on the stack. */
  function Exception(c: Cpu, back: nat, vector: nat): Cpu {
    Set(Exec(Exec(Set(c, PC, back), Push(15, SR)), Push(15, PC)), PC, vector)
  }

  function Rte(c: Cpu): Cpu { Exec(Exec(c, Pop(15, PC)), Pop(15, SR)) }

  // ----- the register file -----

  /** register_file_S: pr, gbr, vbr, mach, macl, r[16], pc, sr. */
  ghost function FileOf(reg: seq<nat>): (f: seq<nat>)
    ensures |reg| == 23 ==> |f| == 23
  {
    if |reg| < 23 then [] else [reg[PR], reg[GBR], reg[VBR], reg[MACH], reg[MACL]] + reg[..17] + [reg[SR]]
  }

  /** Memory holds the words s from address p on. */
  ghost predicate Holds(mem: map<nat, nat>, p: nat, s: seq<nat>) {
    forall j {:trigger s[j]} :: 0 <= j < |s| ==> At(mem, p + 4 * j) == s[j]
  }

  /** The stack has room for the five words of an entry, apart from the register file. */
  ghost predicate Apart(sp: nat, file: nat) {
    && 20 <= sp < WORD && file + 92 <= WORD
    && (sp <= file || sp >= file + 92 + 20)
  }

  /** Only the five stack words below sp and the register file differ. */
  ghost predicate Frame(mem: map<nat, nat>, mem': map<nat, nat>, sp: nat, file: nat) {
    forall a: nat {:trigger At(mem', a)} :: !(sp - 20 <= a < sp) && !(file <= a < file + 92) ==>
      At(mem', a) == At(mem, a)
  }

  lemma HoldsPush(mem: map<nat, nat>, p: nat, s: seq<nat>, v: nat)
    requires Holds(mem, p, s) && p >= 4
    ensures Holds(mem[p - 4 := v], p - 4, [v] + s)
  {
    var t, m := [v] + s, mem[p - 4 := v];
    forall j | 0 <= j < |t|
      ensures At(m, p - 4 + 4 * j) == t[j]
    {
      if j > 0 { assert s[j - 1] == t[j]; assert p - 4 + 4 * j == p + 4 * (j - 1); }
    }
  }

  lemma PushIs(c: Cpu, n: nat, m: nat)
    requires |c.reg| == 23 && n < 23 && m < 23 && 4 <= c.reg[n] < WORD
    ensures Exec(c, Push(n, m)) == Cpu(c.reg[n := c.reg[n] - 4], c.mem[c.reg[n] - 4 := c.reg[m]])
  {
    var a := c.reg[n] - 4;
    assert (c.reg[n] + WORD - 4) % WORD == a;
  }

  lemma PopIs(c: Cpu, m: nat, n: nat)
    requires |c.reg| == 23 && n < 23 && m < 23 && n != m && c.reg[m] + 4 < WORD && At(c.mem, c.reg[m]) < WORD
    ensures Exec(c, Pop(m, n)) == Cpu(c.reg[m := c.reg[m] + 4][n := At(c.mem, c.reg[m])], c.mem)
  {
  }

  lemma LoadIs(c: Cpu, n: nat, m: nat, d: nat)
    requires |c.reg| == 23 && n < 23 && m < 23 && c.reg[m] + d < WORD && At(c.mem, c.reg[m] + d) < WORD
    ensures Exec(c, Load(n, m, d)) == Cpu(c.reg[n := At(c.mem, c.reg[m] + d)], c.mem)
  {
  }

  // ----- entry -----

  /**
    An entry is under way: o are the registers to save, PC being where to resume.  The five
    stack words are in place and the other registers are still live.
   */
  ghost predicate Entered(o: seq<nat>, mem: map<nat, nat>, file: nat, c: Cpu) {
    && |o| == 23 && |c.reg| == 23 && Apart(o[15], file) && (forall i {:trigger o[i]} :: 0 <= i < 23 ==> o[i] < WORD)
    && c.reg[15] == o[15] - 20
    && (forall i {:trigger c.reg[i]} :: 2 <= i < 15 || 17 <= i < 22 ==> c.reg[i] == o[i])
    && At(c.mem, o[15] - 4) == o[SR] && At(c.mem, o[15] - 8) == o[PC]
    && At(c.mem, o[15] - 12) == o[0] && At(c.mem, o[15] - 16) == o[1]
    && Frame(mem, c.mem, o[15], file)
  }

  /** The last k words of the register file are written. */
  ghost predicate Saving(o: seq<nat>, mem: map<nat, nat>, file: nat, c: Cpu, k: nat) {
    && Entered(o, mem, file, c) && k <= 23
    && c.reg[0] == file + 92 - 4 * k && Holds(c.mem, file + 92 - 4 * k, FileOf(o)[23 - k..])
  }

  /** A store into the register file, and any change to R0, leave the stack frame in place. */
  lemma EnteredWrite(o: seq<nat>, mem: map<nat, nat>, file: nat, c: Cpu, a: nat, v: nat, r0: nat)
    requires Entered(o, mem, file, c) && file <= a < file + 92
    ensures Entered(o, mem, file, Cpu(c.reg[0 := r0], c.mem[a := v]))
  {
    FrameWrite(mem, c.mem, o[15], file, a, v);
    hide Frame;
    var m := c.mem[a := v];
    assert forall b :: 0 <= b && b != a ==> At(m, b) == At(c.mem, b);
  }

  lemma FrameWrite(mem: map<nat, nat>, mem': map<nat, nat>, sp: nat, file: nat, a: nat, v: nat)
    requires Frame(mem, mem', sp, file) && (file <= a < file + 92 || sp - 20 <= a < sp)
    ensures Frame(mem, mem'[a := v], sp, file)
  {
    forall b: nat | !(sp - 20 <= b < sp) && !(file <= b < file + 92)
      ensures At(mem'[a := v], b) == At(mem, b)
    {
      assert At(mem', b) == At(mem, b);
    }
  }

  lemma PushStep(o: seq<nat>, mem: map<nat, nat>, file: nat, c: Cpu, k: nat, m: nat)
    requires Saving(o, mem, file, c, k) && 1 <= k < 23 && 0 < m < 23 && c.reg[m] == FileOf(o)[22 - k]
    ensures Saving(o, mem, file, Exec(c, Push(0, m)), k + 1)
  {
    hide Exec, FileOf;
    PushIs(c, 0, m);
    var f := FileOf(o);
    HoldsPush(c.mem, file + 92 - 4 * k, f[23 - k..], f[22 - k]);
    assert [f[22 - k]] + f[23 - k..] == f[23 - (k + 1)..];
    var c', a := Exec(c, Push(0, m)), file + 92 - 4 * (k + 1);
    assert c'.mem == c.mem[a := f[22 - k]] && c'.reg == c.reg[0 := a];
    EnteredWrite(o, mem, file, c, a, f[22 - k], a);
  }

  /** Loads from the stack, and arithmetic in R1, keep what is saved. */
  lemma ScratchStep(o: seq<nat>, mem: map<nat, nat>, file: nat, c: Cpu, k: nat, v: nat)
    requires Saving(o, mem, file, c, k)
    ensures Saving(o, mem, file, c.(reg := c.reg[1 := v]), k)
  {
    hide FileOf, Holds, Frame;
  }

  /** A word of the stack frame goes to the register file. */
  lemma StackStep(o: seq<nat>, mem: map<nat, nat>, file: nat, c: Cpu, k: nat, d: nat)
    requires Saving(o, mem, file, c, k) && 1 <= k < 23 && (d == 12 || d == 8 || d == 4)
    requires FileOf(o)[22 - k] == if d == 12 then o[PC] else if d == 8 then o[0] else o[1]
    ensures Saving(o, mem, file, Run([Load(1, 15, d), Push(0, 1)], c), k + 1)
  {
    hide Exec, FileOf, Holds, Frame, Run;
    Run2(c, Load(1, 15, d), Push(0, 1));
    LoadIs(c, 1, 15, d);
    var v := At(c.mem, c.reg[15] + d);
    ScratchStep(o, mem, file, c, k, v);
    PushStep(o, mem, file, c.(reg := c.reg[1 := v]), k, 1);
  }

  /** Register m is still live and is the next word to save. */
  ghost predicate NextWord(o: seq<nat>, k: int, m: nat) {
    |o| == 23 && 0 <= k < 23 && (2 <= m < 15 || 17 <= m < 22) && o[m] == FileOf(o)[22 - k]
  }

  lemma LiveStep(o: seq<nat>, mem: map<nat, nat>, file: nat, c: Cpu, k: nat, m: nat)
    requires Saving(o, mem, file, c, k) && 1 <= k && NextWord(o, k, m)
    ensures Saving(o, mem, file, Exec(c, Push(0, m)), k + 1)
  {
    hide Exec, FileOf, Holds, Frame;
    PushStep(o, mem, file, c, k, m);
  }

  /** Registers that are still live go to the register file, one after another. */
  lemma {:induction false} PushesStep(o: seq<nat>, mem: map<nat, nat>, file: nat, c: Cpu, k: nat, ms: seq<nat>)
    requires Saving(o, mem, file, c, k) && 1 <= k
    requires forall i {:trigger ms[i]} :: 0 <= i < |ms| ==> NextWord(o, k + i, ms[i])
    ensures Saving(o, mem, file, Run(Pushes(0, ms), c), k + |ms|)
    decreases |ms|
  {
    hide Saving, Exec, NextWord;
    if ms == [] {
      assert Pushes(0, ms) == [];
    } else {
      var ops := Pushes(0, ms);
      assert ops[0] == Push(0, ms[0]) && ops[1..] == Pushes(0, ms[1..]);
      assert forall i :: 0 <= i < |ms[1..]| ==> ms[1..][i] == ms[i + 1];
      assert NextWord(o, k + 0, ms[0]);
      LiveStep(o, mem, file, c, k, ms[0]);
      PushesStep(o, mem, file, Exec(c, ops[0]), k + 1, ms[1..]);
    }
  }

  lemma FirstStep(o: seq<nat>, mem: map<nat, nat>, file: nat, c: Cpu)
    requires Entered(o, mem, file, c)
    ensures Saving(o, mem, file, Run([Const(0, file + 88), Load(1, 15, 16), Store(1, 0, 0)], c), 1)
  {
    hide Run;
    Run3(c, Const(0, file + 88), Load(1, 15, 16), Store(1, 0, 0));
    var c1 := Exec(c, Const(0, file + 88));
    assert c1 == c.(reg := c.reg[0 := file + 88]);
    assert c.reg[15] == o[15] - 20 && At(c.mem, o[15] - 20 + 16) == o[SR];
    LoadIs(c1, 1, 15, 16);
    var c2 := c.(reg := c.reg[0 := file + 88][1 := o[SR]]);
    assert Exec(c1, Load(1, 15, 16)) == c2;
    var a := file + 88;
    assert a % WORD == a;
    EnteredWrite(o, mem, file, c.(reg := c.reg[1 := o[SR]]), a, o[SR], a);
    assert Exec(c2, Store(1, 0, 0)) == Cpu(c.reg[1 := o[SR]][0 := a], c.mem[a := o[SR]]);
    assert FileOf(o)[22..] == [o[SR]];
  }

  lemma StackPointerStep(o: seq<nat>, mem: map<nat, nat>, file: nat, c: Cpu)
    requires Saving(o, mem, file, c, 2)
    ensures Saving(o, mem, file, Run([Copy(1, 15), AddImm(1, 20), Push(0, 1)], c), 3)
  {
    hide Run, Holds, Frame;
    Run3(c, Copy(1, 15), AddImm(1, 20), Push(0, 1));
    ScratchStep(o, mem, file, c, 2, o[15]);
    assert FileOf(o)[20] == o[15];
    var c' := c.(reg := c.reg[1 := o[15]]);
    assert Exec(Exec(c, Copy(1, 15)), AddImm(1, 20)) == c';
    hide Exec, FileOf;
    PushStep(o, mem, file, c', 2, 1);
  }

  /** Where the words of the register file come from. */
  lemma FileLayout(o: seq<nat>)
    requires |o| == 23
    ensures var f := FileOf(o); f[21] == o[PC] && f[20] == o[15] && f[6] == o[1] && f[5] == o[0]
  {
  }

  lemma HighLayout(o: seq<nat>, i: nat)
    requires |o| == 23 && i < 13
    ensures |HighRegs()| == 13 && HighRegs()[i] == 14 - i && o[14 - i] == FileOf(o)[19 - i]
  {
  }

  lemma SystemLayout(o: seq<nat>, i: nat)
    requires |o| == 23 && i < 5
    ensures |SystemRegs()| == 5 && 17 <= SystemRegs()[i] < 22 && o[SystemRegs()[i]] == FileOf(o)[4 - i]
  {
  }

  lemma PushHigh(o: seq<nat>, mem: map<nat, nat>, file: nat, c: Cpu)
    requires Saving(o, mem, file, c, 3)
    ensures Saving(o, mem, file, Run(Pushes(0, HighRegs()), c), 16)
  {
    assert |o| == 23;
    hide Run, Saving, FileOf, Pushes, HighRegs;
    HighLayout(o, 0);
    var hs := HighRegs();
    forall i | 0 <= i < |hs|
      ensures NextWord(o, 3 + i, hs[i])
    {
      HighLayout(o, i);
    }
    PushesStep(o, mem, file, c, 3, hs);
  }

  lemma PushSystem(o: seq<nat>, mem: map<nat, nat>, file: nat, c: Cpu)
    requires Saving(o, mem, file, c, 18)
    ensures Saving(o, mem, file, Run(Pushes(0, SystemRegs()), c), 23)
  {
    assert |o| == 23;
    hide Run, Saving, FileOf, Pushes, SystemRegs;
    SystemLayout(o, 0);
    var ms := SystemRegs();
    forall i | 0 <= i < |ms|
      ensures NextWord(o, 18 + i, ms[i])
    {
      SystemLayout(o, i);
    }
    PushesStep(o, mem, file, c, 18, ms);
  }

  /** The entry code writes the whole register file, and nothing else beyond the stack frame. */
  lemma SaveFills(o: seq<nat>, mem: map<nat, nat>, file: nat, c: Cpu)
    requires Entered(o, mem, file, c)
    ensures Saving(o, mem, file, Run(SaveOps(file), c), 23)
  {
    assert |o| == 23;
    FileLayout(o);
    hide Run, Exec, Saving, Entered, FileOf, SaveOps, Pushes, HighRegs;
    SaveSplits(file, c);
    var c1 := Run([Const(0, file + 88), Load(1, 15, 16), Store(1, 0, 0)], c);
    FirstStep(o, mem, file, c);
    StackStep(o, mem, file, c1, 1, 12);
    var c2 := Run([Load(1, 15, 12), Push(0, 1)], c1);
    StackPointerStep(o, mem, file, c2);
    SaveRest(o, mem, file, Run([Copy(1, 15), AddImm(1, 20), Push(0, 1)], c2));
  }

  lemma SaveRest(o: seq<nat>, mem: map<nat, nat>, file: nat, c: Cpu)
    requires Saving(o, mem, file, c, 3)
    ensures Saving(o, mem, file, Run(TailOps(), c), 23)
  {
    assert |o| == 23;
    FileLayout(o);
    hide Run, Exec, Saving, FileOf, Pushes, HighRegs, SystemRegs, TailOps;
    TailSplits(c);
    PushHigh(o, mem, file, c);
    var c4 := Run(Pushes(0, HighRegs()), c);
    StackStep(o, mem, file, c4, 16, 4);
    var c5 := Run([Load(1, 15, 4), Push(0, 1)], c4);
    StackStep(o, mem, file, c5, 17, 8);
    PushSystem(o, mem, file, Run([Load(1, 15, 8), Push(0, 1)], c5));
  }

  lemma SaveSplits(file: nat, c: Cpu)
    ensures Run(SaveOps(file), c) ==
            Run(TailOps(), Run([Copy(1, 15), AddImm(1, 20), Push(0, 1)],
              Run([Load(1, 15, 12), Push(0, 1)], Run([Const(0, file + 88), Load(1, 15, 16), Store(1, 0, 0)], c))))
  {
    var p1, p2, p3 := [Const(0, file + 88), Load(1, 15, 16), Store(1, 0, 0)], [Load(1, 15, 12), Push(0, 1)],
        [Copy(1, 15), AddImm(1, 20), Push(0, 1)];
    assert SaveOps(file) == p1 + (p2 + (p3 + TailOps()));
    hide Run, SaveOps, TailOps;
    RunSplit(p1, p2 + (p3 + TailOps()), c);
    RunSplit(p2, p3 + TailOps(), Run(p1, c));
    RunSplit(p3, TailOps(), Run(p2, Run(p1, c)));
  }

  lemma TailSplits(c: Cpu)
    ensures Run(TailOps(), c) ==
            Run(Pushes(0, SystemRegs()), Run([Load(1, 15, 8), Push(0, 1)],
              Run([Load(1, 15, 4), Push(0, 1)], Run(Pushes(0, HighRegs()), c))))
  {
    var p4, p5, p6, p7 := Pushes(0, HighRegs()), [Load(1, 15, 4), Push(0, 1)], [Load(1, 15, 8), Push(0, 1)],
        Pushes(0, SystemRegs());
    assert TailOps() == p4 + (p5 + (p6 + p7));
    hide Run, TailOps, Pushes, HighRegs, SystemRegs;
    RunSplit(p4, p5 + (p6 + p7), c);
    RunSplit(p5, p6 + p7, Run(p4, c));
    RunSplit(p6, p7, Run(p5, Run(p4, c)));
  }

  lemma ExceptionIs(c: Cpu, back: nat, vector: nat)
    requires Regs(c) && c.reg[15] >= 20 && back < WORD && vector < WORD
    ensures Exception(c, back, vector) ==
            Cpu(c.reg[15 := c.reg[15] - 8][PC := vector], c.mem[c.reg[15] - 4 := c.reg[SR]][c.reg[15] - 8 := back])
  {
    var sp := c.reg[15];
    var c1 := Set(c, PC, back);
    assert c1 == c.(reg := c.reg[PC := back]);
    hide Exec;
    PushIs(c1, 15, SR);
    PushIs(Exec(c1, Push(15, SR)), 15, PC);
    assert c.reg[PC := back][15 := sp - 4][15 := sp - 8][PC := vector] == c.reg[15 := sp - 8][PC := vector];
  }

  /** The stack words that an exception and an entry leave, from the top down. */
  ghost function Stacked(mem: map<nat, nat>, sp: nat, sr: nat, pc: nat, r0: nat, r1: nat, signal: nat): map<nat, nat>
    requires sp >= 20
  {
    mem[sp - 4 := sr][sp - 8 := pc][sp - 12 := r0][sp - 16 := r1][sp - 20 := signal]
  }

  /** The stack frame is in place: PC is the resume address, R0 and SR are lost, the rest is live. */
  lemma FrameEntered(o: seq<nat>, mem: map<nat, nat>, file: nat, c: Cpu, signal: nat)
    requires |o| == 23 == |c.reg| && Apart(o[15], file) && (forall i {:trigger o[i]} :: 0 <= i < 23 ==> o[i] < WORD)
    requires c.reg[15] == o[15] - 20 && forall i {:trigger c.reg[i]} :: 2 <= i < 15 || 17 <= i < 22 ==> c.reg[i] == o[i]
    requires c.mem == Stacked(mem, o[15], o[SR], o[PC], o[0], o[1], signal)
    ensures Entered(o, mem, file, c)
  {
  }

  lemma PushPair(c: Cpu)
    requires |c.reg| == 23 && 8 <= c.reg[15] < WORD
    ensures Run([Push(15, 0), Push(15, 1)], c) ==
            Cpu(c.reg[15 := c.reg[15] - 8], c.mem[c.reg[15] - 4 := c.reg[0]][c.reg[15] - 8 := c.reg[1]])
  {
    hide Run, Exec;
    var sp := c.reg[15];
    Run2(c, Push(15, 0), Push(15, 1));
    PushIs(c, 15, 0);
    PushIs(Exec(c, Push(15, 0)), 15, 1);
    assert c.reg[15 := sp - 4][15 := sp - 8] == c.reg[15 := sp - 8];
  }

  lemma PushConst(c: Cpu, v: nat)
    requires |c.reg| == 23 && 4 <= c.reg[15] < WORD && v < WORD
    ensures Run([Const(0, v), Push(15, 0)], c) == Cpu(c.reg[0 := v][15 := c.reg[15] - 4], c.mem[c.reg[15] - 4 := v])
  {
    hide Run;
    Run2(c, Const(0, v), Push(15, 0));
    var c1 := Exec(c, Const(0, v));
    assert c1 == c.(reg := c.reg[0 := v]);
    hide Exec;
    PushIs(c1, 15, 0);
  }

  lemma MaskInterrupts(c: Cpu)
    requires |c.reg| == 23
    ensures Run([Const(0, 0xFFFFFFF0), Copy(SR, 0)], c) == c.(reg := c.reg[0 := 0xFFFFFFF0][SR := 0xFFFFFFF0])
  {
    hide Run;
    Run2(c, Const(0, 0xFFFFFFF0), Copy(SR, 0));
  }

  lemma AddStore(c: Cpu, a: nat, v: nat)
    requires |c.reg| == 23 && c.reg[15] + 12 == a < WORD && c.reg[0] == v < WORD
    ensures var pc := (v - 2) % WORD;
            Exec(Exec(c, AddImm(0, -2)), Store(0, 15, 12)) == Cpu(c.reg[0 := pc], c.mem[a := pc])
  {
    var pc := (v - 2) % WORD;
    assert Exec(c, AddImm(0, -2)) == c.(reg := c.reg[0 := pc]);
    assert a % WORD == a;
  }

  lemma MovePcBack(c: Cpu)
    requires |c.reg| == 23 && c.reg[15] + 12 < WORD && At(c.mem, c.reg[15] + 12) < WORD
    ensures var a := c.reg[15] + 12; var pc := (At(c.mem, a) - 2) % WORD;
            Run([Load(0, 15, 12), AddImm(0, -2), Store(0, 15, 12)], c) == Cpu(c.reg[0 := pc], c.mem[a := pc])
  {
    hide Run, Exec, At;
    var a := c.reg[15] + 12;
    Run3(c, Load(0, 15, 12), AddImm(0, -2), Store(0, 15, 12));
    LoadIs(c, 0, 15, 12);
    AddStore(c.(reg := c.reg[0 := At(c.mem, a)]), a, At(c.mem, a));
    var pc := (At(c.mem, a) - 2) % WORD;
    assert c.reg[0 := At(c.mem, a)][0 := pc] == c.reg[0 := pc];
  }

  lemma Trap32Splits(c: Cpu)
    ensures Run(Trap32Ops(), c) ==
            Run([Load(0, 15, 12), AddImm(0, -2), Store(0, 15, 12)], Run([Const(0, 5), Push(15, 0)],
              Run([Const(0, 0xFFFFFFF0), Copy(SR, 0)], Run([Push(15, 0), Push(15, 1)], c))))
  {
    var p1, p2, p3, p4 := [Push(15, 0), Push(15, 1)], [Const(0, 0xFFFFFFF0), Copy(SR, 0)], [Const(0, 5), Push(15, 0)],
                          [Load(0, 15, 12), AddImm(0, -2), Store(0, 15, 12)];
    assert Trap32Ops() == p1 + (p2 + (p3 + p4));
    hide Run, Trap32Ops;
    RunSplit(p1, p2 + (p3 + p4), c);
    RunSplit(p2, p3 + p4, Run(p1, c));
    RunSplit(p3, p4, Run(p2, Run(p1, c)));
  }

  lemma Trap32Is(c: Cpu, sp: nat)
    requires |c.reg| == 23 && 20 <= sp < WORD && c.reg[15] == sp - 8 && At(c.mem, sp - 8) < WORD
    ensures var pc := (At(c.mem, sp - 8) - 2) % WORD;
            Run(Trap32Ops(), c) ==
            Cpu(c.reg[15 := sp - 20][SR := 0xFFFFFFF0][0 := pc],
                c.mem[sp - 12 := c.reg[0]][sp - 16 := c.reg[1]][sp - 20 := 5][sp - 8 := pc])
  {
    hide Run, Trap32Ops;
    Trap32Splits(c);
    PushPair(c);
    var c1 := Cpu(c.reg[15 := sp - 16], c.mem[sp - 12 := c.reg[0]][sp - 16 := c.reg[1]]);
    MaskInterrupts(c1);
    var c2 := c1.(reg := c1.reg[0 := 0xFFFFFFF0][SR := 0xFFFFFFF0]);
    PushConst(c2, 5);
    var c3 := Cpu(c2.reg[0 := 5][15 := sp - 20], c2.mem[sp - 20 := 5]);
    assert At(c3.mem, sp - 8) == At(c.mem, sp - 8);
    MovePcBack(c3);
    var pc := (At(c.mem, sp - 8) - 2) % WORD;
    assert c3.reg[0 := pc] == c.reg[15 := sp - 20][SR := 0xFFFFFFF0][0 := pc];
  }

  lemma OtherSplits(c: Cpu, signal: nat)
    ensures Run(OtherOps(signal), c) ==
            Run([Const(0, signal), Push(15, 0)], Run([Push(15, 1)],
                                                     Run([Const(0, 0xFFFFFFF0), Copy(SR, 0)], Run([Push(15, 0)], c))))
  {
    var p1, p2, p3, p4 := [Push(15, 0)], [Const(0, 0xFFFFFFF0), Copy(SR, 0)], [Push(15, 1)],
        [Const(0, signal), Push(15, 0)];
    assert OtherOps(signal) == p1 + (p2 + (p3 + p4));
    hide Run, OtherOps;
    RunSplit(p1, p2 + (p3 + p4), c);
    RunSplit(p2, p3 + p4, Run(p1, c));
    RunSplit(p3, p4, Run(p2, Run(p1, c)));
  }

  lemma OtherIs(c: Cpu, sp: nat, signal: nat)
    requires |c.reg| == 23 && 20 <= sp < WORD && c.reg[15] == sp - 8 && signal < WORD
    ensures Run(OtherOps(signal), c) ==
            Cpu(c.reg[15 := sp - 20][SR := 0xFFFFFFF0][0 := signal],
                c.mem[sp - 12 := c.reg[0]][sp - 16 := c.reg[1]][sp - 20 := signal])
  {
    hide Run, OtherOps, Exec;
    OtherSplits(c, signal);
    Run1(c, Push(15, 0));
    PushIs(c, 15, 0);
    var c1 := Cpu(c.reg[15 := sp - 12], c.mem[sp - 12 := c.reg[0]]);
    MaskInterrupts(c1);
    var c2 := c1.(reg := c1.reg[0 := 0xFFFFFFF0][SR := 0xFFFFFFF0]);
    Run1(c2, Push(15, 1));
    PushIs(c2, 15, 1);
    var c3 := Cpu(c2.reg[15 := sp - 16], c2.mem[sp - 16 := c.reg[1]]);
    PushConst(c3, signal);
    assert c3.reg[0 := signal][15 := sp - 20] == c.reg[15 := sp - 20][SR := 0xFFFFFFF0][0 := signal];
  }

  // ----- return -----

  ghost predicate Words(o: seq<nat>) { |o| == 23 && forall i {:trigger o[i]} :: 0 <= i < 23 ==> o[i] < WORD }

  /** k words of the register file o are consumed. */
  ghost predicate Popping(o: seq<nat>, file: nat, c: Cpu, k: nat) {
    && Words(o) && |c.reg| == 23 && file + 92 <= WORD
    && c.reg[0] == file + 4 * k && Holds(c.mem, file, FileOf(o))
  }

  /** Register n is the next word of the file. */
  ghost predicate NextPop(o: seq<nat>, k: int, n: nat) {
    |o| == 23 && 0 <= k < 22 && 0 < n < 23 && o[n] == FileOf(o)[k]
  }

  ghost predicate Popped(o: seq<nat>, c: Cpu, c': Cpu, ns: seq<nat>) {
    && |o| == |c.reg| == |c'.reg| == 23 && c'.mem == c.mem
    && forall r {:trigger c'.reg[r]} :: 1 <= r < 23 ==> c'.reg[r] == if r in ns then o[r] else c.reg[r]
  }

  lemma PopStep(o: seq<nat>, file: nat, c: Cpu, k: nat, n: nat)
    requires Popping(o, file, c, k) && NextPop(o, k, n)
    ensures Popping(o, file, Exec(c, Pop(0, n)), k + 1) && Popped(o, c, Exec(c, Pop(0, n)), [n])
  {
    hide Exec, FileOf, Holds, At;
    WordOf(c.mem, file, FileOf(o), k);
    PopIs(c, 0, n);
  }

  lemma WordOf(mem: map<nat, nat>, p: nat, s: seq<nat>, k: nat)
    requires Holds(mem, p, s) && k < |s|
    ensures At(mem, p + 4 * k) == s[k]
  {
  }

  lemma PoppedBoth(o: seq<nat>, c: Cpu, c1: Cpu, c2: Cpu, n: nat, ns: seq<nat>)
    requires Popped(o, c, c1, [n]) && Popped(o, c1, c2, ns)
    ensures Popped(o, c, c2, [n] + ns)
  {
    forall r | 1 <= r < 23
      ensures c2.reg[r] == if r in [n] + ns then o[r] else c.reg[r]
    {
      assert c1.reg[r] == if r in [n] then o[r] else c.reg[r];
    }
  }

  lemma {:induction false} PopsStep(o: seq<nat>, file: nat, c: Cpu, k: nat, ns: seq<nat>)
    requires Popping(o, file, c, k)
    requires forall i {:trigger ns[i]} :: 0 <= i < |ns| ==> NextPop(o, k + i, ns[i])
    ensures Popping(o, file, Run(Pops(0, ns), c), k + |ns|) && Popped(o, c, Run(Pops(0, ns), c), ns)
    decreases |ns|
  {
    hide Exec, NextPop, FileOf, Holds;
    if ns == [] {
      assert Pops(0, ns) == [];
    } else {
      hide Popping, Popped;
      var n, ops := ns[0], Pops(0, ns);
      assert ops[0] == Pop(0, n) && ops[1..] == Pops(0, ns[1..]);
      assert forall i :: 0 <= i < |ns[1..]| ==> ns[1..][i] == ns[i + 1];
      assert NextPop(o, k + 0, n);
      PopStep(o, file, c, k, n);
      var c1 := Exec(c, ops[0]);
      PopsStep(o, file, c1, k + 1, ns[1..]);
      PoppedBoth(o, c, c1, Run(ops[1..], c1), n, ns[1..]);
      assert ns == [n] + ns[1..];
    }
  }

  /** Everything but R0, R1, PC and SR is loaded; sp is where R15 stands now. */
  ghost predicate Loaded(o: seq<nat>, file: nat, c: Cpu, sp: nat) {
    && Words(o) && Apart(o[15], file) && |c.reg| == 23
    && Holds(c.mem, file, FileOf(o)) && c.reg[15] == sp
    && forall r {:trigger c.reg[r]} :: 2 <= r < 15 || 17 <= r < 22 ==> c.reg[r] == o[r]
  }

  lemma FirstAt(o: seq<nat>, i: nat)
    requires |o| == 23 && i < 5
    ensures |FirstRegs()| == 5 && 17 <= FirstRegs()[i] < 22 && o[FirstRegs()[i]] == FileOf(o)[i]
    ensures forall r :: r in FirstRegs() <==> 17 <= r < 22
  {
    assert FirstRegs()[0] == PR && FirstRegs()[1] == GBR && FirstRegs()[2] == VBR && FirstRegs()[3] == MACH &&
        FirstRegs()[4] == MACL;
  }

  lemma LowAt(o: seq<nat>, i: nat)
    requires |o| == 23 && i < 14
    ensures |LowRegs()| == 14 && LowRegs()[i] == i + 2 && o[i + 2] == FileOf(o)[7 + i]
  {
  }

  lemma LoadFirst(o: seq<nat>, file: nat, c: Cpu)
    requires Words(o) && |c.reg| == 23 && file + 92 <= WORD && c.reg[0] == file && Holds(c.mem, file, FileOf(o))
    ensures var c' := Run(Pops(0, FirstRegs()), c);
            && |c'.reg| == 23 && c'.mem == c.mem && c'.reg[0] == file + 20
            && forall r {:trigger c'.reg[r]} :: 17 <= r < 22 ==> c'.reg[r] == o[r]
  {
    hide Run, FileOf, Pops, FirstRegs, Holds;
    FirstAt(o, 0);
    var ns := FirstRegs();
    forall i | 0 <= i < |ns|
      ensures NextPop(o, 0 + i, ns[i])
    {
      FirstAt(o, i);
    }
    PopsStep(o, file, c, 0, ns);
  }

  lemma LoadLow(o: seq<nat>, file: nat, c: Cpu)
    requires Words(o) && |c.reg| == 23 && file + 92 <= WORD && c.reg[0] == file + 28 && Holds(c.mem, file, FileOf(o))
    ensures var c' := Run(Pops(0, LowRegs()), c);
            && |c'.reg| == 23 && c'.mem == c.mem && c'.reg[0] == file + 84
            && (forall r {:trigger c'.reg[r]} :: 2 <= r < 16 ==> c'.reg[r] == o[r])
            && (forall r {:trigger c'.reg[r]} :: 16 <= r < 23 ==> c'.reg[r] == c.reg[r])
  {
    hide Run, FileOf, Pops, LowRegs, Holds;
    LowAt(o, 0);
    var ns := LowRegs();
    forall i | 0 <= i < |ns|
      ensures NextPop(o, 7 + i, ns[i])
    {
      LowAt(o, i);
    }
    PopsStep(o, file, c, 7, ns);
    forall r | 2 <= r < 16
      ensures r in ns
    {
      LowAt(o, r - 2);
      assert ns[r - 2] == r;
    }
    forall r | 16 <= r < 23
      ensures r !in ns
    {
      if r in ns {
        var i :| 0 <= i < |ns| && ns[i] == r;
        LowAt(o, i);
      }
    }
  }

  /** A word of the file goes on the stack that is being restored. */
  lemma StackWord(o: seq<nat>, file: nat, c: Cpu, sp: nat, d: nat)
    requires Loaded(o, file, c, sp) && c.reg[0] == file + 84 && (d == 4 || d == 0)
    requires o[15] - 16 <= sp <= o[15]
    ensures var c' := Run([Load(1, 0, d), Push(15, 1)], c); var v := FileOf(o)[21 + d / 4];
            && Loaded(o, file, c', sp - 4) && c'.reg[0] == file + 84 && c'.mem == c.mem[sp - 4 := v]
  {
    var v := FileOf(o)[21 + d / 4];
    assert At(c.mem, file + 4 * (21 + d / 4)) == v;
    assert v == if d == 4 then o[SR] else o[PC];
    FileApart(o, file, c.mem, sp - 4, v);
    hide Run, FileOf, Exec, Holds;
    Run2(c, Load(1, 0, d), Push(15, 1));
    LoadIs(c, 1, 0, d);
    PushIs(c.(reg := c.reg[1 := v]), 15, 1);
  }

  lemma FileApart(o: seq<nat>, file: nat, mem: map<nat, nat>, a: nat, v: nat)
    requires Words(o) && Apart(o[15], file) && o[15] - 20 <= a < o[15] && Holds(mem, file, FileOf(o))
    ensures Holds(mem[a := v], file, FileOf(o))
  {
    hide FileOf;
    var f := FileOf(o);
    forall j | 0 <= j < |f|
      ensures At(mem[a := v], file + 4 * j) == f[j]
    {
      assert file + 4 * j != a;
    }
  }

  lemma LastLoads(o: seq<nat>, file: nat, c: Cpu, sp: nat)
    requires Loaded(o, file, c, sp) && c.reg[0] == file + 84
    ensures var c' := Run([AddImm(0, -64), Load(1, 0, 4), Load(0, 0, 0)], c);
            && Loaded(o, file, c', sp) && c'.mem == c.mem && c'.reg[0] == o[0] && c'.reg[1] == o[1]
  {
    FileLayout(o);
    var f := FileOf(o);
    assert At(c.mem, file + 4 * 5) == f[5] && At(c.mem, file + 4 * 6) == f[6];
    hide Run, FileOf, Holds;
    Run3(c, AddImm(0, -64), Load(1, 0, 4), Load(0, 0, 0));
    var c1 := Exec(c, AddImm(0, -64));
    assert c1 == c.(reg := c.reg[0 := file + 20]);
    hide Exec;
    LoadIs(c1, 1, 0, 4);
    LoadIs(c1.(reg := c1.reg[1 := o[1]]), 0, 0, 0);
  }

  lemma ReturnSplits(file: nat, c: Cpu)
    ensures Run(ReturnOps(file), c) ==
            Run(LeaveOps(), Run(Pops(0, LowRegs()),
                                Run([AddImm(0, 8)], Run(Pops(0, FirstRegs()), Run([Const(0, file)], c)))))
  {
    var p1, p2, p3, p4 := [Const(0, file)], Pops(0, FirstRegs()), [AddImm(0, 8)], Pops(0, LowRegs());
    assert ReturnOps(file) == p1 + (p2 + (p3 + (p4 + LeaveOps())));
    hide Run, ReturnOps, LeaveOps, Pops, FirstRegs, LowRegs;
    RunSplit(p1, p2 + (p3 + (p4 + LeaveOps())), c);
    RunSplit(p2, p3 + (p4 + LeaveOps()), Run(p1, c));
    RunSplit(p3, p4 + LeaveOps(), Run(p2, Run(p1, c)));
    RunSplit(p4, LeaveOps(), Run(p3, Run(p2, Run(p1, c))));
  }

  lemma LeaveSplits(c: Cpu)
    ensures Run(LeaveOps(), c) ==
            Run([AddImm(0, -64), Load(1, 0, 4), Load(0, 0, 0)],
                Run([Load(1, 0, 0), Push(15, 1)], Run([Load(1, 0, 4), Push(15, 1)], c)))
  {
    var p5, p6, p7 := [Load(1, 0, 4), Push(15, 1)], [Load(1, 0, 0), Push(15, 1)],
        [AddImm(0, -64), Load(1, 0, 4), Load(0, 0, 0)];
    assert LeaveOps() == p5 + (p6 + p7);
    hide Run, LeaveOps;
    RunSplit(p5, p6 + p7, c);
    RunSplit(p6, p7, Run(p5, c));
  }

  lemma Loads(o: seq<nat>, file: nat, c: Cpu)
    requires Words(o) && Apart(o[15], file) && |c.reg| == 23 && Holds(c.mem, file, FileOf(o))
    ensures var c4 := Run(Pops(0, LowRegs()), Run([AddImm(0, 8)], Run(Pops(0, FirstRegs()), Run([Const(0, file)], c))));
            Loaded(o, file, c4, o[15]) && c4.reg[0] == file + 84 && c4.mem == c.mem
  {
    hide Run, Pops, FirstRegs, LowRegs, FileOf, Holds;
    Run1(c, Const(0, file));
    var c1 := Run([Const(0, file)], c);
    assert c1 == c.(reg := c.reg[0 := file]);
    LoadFirst(o, file, c1);
    var c2 := Run(Pops(0, FirstRegs()), c1);
    Run1(c2, AddImm(0, 8));
    var c3 := Run([AddImm(0, 8)], c2);
    assert c3 == c2.(reg := c2.reg[0 := file + 28]);
    hide Exec;
    LoadLow(o, file, c3);
  }

  lemma FileEnds(o: seq<nat>)
    requires |o| == 23
    ensures FileOf(o)[22] == o[SR] && FileOf(o)[21] == o[PC]
  {
  }

  lemma LoadedRange(o: seq<nat>, file: nat, c: Cpu)
    requires Words(o) && Loaded(o, file, c, o[15])
    ensures o[15] >= 20 && |c.reg| == 23
  {
  }

  lemma Leaves(o: seq<nat>, file: nat, c: Cpu)
    requires Words(o) && Loaded(o, file, c, o[15]) && c.reg[0] == file + 84
    ensures var c' := Run(LeaveOps(), c);
            && Loaded(o, file, c', o[15] - 8) && c'.reg[0] == o[0] && c'.reg[1] == o[1]
            && c'.mem == c.mem[o[15] - 4 := o[SR]][o[15] - 8 := o[PC]]
  {
    hide Run, LeaveOps, FileOf, Holds, Loaded, Apart;
    FileEnds(o);
    LoadedRange(o, file, c);
    LeaveSplits(c);
    StackWord(o, file, c, o[15], 4);
    var c1 := Run([Load(1, 0, 4), Push(15, 1)], c);
    StackWord(o, file, c1, o[15] - 4, 0);
    LastLoads(o, file, Run([Load(1, 0, 0), Push(15, 1)], c1), o[15] - 8);
  }

  lemma RteIs(o: seq<nat>, file: nat, c: Cpu, mem: map<nat, nat>)
    requires Words(o) && o[15] >= 8 && Loaded(o, file, c, o[15] - 8) && c.reg[0] == o[0] && c.reg[1] == o[1]
    requires c.mem == mem[o[15] - 4 := o[SR]][o[15] - 8 := o[PC]]
    ensures Rte(c) == Cpu(o, c.mem)
  {
    hide FileOf, Holds, Exec;
    var sp := o[15] - 8;
    assert o[PC] < WORD && o[SR] < WORD && o[15] < WORD;
    assert At(c.mem, sp) == o[PC] && At(c.mem, sp + 4) == o[SR];
    PopIs(c, 15, PC);
    var c1 := Cpu(c.reg[15 := sp + 4][PC := o[PC]], c.mem);
    PopIs(c1, 15, SR);
    assert c1.reg[15 := o[15]][SR := o[SR]] == o;
  }

  // ----- the round trip -----

  /** TRAPA #32 at the address in PC, up to the call of gdb_handle_exception. */
  function EnterTrap32(c: Cpu, file: nat, vector: nat): Cpu {
    Run(SaveOps(file), Run(Trap32Ops(), Exception(c, (R(c, PC) + 2) % WORD, vector)))
  }

  /** Any other exception that stacks the address `back`. */
  function EnterOther(c: Cpu, file: nat, back: nat, vector: nat, signal: nat): Cpu {
    Run(SaveOps(file), Run(OtherOps(signal), Exception(c, back, vector)))
  }

  function Leave(c: Cpu, file: nat): Cpu { Rte(Run(ReturnOps(file), c)) }

  lemma BackAgain(pc: nat)
    requires pc < WORD
    ensures ((pc + 2) % WORD - 2) % WORD == pc
  {
  }

  lemma Trap32Entered(c: Cpu, file: nat, vector: nat)
    requires Regs(c) && Apart(c.reg[15], file) && vector < WORD
    ensures Entered(c.reg, c.mem, file, Run(Trap32Ops(), Exception(c, (R(c, PC) + 2) % WORD, vector)))
  {
    hide Run, Exception;
    var sp, pc, back := c.reg[15], c.reg[PC], (c.reg[PC] + 2) % WORD;
    ExceptionIs(c, back, vector);
    var c1 := Cpu(c.reg[15 := sp - 8][PC := vector], c.mem[sp - 4 := c.reg[SR]][sp - 8 := back]);
    Trap32Is(c1, sp);
    BackAgain(pc);
    var c2 := Run(Trap32Ops(), c1);
    assert c2.mem == Stacked(c.mem, sp, c.reg[SR], pc, c.reg[0], c.reg[1], 5);
    FrameEntered(c.reg, c.mem, file, c2, 5);
  }

  lemma OtherEntered(c: Cpu, file: nat, back: nat, vector: nat, signal: nat)
    requires Regs(c) && Apart(c.reg[15], file) && vector < WORD && back < WORD && signal < WORD
    ensures Entered(c.reg[PC := back], c.mem, file, Run(OtherOps(signal), Exception(c, back, vector)))
  {
    hide Run, Exception;
    var sp, o := c.reg[15], c.reg[PC := back];
    ExceptionIs(c, back, vector);
    var c1 := Cpu(c.reg[15 := sp - 8][PC := vector], c.mem[sp - 4 := c.reg[SR]][sp - 8 := back]);
    OtherIs(c1, sp, signal);
    FrameEntered(o, c.mem, file, Run(OtherOps(signal), c1), signal);
  }

  /** Whatever the stub does meanwhile: if the register file holds o, the machine resumes as o. */
  lemma LeaveRestores(o: seq<nat>, c: Cpu, file: nat)
    requires Words(o) && Apart(o[15], file) && |c.reg| == 23 && Holds(c.mem, file, FileOf(o))
    ensures Leave(c, file) == Cpu(o, c.mem[o[15] - 4 := o[SR]][o[15] - 8 := o[PC]])
  {
    hide Run, ReturnOps, LeaveOps, Pops, FirstRegs, LowRegs, FileOf, Holds, Rte;
    ReturnSplits(file, c);
    Loads(o, file, c);
    var c4 := Run(Pops(0, LowRegs()), Run([AddImm(0, 8)], Run(Pops(0, FirstRegs()), Run([Const(0, file)], c))));
    Leaves(o, file, c4);
    RteIs(o, file, Run(LeaveOps(), c4), c.mem);
  }

  /** The register file is as the entry left it. */
  ghost predicate FileKept(mem: map<nat, nat>, mem': map<nat, nat>, file: nat) {
    forall a: nat {:trigger At(mem', a)} :: file <= a < file + 92 ==> At(mem', a) == At(mem, a)
  }

  lemma KeptHolds(mem: map<nat, nat>, mem': map<nat, nat>, file: nat, f: seq<nat>)
    requires FileKept(mem, mem', file) && |f| == 23 && Holds(mem, file, f)
    ensures Holds(mem', file, f)
  {
  }

  lemma Saved(o: seq<nat>, mem: map<nat, nat>, file: nat, c: Cpu)
    requires Saving(o, mem, file, c, 23)
    ensures Words(o) && Holds(c.mem, file, FileOf(o)) && Frame(mem, c.mem, o[15], file)
  {
    assert FileOf(o)[0..] == FileOf(o);
  }

  /**
    From every machine state, TRAPA #32 and a return with an untouched register file restore
    every register and resume at the trapping instruction, whatever the stub did to the machine
    in between; the file then holds the registers, and the entry wrote nothing but the file and
    five words of stack.
   */
  lemma TrapRoundTrip(c: Cpu, file: nat, vector: nat, stub: Cpu)
    requires Regs(c) && Apart(c.reg[15], file) && vector < WORD && |stub.reg| == 23
    requires FileKept(EnterTrap32(c, file, vector).mem, stub.mem, file)
    ensures Leave(stub, file).reg == c.reg
    ensures Holds(EnterTrap32(c, file, vector).mem, file, FileOf(c.reg))
    ensures Frame(c.mem, EnterTrap32(c, file, vector).mem, c.reg[15], file)
    ensures Frame(stub.mem, Leave(stub, file).mem, c.reg[15], file)
  {
    hide Run, SaveOps, Trap32Ops, Exception, FileOf, Leave, Holds, Entered, Saving, Regs;
    Trap32Entered(c, file, vector);
    var c1 := Run(Trap32Ops(), Exception(c, (R(c, PC) + 2) % WORD, vector));
    SaveFills(c.reg, c.mem, file, c1);
    Saved(c.reg, c.mem, file, Run(SaveOps(file), c1));
    KeptHolds(EnterTrap32(c, file, vector).mem, stub.mem, file, FileOf(c.reg));
    LeaveRestores(c.reg, stub, file);
  }

  /** The same for the other entries, which resume at the stacked address. */
  lemma OtherRoundTrip(c: Cpu, file: nat, back: nat, vector: nat, signal: nat, stub: Cpu)
    requires Regs(c) && Apart(c.reg[15], file) && vector < WORD && back < WORD && signal < WORD && |stub.reg| == 23
    requires FileKept(EnterOther(c, file, back, vector, signal).mem, stub.mem, file)
    ensures Leave(stub, file).reg == c.reg[PC := back]
    ensures Frame(c.mem, EnterOther(c, file, back, vector, signal).mem, c.reg[15], file)
  {
    hide Run, SaveOps, OtherOps, Exception, FileOf, Leave, Holds, Entered, Saving, Frame;
    OtherEntered(c, file, back, vector, signal);
    var o, c1 := c.reg[PC := back], Run(OtherOps(signal), Exception(c, back, vector));
    SaveFills(o, c.mem, file, c1);
    Saved(o, c.mem, file, Run(SaveOps(file), c1));
    KeptHolds(EnterOther(c, file, back, vector, signal).mem, stub.mem, file, FileOf(o));
    LeaveRestores(o, stub, file);
  }
}
