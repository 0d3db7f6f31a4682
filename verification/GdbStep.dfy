/**
  Software single step of testrom/sh2.c: where the next instruction leads, the trap word planted
  there, and its removal when the monitor is entered again.
 */
module GdbStep {

  const STEP_OPCODE: bv16 := 0xC320

  /** Memory by halfword address. */
  datatype Addr = Addr(a: bv32)
  type Mem = map<Addr, bv16>

  function Half(m: Mem, a: bv32): bv16 { if Addr(a) in m then m[Addr(a)] else 0 }
  function Join(hi: bv16, lo: bv16): bv32 { ((hi as bv32) << 16) | (lo as bv32) }
  function Long(m: Mem, a: bv32): bv32 { Join(Half(m, a), Half(m, NextHalf(a))) }

  /** The next halfword. */
  function NextHalf(a: bv32): bv32 { a + 2 }

  /** The parts of the register file that decide where control goes. */
  datatype Regs = Regs(r: seq<bv32>, pc: bv32, pr: bv32, vbr: bv32, sr: bv32)

  function Gpr(g: Regs, n: bv16): bv32 { var i := n as nat; if i < |g.r| then g.r[i] else 0 }

  // ----- what the instructions do -----

  /** The instructions that change the flow of control. */
  datatype Instr =
    | CondBranch(onTrue: bool, slot: bool, disp: bv32)   // BT, BF, BT/S, BF/S
    | Branch(disp: bv32)                                 // BRA, BSR
    | BranchFar(n: bv16)                                 // BRAF, BSRF
    | Jump(n: bv16)                                      // JMP, JSR
    | Return                                             // RTS
    | ReturnFromException                                // RTE
    | Trap(imm: bv32)                                    // TRAPA
    | Plain

  /** Two's complement fields of 8 and 12 bits. */
  function Signed8(x: bv16): bv32 { (((x & 0xFF) as bv32) ^ 0x80) - 0x80 }
  function Signed12(x: bv16): bv32 { (((x & 0xFFF) as bv32) ^ 0x800) - 0x800 }

  /** The encoding, by 4-bit groups from the top. */
  function Decode(op: bv16): Instr {
    var a, b, c, d := op >> 12, (op >> 8) & 15, (op >> 4) & 15, op & 15;
    if a == 8 && (b == 9 || b == 11 || b == 13 || b == 15) then CondBranch(b == 9 || b == 13, b >= 13, Signed8(op))
    else if a == 10 || a == 11 then Branch(Signed12(op))
    else if a == 0 && (c == 0 || c == 2) && d == 3 then BranchFar(b)
    else if a == 4 && (c == 0 || c == 2) && d == 11 then Jump(b)
    else if a == 0 && b == 0 && c == 0 && d == 11 then Return
    else if a == 0 && b == 0 && c == 2 && d == 11 then ReturnFromException
    else if a == 12 && b == 3 then Trap((op & 0xFF) as bv32)
    else Plain
  }

  ghost predicate Taken(i: Instr, g: Regs) { i.CondBranch? && i.onTrue == (g.sr & 1 == 1) }

  /** Whether the instruction at PC+2 runs before control moves. */
  ghost predicate HasSlot(i: Instr, g: Regs) {
    match i
    case CondBranch(_, slot, _) => slot && Taken(i, g)
    case Trap(_) => false
    case Plain => false
    case _ => true
  }

  /** Displacements count from the second instruction after the branch. */
  function Ahead(pc: bv32, d: bv32): bv32 { pc + 4 + d }
  function Twice(x: bv32): bv32 { x + x }
  function Vector(vbr: bv32, n: bv32): bv32 { vbr + 4 * n }

  /** Where control is after the instruction and its delay slot. */
  ghost function Target(i: Instr, g: Regs, m: Mem): bv32 {
    match i
    case CondBranch(_, _, disp) => if Taken(i, g) then Ahead(g.pc, Twice(disp)) else g.pc + 2
    case Branch(disp) => Ahead(g.pc, Twice(disp))
    case BranchFar(n) => Ahead(g.pc, Gpr(g, n))
    case Jump(n) => Gpr(g, n)
    case Return => g.pr
    case ReturnFromException => Long(m, Gpr(g, 15))
    case Trap(imm) => Long(m, Vector(g.vbr, imm))
    case Plain => g.pc + 2
  }

  // ----- get_stepi_dest -----

  /** A short widened to an int, with its sign. */
  function Widen(op: bv16): bv32 { if op & 0x8000 != 0 then (op as bv32) | 0xFFFF0000 else op as bv32 }

  predicate IsBt(op: bv32) { op & 0xFF00 == 0x8900 }
  predicate IsBf(op: bv32) { op & 0xFF00 == 0x8B00 }
  predicate IsBts(op: bv32) { op & 0xFF00 == 0x8D00 }
  predicate IsBfs(op: bv32) { op & 0xFF00 == 0x8F00 }
  predicate IsBra(op: bv32) { op & 0xF000 == 0xA000 }
  predicate IsBsr(op: bv32) { op & 0xF000 == 0xB000 }
  predicate IsBraf(op: bv32) { op & 0xF0FF == 0x0023 }
  predicate IsBsrf(op: bv32) { op & 0xF0FF == 0x0003 }
  predicate IsJmp(op: bv32) { op & 0xF0FF == 0x402B }
  predicate IsJsr(op: bv32) { op & 0xF0FF == 0x400B }
  predicate IsRts(op: bv32) { op == 0xB }
  predicate IsRte(op: bv32) { op == 0x2B }
  predicate IsTrapa(op: bv32) { op & 0xFF00 == 0xC300 }

  function BtfDisp(op: bv32): bv32 { if op & 0x80 != 0 then (op | 0xFFFFFF80) << 1 else (op & 0x7F) << 1 }
  /** OPCODE_BRA_DISP and OPCODE_BSR_DISP */
  function BraDisp(op: bv32): bv32 { if op & 0x800 != 0 then (op | 0xFFFFF800) << 1 else (op & 0x7FF) << 1 }
  function BrafReg(op: bv32): bv16 { ((op & 0x0F00) >> 8) as bv16 }
  function RegField(op: bv32): bv16 { ((op >> 8) & 0xF) as bv16 }
  function TrapDisp(op: bv32): bv32 { op & 0x00FF }
  predicate TBit(sr: bv32) { sr & 1 != 0 }

  function StepDest(g: Regs, m: Mem): bv32 {
    var op := Widen(Half(m, g.pc));
    if ((IsBt(op) || IsBts(op)) && TBit(g.sr)) || ((IsBf(op) || IsBfs(op)) && !TBit(g.sr)) then Ahead(g.pc, BtfDisp(op))
    else if IsBra(op) then Ahead(g.pc, BraDisp(op))
    else if IsBraf(op) then Ahead(g.pc, Gpr(g, BrafReg(op)))
    else if IsBsr(op) then Ahead(g.pc, BraDisp(op))
    else if IsBsrf(op) then Ahead(g.pc, Gpr(g, RegField(op)))
    else if IsJmp(op) then Gpr(g, RegField(op))
    else if IsJsr(op) then Gpr(g, RegField(op))
    else if IsRts(op) then g.pr
    else if IsRte(op) then Long(m, Gpr(g, 15))
    else if IsTrapa(op) then Long(m, Vector(g.vbr, TrapDisp(op)))
    else g.pc + 2
  }

  // ----- the macros against the encoding -----

  lemma DispAgree(op: bv16)
    ensures BtfDisp(Widen(op)) == Twice(Signed8(op)) && BraDisp(Widen(op)) == Twice(Signed12(op))
  {
  }

  lemma FieldAgree(op: bv16)
    ensures BrafReg(Widen(op)) == RegField(Widen(op)) == (op >> 8) & 15 && TrapDisp(Widen(op)) == (op & 0xFF) as bv32
  {
  }

  lemma ConditionalAgree(op: bv16)
    ensures var w := Widen(op); var i := Decode(op);
            && (IsBt(w) || IsBts(w) <==> i.CondBranch? && i.onTrue)
            && (IsBf(w) || IsBfs(w) <==> i.CondBranch? && !i.onTrue)
            && (i.CondBranch? ==> i.disp == Signed8(op))
            && (i.CondBranch? ==> (i.slot <==> IsBts(w) || IsBfs(w)))
  {
    hide Signed8, Signed12;
  }

  lemma BranchAgree(op: bv16)
    ensures var w := Widen(op); var i := Decode(op);
            && (IsBra(w) || IsBsr(w) <==> i.Branch?) && (i.Branch? ==> i.disp == Signed12(op))
            && (IsBraf(w) || IsBsrf(w) <==> i.BranchFar?) && (i.BranchFar? ==> i.n == (op >> 8) & 15)
            && (IsJmp(w) || IsJsr(w) <==> i.Jump?) && (i.Jump? ==> i.n == (op >> 8) & 15)
  {
    hide Signed8, Signed12;
  }

  lemma ReturnAgree(op: bv16)
    ensures var w := Widen(op); var i := Decode(op);
            && (IsRts(w) <==> i.Return?) && (IsRte(w) <==> i.ReturnFromException?)
            && (IsTrapa(w) <==> i.Trap?) && (i.Trap? ==> i.imm == (op & 0xFF) as bv32)
  {
    hide Signed8, Signed12;
  }

  /** get_stepi_dest is where control goes, for every opcode and every register state. */
  lemma StepDestIsTarget(g: Regs, m: Mem)
    ensures StepDest(g, m) == Target(Decode(Half(m, g.pc)), g, m)
  {
    hide Widen, Decode, IsBt, IsBf, IsBts, IsBfs, IsBra, IsBsr, IsBraf, IsBsrf, IsJmp, IsJsr, IsRts, IsRte, IsTrapa;
    hide BtfDisp, BraDisp, BrafReg, RegField, TrapDisp, Signed8, Signed12, Gpr, Long, Half, Ahead, Twice, Vector;
    var op := Half(m, g.pc);
    DispAgree(op);
    FieldAgree(op);
    ConditionalAgree(op);
    BranchAgree(op);
    ReturnAgree(op);
    assert TBit(g.sr) <==> g.sr & 1 == 1;
  }

  // ----- the same as a table -----

  /** The last n bits of a word, with their sign. */
  function Disp8(op: bv16): bv32 {
    if op & 0x80 != 0 then ((op & 0xFF) as bv32) | 0xFFFF_FF00 else (op & 0xFF) as bv32
  }
  function Disp12(op: bv16): bv32 {
    if op & 0x800 != 0 then ((op & 0xFFF) as bv32) | 0xFFFF_F000 else (op & 0xFFF) as bv32
  }

  /** The word at a, of two halfwords. */
  ghost predicate Holds(m: Mem, a: bv32, x: bv32) {
    (x >> 16) as bv16 == Half(m, a) && (x & 0xFFFF) as bv16 == Half(m, a + 2)
  }

  /** Displacements are in words of two bytes, from the second instruction after the branch. */
  ghost predicate Displaced(pc: bv32, d: bv32, dest: bv32) { dest == pc + 4 + (d + d) }
  ghost predicate FarFrom(pc: bv32, x: bv32, dest: bv32) { dest == pc + 4 + x }

  /** BT, BT/S, BF, BF/S, BRA and BSR. */
  ghost predicate BranchRow(op: bv16, g: Regs, dest: bv32) {
    && (op & 0xFB00 == 0x8900 ==> if g.sr & 1 == 1 then Displaced(g.pc, Disp8(op), dest) else dest == g.pc + 2)
    && (op & 0xFB00 == 0x8B00 ==> if g.sr & 1 == 0 then Displaced(g.pc, Disp8(op), dest) else dest == g.pc + 2)
    && (op & 0xE000 == 0xA000 ==> Displaced(g.pc, Disp12(op), dest))
  }

  /** BRAF, BSRF, JMP, JSR and RTS. */
  ghost predicate RegisterRow(op: bv16, g: Regs, dest: bv32) {
    var n := (op >> 8) & 15;
    && (op & 0xF0DF == 0x0003 ==> FarFrom(g.pc, Gpr(g, n), dest))
    && (op & 0xF0DF == 0x400B ==> dest == Gpr(g, n))
    && (n as nat < |g.r| ==> Gpr(g, n) == g.r[n as nat])
    && (op == 0x000B ==> dest == g.pr)
  }

  /** Vector n is the word number n from the vector base on. */
  ghost predicate VectorHolds(m: Mem, vbr: bv32, n: bv32, x: bv32) { Holds(m, vbr + (n << 2), x) }

  /** RTE and TRAPA. */
  ghost predicate LoadRow(op: bv16, g: Regs, m: Mem, dest: bv32) {
    && (op == 0x002B && |g.r| == 16 ==> Holds(m, g.r[15], dest))
    && (op & 0xFF00 == 0xC300 ==> VectorHolds(m, g.vbr, (op & 0xFF) as bv32, dest))
  }

  predicate Branches(op: bv16) {
    || op & 0xF900 == 0x8900 || op & 0xE000 == 0xA000 || op & 0xF0DF == 0x0003 || op & 0xF0DF == 0x400B
    || op == 0x000B || op == 0x002B || op & 0xFF00 == 0xC300
  }

  /** Where get_stepi_dest points, for every opcode. */
  lemma StepDestTable(g: Regs, m: Mem)
    ensures var op, dest := Half(m, g.pc), StepDest(g, m);
            && BranchRow(op, g, dest) && RegisterRow(op, g, dest) && LoadRow(op, g, m, dest)
            && (!Branches(op) ==> dest == g.pc + 2)
  {
    StepDestIsTarget(g, m);
    hide StepDest, BranchRow, RegisterRow, LoadRow, Branches, Decode, Target, Half;
    BranchTable(Half(m, g.pc), g, m);
    RegisterTable(Half(m, g.pc), g, m);
    LoadTable(Half(m, g.pc), g, m);
    PlainTable(Half(m, g.pc), g, m);
  }

  lemma BranchTable(op: bv16, g: Regs, m: Mem)
    ensures BranchRow(op, g, Target(Decode(op), g, m))
  {
    BranchDecodes(op);
    Bit(g.sr);
    AheadTwice(g.pc, Disp8(op));
    AheadTwice(g.pc, Disp12(op));
    hide Half, Gpr, Long, Vector, Signed8, Signed12, Disp8, Disp12, Decode, Ahead, Twice, Displaced;
  }

  lemma Bit(sr: bv32)
    ensures sr & 1 == 0 <==> !(sr & 1 == 1)
  {
  }

  lemma AheadIs(pc: bv32, d: bv32)
    ensures FarFrom(pc, d, Ahead(pc, d))
  {
  }

  lemma AheadTwice(pc: bv32, d: bv32)
    ensures Displaced(pc, d, Ahead(pc, Twice(d)))
  {
    AheadIs(pc, d + d);
    assert Twice(d) == d + d;
    hide Ahead, Twice;
  }

  lemma BranchDecodes(op: bv16)
    ensures var i := Decode(op);
            && (op & 0xFB00 == 0x8900 ==> i.CondBranch? && i.onTrue && i.disp == Disp8(op))
            && (op & 0xFB00 == 0x8B00 ==> i.CondBranch? && !i.onTrue && i.disp == Disp8(op))
            && (op & 0xE000 == 0xA000 ==> i.Branch? && i.disp == Disp12(op))
  {
    assert Signed8(op) == Disp8(op) && Signed12(op) == Disp12(op);
    hide Signed8, Signed12, Disp8, Disp12;
  }

  lemma RegisterTable(op: bv16, g: Regs, m: Mem)
    ensures RegisterRow(op, g, Target(Decode(op), g, m))
  {
    hide Half, Long, Vector, Decode, Twice, Ahead, Gpr, FarFrom;
    RegisterDecodes(op);
    var n := (op >> 8) & 15;
    AheadIs(g.pc, Gpr(g, n));
    RegisterIs(g, n);
  }

  lemma RegisterIs(g: Regs, n: bv16)
    ensures n as nat < |g.r| ==> Gpr(g, n) == g.r[n as nat]
  {
  }

  lemma RegisterDecodes(op: bv16)
    ensures var i, n := Decode(op), (op >> 8) & 15;
            && (op & 0xF0DF == 0x0003 ==> i == BranchFar(n))
            && (op & 0xF0DF == 0x400B ==> i == Jump(n))
            && (op == 0x000B ==> i == Return)
  {
    hide Signed8, Signed12;
  }

  lemma LoadTable(op: bv16, g: Regs, m: Mem)
    ensures LoadRow(op, g, m, Target(Decode(op), g, m))
  {
    hide Half, Signed8, Signed12, Holds, VectorHolds, Vector, Long, Target, Decode, Gpr;
    LoadDecodes(op);
    ReturnTarget(g, m);
    TrapTarget(g, m, (op & 0xFF) as bv32);
  }

  lemma ReturnTarget(g: Regs, m: Mem)
    ensures |g.r| == 16 ==> Holds(m, g.r[15], Target(ReturnFromException, g, m))
  {
    hide Half, Holds, Vector, Long, Ahead, Twice;
    LongHolds(m, Gpr(g, 15));
  }

  lemma TrapTarget(g: Regs, m: Mem, n: bv32)
    ensures VectorHolds(m, g.vbr, n, Target(Trap(n), g, m))
  {
    hide Half, Holds, VectorHolds, Vector, Long, Ahead, Twice;
    LongHolds(m, Vector(g.vbr, n));
    AtVector(m, g.vbr, n, Long(m, Vector(g.vbr, n)));
  }

  lemma AtVector(m: Mem, vbr: bv32, n: bv32, x: bv32)
    requires Holds(m, Vector(vbr, n), x)
    ensures VectorHolds(m, vbr, n, x)
  {
    hide Half, Holds;
  }

  lemma LoadDecodes(op: bv16)
    ensures op == 0x002B ==> Decode(op) == ReturnFromException
    ensures op & 0xFF00 == 0xC300 ==> Decode(op) == Trap((op & 0xFF) as bv32)
  {
    hide Signed8, Signed12;
  }

  lemma VectorIs(vbr: bv32, n: bv32)
    ensures Vector(vbr, n) == vbr + (n << 2)
  {
  }

  lemma LongHolds(m: Mem, a: bv32)
    ensures Holds(m, a, Long(m, a))
  {
    hide Half;
  }

  lemma PlainTable(op: bv16, g: Regs, m: Mem)
    ensures !Branches(op) ==> Target(Decode(op), g, m) == g.pc + 2
  {
    hide Signed8, Signed12;
  }

  // ----- one step -----

  function Plant(m: Mem, dest: bv32): Mem { m[Addr(dest) := STEP_OPCODE] }

  /** What entering the monitor at pc does to memory, with the saved opcode. */
  function Undo(m: Mem, pc: bv32, saved: bv16): Mem { if saved != 0 then m[Addr(pc) := saved] else m }

  ghost predicate Same(m: Mem, m': Mem) { forall a {:trigger Half(m', a)} :: Half(m', a) == Half(m, a) }

  /** The words the step fetches: the instruction, and its delay slot if it has one. */
  datatype Fetch = Single(op: bv16) | WithSlot(op: bv16, slot: bv16)

  ghost function Fetched(m: Mem, g: Regs): Fetch {
    var op := Half(m, g.pc);
    if HasSlot(Decode(op), g) then WithSlot(op, Half(m, NextHalf(g.pc))) else Single(op)
  }

  /** The address of the word from which the instruction loads its target, if it does. */
  ghost function TargetWord(i: Instr, g: Regs): set<Addr> {
    match i
    case ReturnFromException => {Addr(Gpr(g, 15)), Addr(NextHalf(Gpr(g, 15)))}
    case Trap(imm) => {Addr(Vector(g.vbr, imm)), Addr(NextHalf(Vector(g.vbr, imm)))}
    case _ => {}
  }

  /** The stepped instruction or its delay slot is at dest. */
  ghost predicate Fetches(g: Regs, m: Mem, dest: bv32) {
    dest == g.pc || (HasSlot(Decode(Half(m, g.pc)), g) && dest == NextHalf(g.pc))
  }

  /** With the trap word in place the program fetches what it would have fetched, exactly when the
      destination is neither the stepped instruction nor its delay slot, or held the trap before. */
  lemma FetchesSame(g: Regs, m: Mem, dest: bv32)
    ensures Fetched(Plant(m, dest), g) == Fetched(m, g) <==> Half(m, dest) == STEP_OPCODE || !Fetches(g, m, dest)
  {
    hide Decode, HasSlot, Half, Plant, NextHalf;
    HalfPlant(m, dest, g.pc);
    HalfPlant(m, dest, NextHalf(g.pc));
  }

  lemma HalfPlant(m: Mem, dest: bv32, a: bv32)
    ensures Half(Plant(m, dest), a) == if a == dest then STEP_OPCODE else Half(m, a)
  {
  }

  /** The halfwords at these addresses are the same in both memories. */
  ghost predicate Agree(m: Mem, m': Mem, loads: set<Addr>) { forall x :: x in loads ==> Half(m', x.a) == Half(m, x.a) }

  /** With the trap word in place the program loads what it would have loaded, exactly when it does not
      load from the destination, or that held the trap before. */
  lemma LoadsSame(m: Mem, dest: bv32, loads: set<Addr>)
    ensures Agree(m, Plant(m, dest), loads) <==> Half(m, dest) == STEP_OPCODE || Addr(dest) !in loads
  {
    hide Half, Plant;
    forall x | x in loads
      ensures Half(Plant(m, dest), x.a) == if x.a == dest then STEP_OPCODE else Half(m, x.a)
    {
      HalfPlant(m, dest, x.a);
    }
    if Addr(dest) in loads { assert Addr(dest).a == dest; }
  }

  lemma LongPlant(m: Mem, dest: bv32, a: bv32)
    requires Half(m, dest) == STEP_OPCODE || (dest != a && dest != NextHalf(a))
    ensures Long(Plant(m, dest), a) == Long(m, a)
  {
    hide Half, Plant, Join, NextHalf;
    HalfPlant(m, dest, a);
    HalfPlant(m, dest, NextHalf(a));
  }

  lemma TargetSame(g: Regs, m: Mem, dest: bv32)
    requires Half(m, dest) == STEP_OPCODE || Addr(dest) !in TargetWord(Decode(Half(m, g.pc)), g)
    ensures Target(Decode(Half(m, g.pc)), g, Plant(m, dest)) == Target(Decode(Half(m, g.pc)), g, m)
  {
    hide Decode, Gpr, Vector, Ahead, Twice, Taken, Half, Plant, Long, NextHalf;
    var i := Decode(Half(m, g.pc));
    match i
    case ReturnFromException => LongPlant(m, dest, Gpr(g, 15));
    case Trap(imm) => LongPlant(m, dest, Vector(g.vbr, imm));
    case _ =>
  }

  /** When entering the monitor at pc undoes the step: w is what the program has stored meanwhile. */
  ghost predicate Undoes(m: Mem, w: Mem, dest: bv32, pc: bv32) {
    var op := Half(m, dest);
    if Addr(dest) in w then op == 0 || Half(m + w, pc) == op
    else op != 0 && (pc == dest || (op == STEP_OPCODE && Half(m + w, pc) == op))
  }

  /**
    Entering the monitor at pc leaves memory as the program made it exactly in these cases: the
    trap word still stands, the opcode there was not zero, and the monitor is entered at the
    destination, or both places hold the trap anyway; or the program has overwritten the trap
    word, and the opcode was zero or is what pc holds.
   */
  lemma StepUndone(m: Mem, w: Mem, dest: bv32, pc: bv32)
    ensures Same(m + w, Undo(Plant(m, dest) + w, pc, Half(m, dest))) <==> Undoes(m, w, dest, pc)
  {
    hide Half, Undo, Plant;
    var op := Half(m, dest);
    var v, p := m + w, Plant(m, dest) + w;
    var u := Undo(p, pc, op);
    forall a: bv32
      ensures Half(u, a) == if op != 0 && a == pc then op else Half(p, a)
      ensures Half(p, a) == if a == dest && Addr(dest) !in w then STEP_OPCODE else Half(v, a)
    {
      UndoneAt(p, pc, op, a);
      PlantedAt(m, w, dest, a);
    }
    OriginalAt(m, w, dest);
    if Undoes(m, w, dest, pc) {
      forall a: bv32
        ensures Half(u, a) == Half(v, a)
      {
      }
    } else if Addr(dest) in w {
      assert Half(u, pc) != Half(v, pc);
    } else if op == STEP_OPCODE {
      assert Half(u, pc) != Half(v, pc);
    } else {
      assert Half(u, dest) != Half(v, dest);
    }
  }

  lemma UndoneAt(p: Mem, pc: bv32, op: bv16, a: bv32)
    ensures Half(Undo(p, pc, op), a) == if op != 0 && a == pc then op else Half(p, a)
  {
  }

  lemma PlantedAt(m: Mem, w: Mem, dest: bv32, a: bv32)
    ensures Half(Plant(m, dest) + w, a) == if a == dest && Addr(dest) !in w then STEP_OPCODE else Half(m + w, a)
  {
  }

  lemma OriginalAt(m: Mem, w: Mem, dest: bv32)
    ensures Addr(dest) !in w ==> Half(m + w, dest) == Half(m, dest)
  {
  }

  lemma SameInstruction(g: Regs, m: Mem, dest: bv32)
    requires Fetched(Plant(m, dest), g) == Fetched(m, g)
    ensures Half(Plant(m, dest), g.pc) == Half(m, g.pc)
  {
    hide Decode, HasSlot, Half, Plant;
    assert Fetched(m, g).op == Half(m, g.pc);
    assert Fetched(Plant(m, dest), g).op == Half(Plant(m, dest), g.pc);
  }

  lemma TrapWord()
    ensures Decode(STEP_OPCODE) == Trap(32)
  {
  }

  /**
    One whole step: the program fetches and branches as it would have, loads what it would have
    loaded, reaches the destination, meets the trap there, and the monitor leaves memory as the
    program made it.  `loads` are the halfwords that the instruction and its slot load.  A
    destination that holds the trap already may be anywhere.
   */
  lemma OneStep(g: Regs, m: Mem, w: Mem, loads: set<Addr>)
    requires var d := StepDest(g, m); var i := Decode(Half(m, g.pc));
             && Half(m, d) != 0 && Addr(d) !in w
             && (Half(m, d) == STEP_OPCODE || (!Fetches(g, m, d) && Addr(d) !in TargetWord(i, g) && Addr(d) !in loads))
    ensures var d := StepDest(g, m); var p := Plant(m, d);
            && Fetched(p, g) == Fetched(m, g) && Agree(m, p, loads)
            && Target(Decode(Half(p, g.pc)), g, p) == d
            && Decode(Half(p + w, d)) == Trap(32)
            && Same(m + w, Undo(p + w, d, Half(m, d)))
  {
    hide Decode, Target, StepDest, Fetched, Fetches, HasSlot, TargetWord, Half, Plant, Undo, Same, Agree;
    var d := StepDest(g, m);
    StepDestIsTarget(g, m);
    FetchesSame(g, m, d);
    TargetSame(g, m, d);
    LoadsSame(m, d, loads);
    SameInstruction(g, m, d);
    TrapWord();
    PlantedAt(m, w, d, d);
    StepUndone(m, w, d, d);
  }

  // ----- the program -----

  class Stub {
    var mem: Mem
    var file: Regs
    var steppedOpcode: bv16

    constructor (mem: Mem, file: Regs)
      ensures this.mem == mem && this.file == file && steppedOpcode == 0
    {
      this.mem, this.file, steppedOpcode := mem, file, 0;
    }

    /** get_stepi_dest */
    method GetStepiDest() returns (dest: bv32)
      ensures dest == Target(Decode(Half(mem, file.pc)), file, mem)
    {
      hide Target, Decode, StepDest;
      StepDestIsTarget(file, mem);
      dest := StepDest(file, mem);
    }

    /** gdb_step: addr zero means "from where we are".  One word changes, at the target. */
    method Step(addr: bv32) returns (ghost dest: bv32)
      modifies this
      ensures file == old(file).(pc := if addr != 0 then addr else old(file.pc))
      ensures dest == Target(Decode(Half(old(mem), file.pc)), file, old(mem))
      ensures mem == Plant(old(mem), dest) && steppedOpcode == Half(old(mem), dest)
    {
      hide Target, Decode;
      if addr != 0 {
        file := file.(pc := addr);
      }
      var d := GetStepiDest();
      steppedOpcode := Half(mem, d);
      mem := mem[Addr(d) := STEP_OPCODE];
      dest := d;
    }

    /** gdb_monitor_onentry */
    method OnEntry()
      modifies this`mem, this`steppedOpcode
      ensures mem == Undo(old(mem), file.pc, old(steppedOpcode)) && steppedOpcode == 0
    {
      if steppedOpcode != 0 {
        mem := mem[Addr(file.pc) := steppedOpcode];
        steppedOpcode := 0;
      }
    }
  }
}
