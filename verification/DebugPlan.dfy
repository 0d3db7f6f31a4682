/**
  The debug plans of sim/debug_plan.c and an interpreter of the SH-2 instructions they insert.
  Inserted instructions take effect in order and do not advance PC; an enabled data word
  replaces the Rm operand; the reply given to call j+6 is what request j wrote back.
 */
module DebugPlan {

  const WORD: nat := 0x1_0000_0000

  // enum registers
  const PC: nat := 16
  const PR: nat := 17
  const GBR: nat := 18
  const VBR: nat := 19
  const MACH: nat := 20
  const MACL: nat := 21
  const SR: nat := 22
  const NUM_REGS: nat := 23

  /** struct debug_request; every plan inserts instructions. */
  datatype Request = Request(instr: nat, dataEn: bool, data: nat)

  // ----- the machine -----

  /** All 23 registers in enum order, and memory by word address. */
  datatype Cpu = Cpu(reg: seq<nat>, mem: map<nat, nat>)

  ghost predicate CpuOk(c: Cpu) {
    |c.reg| == NUM_REGS && forall i :: 0 <= i < NUM_REGS ==> c.reg[i] < WORD
  }

  function Load(mem: map<nat, nat>, a: nat): nat { if a in mem then mem[a] else 0 }

  /** The machine after a request, and the word the instruction wrote back. */
  datatype Result = Result(cpu: Cpu, back: nat)

  function SetReg(c: Cpu, n: nat, v: nat): Result
    requires n < |c.reg|
  {
    Result(c.(reg := c.reg[n := v]), v)
  }

  /** STC and LDC number the control registers SR, GBR, VBR; STS and LDS number MACH, MACL, PR. */
  function Control(x: nat): nat { if x == 0 then SR else if x == 1 then GBR else VBR }
  function System(x: nat): nat { if x == 0 then MACH else if x == 1 then MACL else PR }

  /** Decodes by fields: 4-bit groups from the top. */
  function Exec(c: Cpu, q: Request): Result
    requires |c.reg| == NUM_REGS
  {
    var n, m, x, op, low := (q.instr / 256) % 16, (q.instr / 16) % 16, (q.instr / 16) % 16, q.instr / 4096,
        q.instr % 16;
    if op == 6 && low == 3 then SetReg(c, n, Operand(c, q, m))                     // MOV Rm,Rn
    else if op == 6 && low == 2 then SetReg(c, n, Load(c.mem, Operand(c, q, m)))   // MOV.L @Rm,Rn
    else if op == 2 && low == 6 then                                               // MOV.L Rm,@-Rn
      var a := (c.reg[n] + WORD - 4) % WORD;
      Result(Cpu(c.reg[n := a], c.mem[a := Operand(c, q, m)]), 0)
    else if op == 14 then SetReg(c, n, q.instr % 256)                              // MOV #imm,Rn
    else if op == 0 && low == 2 && x < 3 then SetReg(c, n, c.reg[Control(x)])      // STC
    else if op == 0 && low == 10 && x < 3 then SetReg(c, n, c.reg[System(x)])      // STS
    else if op == 4 && low == 14 && x < 3 then SetReg(c, Control(x), Operand(c, q, n))   // LDC
    else if op == 4 && low == 10 && x < 3 then SetReg(c, System(x), Operand(c, q, n))    // LDS
    else if op == 4 && low == 11 && x == 0 then                                    // JSR @Rm
      Result(c.(reg := c.reg[PR := c.reg[PC]][PC := Operand(c, q, n)]), c.reg[PC])
    else if q.instr == 0x000B then Result(c.(reg := c.reg[PC := c.reg[PR]]), 0)    // RTS
    else Result(c, 0)                                                              // NOP
  }

  function Operand(c: Cpu, q: Request, m: nat): nat
    requires m < |c.reg|
  {
    if q.dataEn then q.data else c.reg[m]
  }

  // ----- plans for all registers -----

  class RegsPlan {
    var i: nat
    const regs: array<nat>

    constructor (regs: array<nat>)
      ensures i == 0 && this.regs == regs
    {
      i := 0;
      this.regs := regs;
    }

    /** regs_read_next */
    method ReadNext(reply: nat) returns (more: bool, req: Request)
      requires regs.Length == NUM_REGS && i <= 36
      modifies this`i, regs
      ensures regs[..] == Captured(old(i), old(regs[..]), reply) && req == ReadRequest(old(i), regs[..])
      ensures more == (old(i) < 36) && i == if more then old(i) + 1 else old(i)
    {
      if 6 <= i < 22 {
        regs[i - 6] := reply;
      } else if i == 22 {
        regs[SR] := reply;
      } else if i == 23 {
        regs[GBR] := reply;
      } else if i == 24 {
        regs[VBR] := reply;
      } else if i == 25 {
        regs[MACH] := reply;
      } else if i == 26 {
        regs[MACL] := reply;
      } else if i == 27 {
        regs[PR] := reply;
      } else if i == 32 {
        regs[PC] := reply;
      }
      var instr, dataEn, data := 0x0009, false, 0;
      if i < 16 {
        instr := 0x6003 + i * 256 + i * 16;
      } else if i < 19 {
        instr := 0x0002 + (i - 16) * 16;
      } else if i < 22 {
        instr := 0x000A + (i - 19) * 16;
      } else if i < 25 {
      } else if i == 25 {
        instr := 0xE000;
      } else if i == 26 {
        instr := 0x400B;
      } else if i == 27 {
        instr := 0x002A;
      } else if i == 28 {
        instr := 0x000B;
      } else if i == 29 {
        instr, dataEn, data := 0x6003, true, regs[PR];
      } else if i == 30 {
        instr := 0x402A;
      } else if i == 31 {
        instr, dataEn, data := 0x6003, true, regs[0];
      }
      req := Request(instr, dataEn, data);
      if i == 36 {
        return false, req;
      }
      i := i + 1;
      more := true;
    }

    /** regs_write_next */
    method WriteNext() returns (more: bool, req: Request)
      requires regs.Length == NUM_REGS && i <= 26
      modifies this`i
      ensures req == WriteRequest(old(i), regs[..])
      ensures more == (old(i) < 26) && i == if more then old(i) + 1 else old(i)
    {
      req := Request(0x0009, false, 0);
      match i {
        case 0 => req := Request(0x402A, true, regs[PC]);
        case 1 => req := Request(0x000B, false, 0);
        case 2 => req := Request(0x0009, false, 0);
        case 3 => req := Request(0x400A, true, regs[MACH]);
        case 4 => req := Request(0x401A, true, regs[MACL]);
        case 5 => req := Request(0x402A, true, regs[PR]);
        case 6 => req := Request(0x400E, true, regs[SR]);
        case 7 => req := Request(0x401E, true, regs[GBR]);
        case 8 => req := Request(0x402E, true, regs[VBR]);
        case _ =>
      }
      if 9 <= i < 25 {
        var n := i - 9;
        req := Request(0x6003 + n * 256 + n * 16, true, regs[n]);
      }
      if i == 26 {
        return false, req;
      }
      i := i + 1;
      more := true;
    }
  }

  /** Where the reply to call i of the register-read plan goes; NUM_REGS is nowhere. */
  function CaptureSlot(i: nat): nat {
    if 6 <= i < 22 then i - 6
    else if i == 22 then SR else if i == 23 then GBR else if i == 24 then VBR
    else if i == 25 then MACH else if i == 26 then MACL else if i == 27 then PR
    else if i == 32 then PC else NUM_REGS
  }

  function Captured(i: nat, regs: seq<nat>, reply: nat): seq<nat> {
    if CaptureSlot(i) < |regs| then regs[CaptureSlot(i) := reply] else regs
  }

  function ReadRequest(i: nat, regs: seq<nat>): Request
    requires |regs| == NUM_REGS
  {
    if i < 16 then Request(0x6003 + i * 272, false, 0)
    else if i < 19 then Request(0x0002 + (i - 16) * 16, false, 0)
    else if i < 22 then Request(0x000A + (i - 19) * 16, false, 0)
    else if i == 25 then Request(0xE000, false, 0)
    else if i == 26 then Request(0x400B, false, 0)
    else if i == 27 then Request(0x002A, false, 0)
    else if i == 28 then Request(0x000B, false, 0)
    else if i == 29 then Request(0x6003, true, regs[PR])
    else if i == 30 then Request(0x402A, false, 0)
    else if i == 31 then Request(0x6003, true, regs[0])
    else Request(0x0009, false, 0)
  }

  function WriteRequest(i: nat, regs: seq<nat>): Request
    requires |regs| == NUM_REGS
  {
    if i == 0 then Request(0x402A, true, regs[PC])
    else if i == 1 then Request(0x000B, false, 0)
    else if i == 3 then Request(0x400A, true, regs[MACH])
    else if i == 4 then Request(0x401A, true, regs[MACL])
    else if i == 5 then Request(0x402A, true, regs[PR])
    else if i == 6 then Request(0x400E, true, regs[SR])
    else if i == 7 then Request(0x401E, true, regs[GBR])
    else if i == 8 then Request(0x402E, true, regs[VBR])
    else if 9 <= i < 25 then Request(0x6003 + (i - 9) * 272, true, regs[i - 9])
    else Request(0x0009, false, 0)
  }

  // ----- plans for memory -----

  class MemPlan {
    var i: nat
    var numWords: int
    var addr: nat
    const buf: array?<nat>
    var at: int            // where the buf pointer stands
    const r0: nat

    /** debug_plan_init_mem_read, and debug_plan_init_mem_write with write set. */
    constructor (addr: nat, numWords: nat, buf: array?<nat>, r0: nat, write: bool)
      ensures i == 0 && this.numWords == numWords && this.buf == buf && this.r0 == r0
      ensures write ==> this.addr == (addr + numWords * 4) % WORD && at == numWords - 1
      ensures !write ==> this.addr == addr % WORD && at == 0
    {
      i := 0;
      this.numWords := numWords;
      this.buf := buf;
      this.r0 := r0;
      this.addr := if write then (addr + numWords * 4) % WORD else addr % WORD;
      at := if write then numWords - 1 else 0;
    }

    /** mem_read_next */
    method ReadNext(reply: nat) returns (more: bool, req: Request)
      requires i >= 6 && buf != null ==> 0 <= at < buf.Length
      modifies this`i, this`numWords, this`addr, this`at, buf
      ensures req == if old(numWords) > 0 then Request(0x6012, true, old(addr))
                     else if old(numWords) == -2 then Request(0x6003, true, r0) else Request(0x0009, false, 0)
      ensures addr == if old(numWords) > 0 then (old(addr) + 4) % WORD else old(addr)
      ensures more == (old(numWords) != -5)
      ensures i == if more then old(i) + 1 else old(i)
      ensures numWords == if more then old(numWords) - 1 else old(numWords)
      ensures buf != null ==> at == (if old(i) >= 6 then old(at) + 1 else old(at)) &&
                              buf[..] == if old(i) >= 6 then old(buf[..])[old(at) := reply] else old(buf[..])
    {
      if i >= 6 {
        if buf != null {
          buf[at] := reply;
          at := at + 1;
        }
      }
      req := Request(0x0009, false, 0);
      if numWords > 0 {
        req := Request(0x6012, true, addr);
        addr := (addr + 4) % WORD;
      } else if numWords == -2 {
        req := Request(0x6003, true, r0);
      } else if numWords == -5 {
        return false, req;
      }
      i := i + 1;
      numWords := numWords - 1;
      more := true;
    }

    /** mem_write_next */
    method WriteNext() returns (more: bool, req: Request)
      requires i > 0 && numWords >= 0 ==> buf != null && 0 <= at < buf.Length
      modifies this`i, this`numWords, this`at
      ensures req == if old(i) == 0 then Request(0x6003, true, addr)
                     else if old(numWords) >= 0 then Request(0x2016, true, buf[old(at)])
                     else if old(numWords) == -1 then Request(0x6003, true, r0) else Request(0x0009, false, 0)
      ensures at == if old(i) > 0 && old(numWords) >= 0 then old(at) - 1 else old(at)
      ensures more == (old(i) == 0 || old(numWords) != -3)
      ensures more ==> i == old(i) + 1 && numWords == old(numWords) - 1
    {
      req := Request(0x0009, false, 0);
      if i == 0 {
        req := Request(0x6003, true, addr);
      } else if numWords >= 0 {
        req := Request(0x2016, true, buf[at]);
        at := at - 1;
      } else if numWords == -1 {
        req := Request(0x6003, true, r0);
      } else if numWords == -3 {
        return false, req;
      }
      i := i + 1;
      numWords := numWords - 1;
      more := true;
    }
  }
}
