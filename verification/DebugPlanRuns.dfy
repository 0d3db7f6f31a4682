/**
  Running the debug plans against the interpreter: how many requests they make, what they
  capture or store, and what they leave unchanged.
 */
module DebugPlanRuns {
  import opened DebugPlan

  // ----- register read -----

  /** The machine after the first i requests of the register-read plan. */
  ghost function ReadState(c: Cpu, i: nat): Cpu
    requires |c.reg| == NUM_REGS
  {
    if i <= 16 then c
    else if i <= 19 then c.(reg := c.reg[0 := c.reg[Control(i - 17)]])
    else if i <= 22 then c.(reg := c.reg[0 := c.reg[System(i - 20)]])
    else if i <= 25 then c.(reg := c.reg[0 := c.reg[PR]])
    else if i == 26 then c.(reg := c.reg[0 := 0])
    else if i == 27 then c.(reg := c.reg[0 := 0][PR := c.reg[PC]][PC := 0])
    else if i == 28 then c.(reg := c.reg[0 := c.reg[PC]][PR := c.reg[PC]][PC := 0])
    else if i == 29 then c.(reg := c.reg[0 := c.reg[PC]][PR := c.reg[PC]])
    else if i == 30 then c.(reg := c.reg[0 := c.reg[PR]][PR := c.reg[PC]])
    else if i == 31 then c.(reg := c.reg[0 := c.reg[PR]])
    else c
  }

  /** What request i < 22 writes back. */
  ghost function ReadBack(c: Cpu, i: nat): nat
    requires |c.reg| == NUM_REGS && i < 22
  {
    if i < 16 then c.reg[i] else if i < 19 then c.reg[Control(i - 16)] else c.reg[System(i - 19)]
  }

  // ----- what the inserted instructions do -----

  lemma ExecMov(c: Cpu, i: nat, en: bool, d: nat)
    requires |c.reg| == NUM_REGS && i < 16
    ensures Exec(c, Request(0x6003 + i * 272, en, d)) == SetReg(c, i, if en then d else c.reg[i])
  {
    var w := 0x6003 + i * 272;
    assert w / 256 == 96 + i && w / 4096 == 6;
    assert w / 16 == 0x600 + i * 17 && (0x600 + i * 17) % 16 == i && w % 16 == 3;
  }

  /** STC and STS to R0, LDC and LDS from R0. */
  lemma ExecControl(c: Cpu, x: nat, en: bool, d: nat)
    requires |c.reg| == NUM_REGS && x < 3
    ensures Exec(c, Request(0x0002 + x * 16, false, 0)) == SetReg(c, 0, c.reg[Control(x)])
    ensures Exec(c, Request(0x000A + x * 16, false, 0)) == SetReg(c, 0, c.reg[System(x)])
    ensures Exec(c, Request(0x400E + x * 16, en, d)) == SetReg(c, Control(x), if en then d else c.reg[0])
    ensures Exec(c, Request(0x400A + x * 16, en, d)) == SetReg(c, System(x), if en then d else c.reg[0])
  {
    assert x == 0 || x == 1 || x == 2;
  }

  lemma ExecOther(c: Cpu)
    requires |c.reg| == NUM_REGS
    ensures Exec(c, Request(0x0009, false, 0)) == Result(c, 0)
    ensures Exec(c, Request(0xE000, false, 0)) == SetReg(c, 0, 0)
    ensures Exec(c, Request(0x400B, false, 0)).cpu == c.(reg := c.reg[PR := c.reg[PC]][PC := c.reg[0]])
    ensures Exec(c, Request(0x000B, false, 0)).cpu == c.(reg := c.reg[PC := c.reg[PR]])
  {
  }

  /** One request of the register-read plan, once the registers it needs are captured. */
  lemma ReadStep(c: Cpu, i: nat, regs: seq<nat>)
    requires |c.reg| == NUM_REGS && i <= 36 && |regs| == NUM_REGS
    requires i == 29 ==> regs[PR] == c.reg[PR]
    requires i == 31 ==> regs[0] == c.reg[0]
    ensures var r := Exec(ReadState(c, i), ReadRequest(i, regs));
            r.cpu == ReadState(c, i + 1) && (i < 22 ==> r.back == ReadBack(c, i))
  {
    if i < 22 {
      ReadStepCapture(c, i, regs);
    } else {
      ReadStepRestore(c, i, regs);
    }
  }

  lemma ReadStepCapture(c: Cpu, i: nat, regs: seq<nat>)
    requires |c.reg| == NUM_REGS && i < 22 && |regs| == NUM_REGS
    ensures var r := Exec(ReadState(c, i), ReadRequest(i, regs));
            r.cpu == ReadState(c, i + 1) && r.back == ReadBack(c, i)
  {
    hide Exec;
    if i < 16 {
      ExecMov(c, i, false, 0);
      assert c.reg[i := c.reg[i]] == c.reg;
    } else {
      ExecControl(ReadState(c, i), if i < 19 then i - 16 else i - 19, false, 0);
    }
  }

  lemma ReadStepRestore(c: Cpu, i: nat, regs: seq<nat>)
    requires |c.reg| == NUM_REGS && 22 <= i <= 36 && |regs| == NUM_REGS
    requires i == 29 ==> regs[PR] == c.reg[PR]
    requires i == 31 ==> regs[0] == c.reg[0]
    ensures Exec(ReadState(c, i), ReadRequest(i, regs)).cpu == ReadState(c, i + 1)
  {
    hide Exec;
    var s, q := ReadState(c, i), ReadRequest(i, regs);
    ExecOther(s);
    ExecControl(s, 2, false, 0);
    ExecMov(s, 0, true, q.data);
    if i == 26 || i == 28 {
      assert Exec(s, q).cpu.reg == ReadState(c, i + 1).reg;
    } else if i == 27 || i == 29 || i == 30 || i == 31 {
      assert Exec(s, q).cpu.reg == ReadState(c, i + 1).reg;
    }
  }

  /**
    The register-read plan: 37 requests, every register except PC captured in its place, and
    the machine exactly as it was.  `junk` are the replies to the first six calls.
   */
  method RunRegsRead(cpu: Cpu, regs: array<nat>, junk: nat -> nat) returns (cpu': Cpu, calls: nat)
    requires CpuOk(cpu) && regs.Length == NUM_REGS
    modifies regs
    ensures cpu' == cpu && calls == 37
    ensures forall n :: 0 <= n < NUM_REGS && n != PC ==> regs[n] == cpu.reg[n]
  {
    var plan := new RegsPlan(regs);
    var backs: seq<nat> := [];
    cpu', calls := cpu, 0;
    var more := true;
    while more
      invariant plan.regs == regs && fresh(plan) && |backs| == calls <= 37 && more == (calls < 37)
      invariant plan.i == if more then calls else 36
      invariant cpu' == ReadState(cpu, calls)
      invariant forall k :: 0 <= k < calls && k < 22 ==> backs[k] == ReadBack(cpu, k)
      invariant forall j :: 6 <= j < calls && j < 28 ==> regs[CaptureSlot(j)] == cpu.reg[CaptureSlot(j)]
      decreases 37 - calls
    {
      hide Exec, ReadState, CaptureSlot;
      var reply := if calls >= 6 then backs[calls - 6] else junk(calls);
      CaptureIsBack(cpu, calls);
      ghost var before := regs[..];
      assert forall j :: 6 <= j < calls && j < 28 ==> before[CaptureSlot(j)] == cpu.reg[CaptureSlot(j)];
      var req;
      more, req := plan.ReadNext(reply);
      CapturedStep(cpu, calls, before, regs[..], reply);
      ReadStep(cpu, calls, regs[..]);
      var r := Exec(cpu', req);
      cpu', backs, calls := r.cpu, backs + [r.back], calls + 1;
    }
    forall n | 0 <= n < NUM_REGS && n != PC
      ensures regs[n] == cpu.reg[n]
    {
      var j := ReadAt(n);
    }
  }

  lemma CaptureIsBack(c: Cpu, i: nat)
    requires |c.reg| == NUM_REGS
    ensures 6 <= i < 28 ==> CaptureSlot(i) < NUM_REGS && c.reg[CaptureSlot(i)] == ReadBack(c, i - 6)
  {
  }

  lemma CapturedStep(c: Cpu, i: nat, before: seq<nat>, after: seq<nat>, reply: nat)
    requires |c.reg| == NUM_REGS == |before| && after == Captured(i, before, reply) && i <= 36
    requires forall j :: 6 <= j < i && j < 28 ==> before[CaptureSlot(j)] == c.reg[CaptureSlot(j)]
    requires 6 <= i < 28 ==> reply == c.reg[CaptureSlot(i)]
    ensures forall j :: 6 <= j <= i && j < 28 ==> after[CaptureSlot(j)] == c.reg[CaptureSlot(j)]
    ensures i == 29 ==> after[PR] == c.reg[PR]
    ensures i == 31 ==> after[0] == c.reg[0]
  {
    assert CaptureSlot(27) == PR && CaptureSlot(6) == 0;
    forall j | 6 <= j <= i && j < 28
      ensures after[CaptureSlot(j)] == c.reg[CaptureSlot(j)]
    {
    }
  }

  /** The call that captures register n. */
  lemma ReadAt(n: nat) returns (j: nat)
    requires n < NUM_REGS && n != PC
    ensures 6 <= j < 28 && CaptureSlot(j) == n
  {
    j := if n < 16 then n + 6 else if n == SR then 22 else if n == GBR then 23 else if n == VBR then 24
         else if n == MACH then 25 else if n == MACL then 26 else 27;
  }

  // ----- register write -----

  /** Which registers already have their new value after i requests of the register-write plan. */
  ghost predicate HasWritten(i: nat, n: nat) {
    || (n == PC && i >= 2) || (n == MACH && i >= 4) || (n == MACL && i >= 5) || (n == PR && i >= 6)
    || (n == SR && i >= 7) || (n == GBR && i >= 8) || (n == VBR && i >= 9) || (n < 16 && n + 9 < i)
  }

  lemma WriteStep(c: Cpu, i: nat, regs: seq<nat>)
    requires |c.reg| == NUM_REGS && i <= 26 && |regs| == NUM_REGS
    requires forall n :: 0 <= n < NUM_REGS && HasWritten(i, n) ==> c.reg[n] == regs[n]
    requires i == 1 ==> c.reg[PR] == regs[PC]
    ensures var c' := Exec(c, WriteRequest(i, regs)).cpu;
            && |c'.reg| == NUM_REGS && c'.mem == c.mem
            && (forall n :: 0 <= n < NUM_REGS && HasWritten(i + 1, n) ==> c'.reg[n] == regs[n])
            && (i == 0 ==> c'.reg[PR] == regs[PC])
  {
    hide Exec;
    var q := WriteRequest(i, regs);
    if i <= 2 || i >= 25 {
      ExecOther(c);
      ExecControl(c, 2, true, q.data);
    } else if i < 6 {
      ExecControl(c, i - 3, true, q.data);
    } else if i < 9 {
      ExecControl(c, i - 6, true, q.data);
    } else {
      ExecMov(c, i - 9, true, q.data);
    }
  }

  /** The register-write plan: 27 requests make all 23 registers equal to the array. */
  method RunRegsWrite(cpu: Cpu, regs: array<nat>) returns (cpu': Cpu, calls: nat)
    requires CpuOk(cpu) && regs.Length == NUM_REGS
    ensures calls == 27 && cpu' == cpu.(reg := regs[..])
  {
    var plan := new RegsPlan(regs);
    cpu', calls := cpu, 0;
    var more := true;
    while more
      invariant plan.regs == regs && fresh(plan) && calls <= 27 && more == (calls < 27)
      invariant plan.i == if more then calls else 26
      invariant |cpu'.reg| == NUM_REGS && cpu'.mem == cpu.mem
      invariant forall n :: 0 <= n < NUM_REGS && HasWritten(calls, n) ==> cpu'.reg[n] == regs[n]
      invariant calls == 1 ==> cpu'.reg[PR] == regs[PC]
      decreases 27 - calls
    {
      var req;
      more, req := plan.WriteNext();
      WriteStep(cpu', calls, regs[..]);
      cpu' := Exec(cpu', req).cpu;
      calls := calls + 1;
    }
    assert forall n :: 0 <= n < NUM_REGS ==> HasWritten(27, n);
    assert cpu'.reg == regs[..];
  }

  /** Writing back what was read restores the registers, whatever happened to them in between. */
  method ReadThenWrite(cpu: Cpu, later: Cpu, junk: nat -> nat) returns (restored: Cpu)
    requires CpuOk(cpu) && CpuOk(later)
    ensures forall n :: 0 <= n < NUM_REGS && n != PC ==> n < |restored.reg| && restored.reg[n] == cpu.reg[n]
    ensures restored.mem == later.mem
  {
    var regs := new nat[NUM_REGS](_ => 0);
    var same, n := RunRegsRead(cpu, regs, junk);
    restored, n := RunRegsWrite(later, regs);
  }

  // ----- memory write -----

  lemma ExecMemory(c: Cpu, d: nat)
    requires |c.reg| == NUM_REGS
    ensures Exec(c, Request(0x6012, true, d)) == SetReg(c, 0, Load(c.mem, d))
    ensures var a := (c.reg[0] + WORD - 4) % WORD;
            Exec(c, Request(0x2016, true, d)).cpu == Cpu(c.reg[0 := a], c.mem[a := d])
  {
  }

  /** The address of word k of a block at addr. */
  function WordAt(addr: nat, k: nat): nat { (addr + 4 * k) % WORD }

  /** Addresses wrap at 2^32; a block of at most 2^30 words does not meet itself. */
  lemma WordsApart(addr: nat, j: nat, k: nat)
    requires j < k < j + 0x4000_0000
    ensures WordAt(addr, j) != WordAt(addr, k)
  {
    var a, d := addr + 4 * j, 4 * (k - j);
    assert 0 < d < WORD;
    if (a + d) % WORD == a % WORD {
      DifferBy(a, d);
    }
  }

  lemma DifferBy(a: nat, d: nat)
    requires 0 < d < WORD
    ensures (a + d) % WORD != a % WORD
  {
    var r := a % WORD;
    assert (a + d) % WORD == (r + d) % WORD;
    if r + d < WORD {
      assert (r + d) % WORD == r + d;
    } else {
      assert (r + d) % WORD == r + d - WORD;
    }
  }

  lemma StepDown(addr: nat, k: nat)
    requires k > 0
    ensures (WordAt(addr, k) + WORD - 4) % WORD == WordAt(addr, k - 1)
  {
    var b := addr + 4 * (k - 1);
    assert WordAt(addr, k) == (b + 4) % WORD;
    var r := b % WORD;
    assert (b + 4) % WORD == (r + 4) % WORD;
  }

  /** In mem' the words from..n of the block are those of buf, and everything else is as in mem. */
  ghost predicate Stored(mem: map<nat, nat>, mem': map<nat, nat>, addr: nat, buf: seq<nat>, from: nat) {
    && from <= |buf|
    && (forall k :: from <= k < |buf| ==> Load(mem', WordAt(addr, k)) == buf[k])
    && (forall a :: (forall k :: from <= k < |buf| ==> a != WordAt(addr, k)) ==> Load(mem', a) == Load(mem, a))
  }

  lemma StoreOne(mem: map<nat, nat>, mem': map<nat, nat>, addr: nat, buf: seq<nat>, from: nat)
    requires Stored(mem, mem', addr, buf, from) && 0 < from && |buf| <= 0x4000_0000
    ensures Stored(mem, mem'[WordAt(addr, from - 1) := buf[from - 1]], addr, buf, from - 1)
  {
    var a, m := WordAt(addr, from - 1), mem'[WordAt(addr, from - 1) := buf[from - 1]];
    forall k | from - 1 <= k < |buf|
      ensures Load(m, WordAt(addr, k)) == buf[k]
    {
      if k > from - 1 { WordsApart(addr, from - 1, k); }
    }
    forall b | forall k :: from - 1 <= k < |buf| ==> b != WordAt(addr, k)
      ensures Load(m, b) == Load(mem, b)
    {
      assert b != WordAt(addr, from - 1);
    }
  }

  /** Where the memory-write plan stands after i requests. */
  ghost predicate Writing(cpu: Cpu, cpu': Cpu, addr: nat, buf: seq<nat>, i: nat) {
    && |cpu.reg| == NUM_REGS
    && (i == 0 ==> cpu' == cpu)
    && (1 <= i <= |buf| + 1 ==>
          cpu'.reg == cpu.reg[0 := WordAt(addr, |buf| + 1 - i)] && Stored(cpu.mem, cpu'.mem, addr, buf, |buf| + 1 - i))
    && (i > |buf| + 1 ==> cpu'.reg == cpu.reg && Stored(cpu.mem, cpu'.mem, addr, buf, 0))
  }

  /** Request i of the memory-write plan. */
  ghost function StoreRequest(addr: nat, buf: seq<nat>, r0: nat, i: nat): Request {
    if i == 0 then Request(0x6003, true, WordAt(addr, |buf|))
    else if i <= |buf| then Request(0x2016, true, buf[|buf| - i])
    else if i == |buf| + 1 then Request(0x6003, true, r0) else Request(0x0009, false, 0)
  }

  lemma StoreStep(cpu: Cpu, cpu': Cpu, addr: nat, buf: seq<nat>, i: nat)
    requires Writing(cpu, cpu', addr, buf, i) && 1 <= i <= |buf| <= 0x4000_0000
    ensures |cpu'.reg| == NUM_REGS
    ensures Writing(cpu, Exec(cpu', StoreRequest(addr, buf, cpu.reg[0], i)).cpu, addr, buf, i + 1)
  {
    hide Exec, Stored, WordAt;
    var left := |buf| + 1 - i;
    ExecMemory(cpu', buf[|buf| - i]);
    StepDown(addr, left);
    StoreOne(cpu.mem, cpu'.mem, addr, buf, left);
  }

  lemma OtherStep(cpu: Cpu, cpu': Cpu, addr: nat, buf: seq<nat>, i: nat)
    requires Writing(cpu, cpu', addr, buf, i) && (i == 0 || i > |buf|)
    ensures |cpu'.reg| == NUM_REGS
    ensures Writing(cpu, Exec(cpu', StoreRequest(addr, buf, cpu.reg[0], i)).cpu, addr, buf, i + 1)
  {
    hide Exec, WordAt;
    ExecMov(cpu', 0, true, StoreRequest(addr, buf, cpu.reg[0], i).data);
    ExecOther(cpu');
    if i == |buf| + 1 {
      assert cpu'.reg[0 := cpu.reg[0]] == cpu.reg;
    }
  }

  /**
    The memory-write plan: N + 4 requests store exactly the N words of the buffer at addr and
    leave the registers as they were, given the true value of R0.
   */
  method RunMemWrite(cpu: Cpu, addr: nat, buf: array<nat>) returns (cpu': Cpu, calls: nat)
    requires CpuOk(cpu) && buf.Length <= 0x4000_0000
    ensures calls == buf.Length + 4 && cpu'.reg == cpu.reg
    ensures Stored(cpu.mem, cpu'.mem, addr, buf[..], 0)
  {
    var n := buf.Length;
    var plan := new MemPlan(addr, n, buf, cpu.reg[0], true);
    cpu', calls := cpu, 0;
    var more := true;
    while more
      invariant fresh(plan) && plan.buf == buf && plan.r0 == cpu.reg[0] && calls <= n + 4 && more == (calls < n + 4)
      invariant more ==> plan.i == calls && plan.numWords == n - calls
      invariant plan.addr == WordAt(addr, n)
      invariant plan.at == if calls == 0 then n - 1 else if calls <= n then n - calls else -1
      invariant Writing(cpu, cpu', addr, buf[..], calls)
      decreases n + 4 - calls
    {
      hide Exec, Stored, WordAt, Writing;
      var req;
      more, req := plan.WriteNext();
      assert req == StoreRequest(addr, buf[..], cpu.reg[0], calls);
      if 1 <= calls <= n {
        StoreStep(cpu, cpu', addr, buf[..], calls);
      } else {
        OtherStep(cpu, cpu', addr, buf[..], calls);
      }
      cpu' := Exec(cpu', req).cpu;
      calls := calls + 1;
    }
  }

  // ----- memory read -----

  /** Where the memory-read plan stands after i requests for n words; only R0 is borrowed. */
  ghost predicate Reading(cpu: Cpu, cpu': Cpu, n: nat, i: nat) {
    && |cpu.reg| == |cpu'.reg| == NUM_REGS && cpu'.mem == cpu.mem && cpu'.reg[0 := cpu.reg[0]] == cpu.reg
    && (i > n + 2 ==> cpu' == cpu)
  }

  /** Request i of the memory-read plan. */
  ghost function LoadRequest(addr: nat, n: nat, r0: nat, i: nat): Request {
    if i < n then Request(0x6012, true, WordAt(addr, i))
    else if i == n + 2 then Request(0x6003, true, r0) else Request(0x0009, false, 0)
  }

  lemma LoadStep(cpu: Cpu, cpu': Cpu, addr: nat, n: nat, i: nat)
    requires Reading(cpu, cpu', n, i)
    ensures var r := Exec(cpu', LoadRequest(addr, n, cpu.reg[0], i));
            Reading(cpu, r.cpu, n, i + 1) && (i < n ==> r.back == Load(cpu.mem, WordAt(addr, i)))
  {
    hide Exec, WordAt;
    ExecMov(cpu', 0, true, cpu.reg[0]);
    ExecOther(cpu');
    ExecMemory(cpu', WordAt(addr, i));
    var v := Load(cpu.mem, WordAt(addr, i));
    assert cpu'.reg[0 := v][0 := cpu.reg[0]] == cpu'.reg[0 := cpu.reg[0]];
    assert cpu.reg[0 := cpu.reg[0]] == cpu.reg;
  }

  /**
    The memory-read plan: N + 6 requests fill the buffer with the N words at addr and leave
    the machine as it was, given the true value of R0.
   */
  method RunMemRead(cpu: Cpu, addr: nat, buf: array<nat>, junk: nat -> nat) returns (cpu': Cpu, calls: nat)
    requires CpuOk(cpu)
    modifies buf
    ensures calls == buf.Length + 6 && cpu' == cpu
    ensures forall k :: 0 <= k < buf.Length ==> buf[k] == Load(cpu.mem, WordAt(addr, k))
  {
    var n := buf.Length;
    var plan := new MemPlan(addr, n, buf, cpu.reg[0], false);
    var backs: seq<nat> := [];
    cpu', calls := cpu, 0;
    var more := true;
    while more
      invariant fresh(plan) && plan.buf == buf && plan.r0 == cpu.reg[0] && calls <= n + 6 && more == (calls < n + 6)
      invariant more ==> plan.i == calls && plan.numWords == n - calls
      invariant calls <= n ==> plan.addr == WordAt(addr, calls)
      invariant |backs| == calls && forall k :: 0 <= k < calls && k < n ==> backs[k] == Load(cpu.mem, WordAt(addr, k))
      invariant plan.at == if calls > 6 then calls - 6 else 0
      invariant forall k :: 0 <= k < calls - 6 ==> buf[k] == Load(cpu.mem, WordAt(addr, k))
      invariant Reading(cpu, cpu', n, calls)
      decreases n + 6 - calls
    {
      hide Exec, WordAt, Load;
      var reply := if calls >= 6 then backs[calls - 6] else junk(calls);
      var req;
      more, req := plan.ReadNext(reply);
      assert req == LoadRequest(addr, n, cpu.reg[0], calls);
      StepUp(addr, calls);
      LoadStep(cpu, cpu', addr, n, calls);
      var r := Exec(cpu', req);
      cpu', backs, calls := r.cpu, backs + [r.back], calls + 1;
    }
  }

  lemma StepUp(addr: nat, k: nat)
    ensures (WordAt(addr, k) + 4) % WORD == WordAt(addr, k + 1)
  {
    var b := addr + 4 * k;
    var r := b % WORD;
    assert (b + 4) % WORD == (r + 4) % WORD;
  }
}
