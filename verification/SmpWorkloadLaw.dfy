/**
  The walk of smptest11 through its pattern table and the work of one inner step, in closed form:
  which entry each access uses, which cells are loaded, and what is stored where.
 */
module SmpWorkloadLaw {
  import opened SmpWorkload

  /** Where the n-th entry of the data file stands: 512 entries, then a gap of 1536. */
  function Slot(n: nat): (p: nat)
    ensures n < 5120 ==> p < 20480
  {
    2048 * (n / 512) + n % 512
  }

  /** The n-th index of a walk.  cpu0 passes all 5120 entries and then, over and over, those from 3 on;
      cpu1's first 769 indices are all in gaps, before it does the same. */
  function Walk(id: nat, n: nat): nat {
    if id == 0 then if n < 5120 then Slot(n) else Slot(3 + (n - 5120) % 5117)
    else if n < 257 then 17663 + n
    else if n < 769 then 19456 + (n - 257)
    else Slot(3 + (n - 769) % 5117)
  }

  lemma SlotStep(n: nat)
    requires n < 5120
    ensures Slot(n) < 20480 && NextPat(Slot(n)) == if n + 1 < 5120 then Slot(n + 1) else 3
  {
    var a, b := n / 512, n % 512;
    assert n == 512 * a + b && Slot(n) == 2048 * a + b;
    if b == 511 {
      assert n + 1 == 512 * (a + 1);
      assert Slot(n) + 1 == 512 * (4 * a + 1);
    } else {
      assert (n + 1) / 512 == a && (n + 1) % 512 == b + 1;
      assert Slot(n) + 1 == 512 * (4 * a) + (b + 1);
    }
  }

  /** Every step of either program moves its index along the walk. */
  lemma WalkStep(id: nat, n: nat)
    requires id < 2
    ensures Walk(id, 0) == FirstPat(id) && Walk(id, n) < 20480 && Walk(id, n + 1) == NextPat(Walk(id, n))
  {
    var lead := if id == 0 then 5120 else 769;
    hide Slot;
    SlotThree();
    if n >= lead {
      hide NextPat;
      SlotStep(3 + (n - lead) % 5117);
      Turnover(n - lead);
    } else if id == 0 {
      hide NextPat;
      SlotStep(n);
    } else {
      GapStep(n);
    }
  }

  /** cpu1's places in the gaps. */
  lemma GapStep(n: nat)
    requires n < 769
    ensures Walk(1, n) < 20480 && Walk(1, n + 1) == NextPat(Walk(1, n))
  {
    hide Slot;
    SlotThree();
  }

  lemma SlotThree()
    ensures Slot(0) == 0 && Slot(3) == 3
  {
  }

  lemma Turnover(x: nat)
    ensures (x + 1) % 5117 == if x % 5117 == 5116 then 0 else x % 5117 + 1
  {
  }

  /** A walk that is in the entries of the file stays in them; past the last one it comes to 3. */
  lemma StaysLoaded(p: nat)
    requires p < 20480 && p % 2048 < 512
    ensures NextPat(p) < 20480 && NextPat(p) % 2048 < 512
    ensures NextPat(p) == if p == 18943 then 3 else if p % 2048 == 511 then p + 1537 else p + 1
  {
  }

  /** Which indices are entries of the file: all of cpu0's, and cpu1's from the 769th on. */
  lemma WalkLoaded(id: nat, n: nat)
    requires id < 2
    ensures Walk(id, n) % 2048 < 512 <==> id == 0 || n >= 769
  {
    if id == 0 || n >= 769 {
      var x := if id == 0 then if n < 5120 then n else 3 + (n - 5120) % 5117 else 3 + (n - 769) % 5117;
      assert Walk(id, n) == Slot(x) == 2048 * (x / 512) + x % 512;
    }
  }

  ghost predicate OnWalk(id: nat, p: Cpu) {
    && p.pat == Walk(id, 3200 * p.i + 5 * p.j + p.k)
    && (p.pc.Pat? || p.pc.Access? ==> p.j < 640 && p.k < 5)
    && (p.pc.Report? ==> p.j == 640 && p.k == 0)
  }

  lemma RoundOnWalk(c: Config, id: nat, i: nat, pat: nat)
    requires pat == Walk(id, 3200 * i)
    ensures OnWalk(id, Start(c, i, pat))
  {
    hide Walk;
  }

  lemma StepOnWalk(c: Config, id: nat, p: Cpu, v: int)
    requires id < 2 && OnWalk(id, p)
    ensures OnWalk(id, Next(c, id, p, v))
  {
    var n := 3200 * p.i + 5 * p.j + p.k;
    WalkStep(id, n);
    hide Walk, NextPat, Start;
    if p.pc.Access? && p.k == 4 && p.j == 639 {
      RoundOnWalk(c, id, p.i + 1, NextPat(p.pat));
    } else if p.pc.Report? {
      RoundOnWalk(c, id, p.i + 1, p.pat);
    }
  }

  /** In every state of every run, the index of each CPU is that of its access in the walk: the accesses are
      numbered through, 3200 a round, whatever the interleaving. */
  lemma {:induction false} IndexLaw(c: Config, t: seq<State>, n: nat, id: nat)
    requires Run(c, t) && n < |t| && id < 2
    ensures OnWalk(id, if id == 0 then t[n].p0 else t[n].p1)
    decreases n
  {
    hide OnWalk, Next, OpOf, Read, Write;
    if n == 0 {
      StartOnWalk(c, id);
    } else {
      IndexLaw(c, t, n - 1, id);
      var s := t[n - 1];
      var p := if id == 0 then s.p0 else s.p1;
      StepOnWalk(c, id, p, Read(c, s.cells, s.flag, OpOf(id, p)));
    }
  }

  lemma StartOnWalk(c: Config, id: nat)
    requires id < 2
    ensures OnWalk(id, Start(c, 0, FirstPat(id)))
  {
    WalkStep(id, 0);
    RoundOnWalk(c, id, 0, FirstPat(id));
    hide Walk, FirstPat, OnWalk;
  }

  // ----- one inner step -----

  function Entry(pattern: seq<nat>, id: nat, n: nat): nat {
    if Walk(id, n) < |pattern| then pattern[Walk(id, n)] else 0
  }

  function At(a: seq<int>, x: nat): int { if x < |a| then a[x] else 0 }

  /** Inner step m, counted over all rounds of 640: the five entries of the walk from 5 * m on give three loads,
      a load moved by 4 * i and a store moved by 2 * i, where i is the round. */
  function Turn(pattern: seq<nat>, id: nat, m: nat, a: seq<int>): (r: seq<int>)
    ensures |r| == |a|
  {
    var i := m / 640;
    var sum := At(a, Entry(pattern, id, 5 * m) + id) + At(a, Entry(pattern, id, 5 * m + 1) + id) +
               At(a, Entry(pattern, id, 5 * m + 2) + id) +
               At(a, (Entry(pattern, id, 5 * m + 3) + 4 * i + id) % 2560);
    var x := (Entry(pattern, id, 5 * m + 4) + 2 * i + id) % 2560;
    if x < |a| then a[x := (sum + 11 + i) % 131072] else a
  }

  /** The first m inner steps of a program alone. */
  function Turns(pattern: seq<nat>, id: nat, m: nat, a: seq<int>): (r: seq<int>)
    ensures |r| == |a|
  {
    if m == 0 then a else Turn(pattern, id, m - 1, Turns(pattern, id, m - 1, a))
  }
}
