/**
  Runs of the debug queue on the scheduler: commands queued between rounds, firing rounds in
  which the port's two hooks are called among others, and whatever other devices do.
 */
module DebugQueueRuns {
  import opened Addresses
  import opened UtList
  import opened SchedulerSpec
  import opened SchedulerProof
  import opened Scheduler
  import opened DebugQueue

  /** Other callbacks leave the two hooks of the port alone. */
  ghost predicate Foreign(k: Port, acts: seq<Action>) {
    forall j :: 0 <= j < |acts| ==> acts[j].g != k.ack && acts[j].g != k.drop
  }

  // ----- the calls of a round -----

  /** The acknowledge line as the ack hook sees it, and what on_done would queue. */
  datatype Input = Input(ack: bool, es: seq<Entry>)

  ghost function HwNext(k: Port, e: Env, r: Round, h: Ptr, hw: Hw, i: Input): Hw {
    if h == k.ack then AckCb(k, hw, i.ack, i.es, e.picos, T(r.time, h)).0
    else if h == k.drop then DropEnCb(hw, T(r.time, h)).0
    else hw
  }

  ghost predicate OutcomeOf(k: Port, e: Env, r: Round, h: Ptr, hw: Hw, i: Input, o: Outcome) {
    if h == k.ack then o == AckCb(k, hw, i.ack, i.es, e.picos, T(r.time, h)).1
    else if h == k.drop then o == DropEnCb(hw, T(r.time, h)).1
    else Foreign(k, o.acts)
  }

  ghost predicate Follows(k: Port, e: Env, rest: seq<Ptr>, r: Round, os: seq<Outcome>, hw: Hw, i: Input)
    decreases |rest|
  {
    if rest == [] then true
    else if Due(e, r.time, rest[0]) then
      && os != [] && OutcomeOf(k, e, r, rest[0], hw, i, os[0])
      && Follows(k, e, rest[1..], Called(e, r, rest[0], os[0]), os[1..], HwNext(k, e, r, rest[0], hw, i), i)
    else Follows(k, e, rest[1..], r.(kept := r.kept + [rest[0]]), os, hw, i)
  }

  ghost function HwAfter(k: Port, e: Env, rest: seq<Ptr>, r: Round, os: seq<Outcome>, hw: Hw, i: Input): Hw
    decreases |rest|
  {
    if rest == [] then hw
    else if Due(e, r.time, rest[0]) && os != [] then
      HwAfter(k, e, rest[1..], Called(e, r, rest[0], os[0]), os[1..], HwNext(k, e, r, rest[0], hw, i), i)
    else HwAfter(k, e, rest[1..], r.(kept := r.kept + [rest[0]]), os, hw, i)
  }

  // ----- the invariant -----

  /** The ack hook is listed iff a command is queued, the drop hook iff it is scheduled. */
  ghost predicate PortInv(k: Port, hw: Hw, l: Live) {
    && PortOk(k) && HwInv(hw) && Distinct(l.listed)
    && (k.ack in l.listed <==> hw.queue != [])
    && (k.drop in l.listed <==> hw.dropScheduled)
  }

  ghost predicate PortMid(k: Port, hw: Hw, r: Round, rest: seq<Ptr>) {
    && PortOk(k) && HwInv(hw) && Separate(r, rest)
    && k.ack !in r.imm && k.drop !in r.imm
    && (Active(r, rest, k.ack) <==> hw.queue != [])
    && (Active(r, rest, k.drop) <==> hw.dropScheduled)
  }

  /** What on_done may queue when the head completes. */
  ghost predicate InputOk(hw: Hw, i: Input) { hw.queue != [] ==> CanQueue(hw.queue[1..], i.es) }

  lemma ActNone(r: Round)
    ensures ActAll(r, []) == r
  {
  }

  lemma ActAdd(r: Round, rest: seq<Ptr>, g: Ptr, t: nat)
    requires g != NULL && !Listed(r, rest, g)
    ensures AllAllowed(r, rest, [Add(g, t)])
    ensures ActAll(r, [Add(g, t)]) == r.(pend := r.pend + [g], time := r.time[g := t])
  {
    var a := Add(g, t);
    assert [a][1..] == [] && [a][0] == a;
    ActNone(Act(r, a));
    assert ActAll(r, [a]) == ActAll(Act(r, a), [a][1..]);
  }

  /** What the ack callback asks of the scheduler: at most to add the drop hook, when it retires. */
  lemma AckShape(k: Port, hw: Hw, i: Input, picos: nat, time: nat) returns (t: nat)
    requires HwInv(hw) && hw.queue != []
    ensures var (hw', o) := AckCb(k, hw, i.ack, i.es, picos, time);
            && (o.retire <==> hw'.queue == []) && (o.retire <==> hw'.dropScheduled)
            && o.acts == if o.retire then [Add(k.drop, t)] else []
  {
    t := picos + k.period / 4;
  }

  lemma AckStep(k: Port, e: Env, hw: Hw, i: Input, r: Round, rest: seq<Ptr>)
    requires PortMid(k, hw, r, rest) && rest != [] && rest[0] == k.ack && InputOk(hw, i)
    ensures var (hw', o) := AckCb(k, hw, i.ack, i.es, e.picos, T(r.time, k.ack));
            && AllAllowed(Entered(r, k.ack, o.newTime), rest, o.acts)
            && PortMid(k, hw', Called(e, r, k.ack, o), rest[1..])
  {
    hide Distinct, Apart, ActAll, Settle, AckCb, AllAllowed, HwInv;
    AckKeeps(k, hw, i.ack, i.es, e.picos, T(r.time, k.ack));
    var t := AckShape(k, hw, i, e.picos, T(r.time, k.ack)) by { QueueUnscheduled(hw); }
    var (hw', o) := AckCb(k, hw, i.ack, i.es, e.picos, T(r.time, k.ack));
    var r1 := Entered(r, k.ack, o.newTime);
    assert Separate(r1, rest) by { SeparateIgnores(r, r1, rest); }
    QueueUnscheduled(hw);
    if o.retire {
      ActAdd(r1, rest, k.drop, t);
    } else {
      ActNone(r1);
      assert AllAllowed(r1, rest, []) by { NoActs(r1, rest); }
    }
    ActAllKeeps(r1, rest, o.acts);
    var r2 := ActAll(r1, o.acts);
    SettleSeparate(e, r2, rest, T(r.time, k.ack), o.retire);
    SettleOther(e, r2, rest, T(r.time, k.ack), o.retire, k.drop);
  }

  lemma QueueUnscheduled(hw: Hw)
    requires HwInv(hw)
    ensures hw.queue != [] ==> !hw.dropScheduled
  {
  }

  lemma NoActs(r: Round, rest: seq<Ptr>)
    ensures AllAllowed(r, rest, [])
  {
  }

  lemma DropStep(k: Port, e: Env, hw: Hw, r: Round, rest: seq<Ptr>)
    requires PortMid(k, hw, r, rest) && rest != [] && rest[0] == k.drop
    ensures var (hw', o) := DropEnCb(hw, T(r.time, k.drop));
            && AllAllowed(Entered(r, k.drop, o.newTime), rest, o.acts)
            && PortMid(k, hw', Called(e, r, k.drop, o), rest[1..])
  {
    hide Distinct, Apart, Settle, AllAllowed;
    var t := T(r.time, k.drop);
    var r1 := Entered(r, k.drop, t);
    ActNone(r1);
    NoActs(r1, rest);
    assert Separate(r1, rest) by { SeparateIgnores(r, r1, rest); }
    SettleSeparate(e, r1, rest, t, true);
    SettleOther(e, r1, rest, t, true, k.ack);
  }

  lemma ForeignStep(k: Port, e: Env, hw: Hw, r: Round, rest: seq<Ptr>, o: Outcome)
    requires PortMid(k, hw, r, rest) && rest != [] && rest[0] != k.ack && rest[0] != k.drop
    requires Foreign(k, o.acts) && AllAllowed(Entered(r, rest[0], o.newTime), rest, o.acts)
    ensures PortMid(k, hw, Called(e, r, rest[0], o), rest[1..])
  {
    hide Distinct, Apart, Settle, ActAll, AllAllowed, HwInv;
    var h, r1 := rest[0], Entered(r, rest[0], o.newTime);
    assert Spares(o.acts, k.ack) && Spares(o.acts, k.drop);
    hide Foreign, Spares;
    assert Separate(r1, rest) by { SeparateIgnores(r, r1, rest); }
    ActAllKeeps(r1, rest, o.acts);
    SparedActs(r1, rest, o.acts, k.ack);
    SparedActs(r1, rest, o.acts, k.drop);
    var r2 := ActAll(r1, o.acts);
    SettleSeparate(e, r2, rest, T(r.time, h), o.retire);
    SettleOther(e, r2, rest, T(r.time, h), o.retire, k.ack);
    SettleOther(e, r2, rest, T(r.time, h), o.retire, k.drop);
  }

  lemma SkipStep(k: Port, hw: Hw, r: Round, rest: seq<Ptr>)
    requires PortMid(k, hw, r, rest) && rest != []
    ensures PortMid(k, hw, r.(kept := r.kept + [rest[0]]), rest[1..])
  {
    hide Distinct, Apart, HwInv;
    assert Separate(r.(kept := r.kept + [rest[0]]), rest[1..]) by { SkippedSeparate(r, rest); }
    TailOf(rest);
  }

  /** Before the ack hook is visited the queue is as it was, so on_done's commands still fit. */
  lemma InputKept(k: Port, e: Env, r: Round, rest: seq<Ptr>, hw: Hw, i: Input)
    requires rest != [] && Distinct(rest) && (k.ack in rest ==> InputOk(hw, i))
    ensures Distinct(rest[1..])
    ensures k.ack in rest[1..] ==> InputOk(HwNext(k, e, r, rest[0], hw, i), i) && InputOk(hw, i)
  {
    hide Distinct, CanQueue, AckCb;
    TailOf(rest);
  }

  lemma RestDistinct(r: Round, rest: seq<Ptr>)
    requires Separate(r, rest)
    ensures Distinct(rest)
  {
    var s := r.kept + rest;
    assert forall j :: 0 <= j < |rest| ==> rest[j] == s[|r.kept| + j];
  }

  lemma {:induction false} VisitPort(k: Port, e: Env, rest: seq<Ptr>, r: Round, os: seq<Outcome>, hw: Hw, i: Input)
    requires PortMid(k, hw, r, rest) && Obeys(e, rest, r, os) && Follows(k, e, rest, r, os, hw, i)
    requires k.ack in rest ==> InputOk(hw, i)
    ensures PortMid(k, HwAfter(k, e, rest, r, os, hw, i), Visit(e, rest, r, os), [])
    decreases |rest|
  {
    if rest != [] {
      var h := rest[0];
      RestDistinct(r, rest);
      InputKept(k, e, r, rest, hw, i);
      assert h in rest;
      hide PortMid, Called, AllAllowed, Foreign, AckCb, DropEnCb, InputOk, Distinct;
      if Due(e, r.time, h) {
        if h == k.ack {
          AckStep(k, e, hw, i, r, rest);
        } else if h == k.drop {
          DropStep(k, e, hw, r, rest);
        } else {
          ForeignStep(k, e, hw, r, rest, os[0]);
        }
        VisitPort(k, e, rest[1..], Called(e, r, h, os[0]), os[1..], HwNext(k, e, r, h, hw, i), i);
      } else {
        SkipStep(k, hw, r, rest);
        VisitPort(k, e, rest[1..], r.(kept := r.kept + [h]), os, hw, i);
      }
    }
  }

  // ----- between rounds -----

  /** Foreign activity between rounds and in immediate callbacks. */
  lemma {:induction false} ForeignBetween(k: Port, hw: Hw, l: Live, imm: seq<Ptr>, acts: seq<Action>)
    requires PortInv(k, hw, l) && Foreign(k, acts) && ImmAllowed(l, imm, acts)
    ensures PortInv(k, hw, ImmAll(l, acts))
    decreases |acts|
  {
    if acts != [] {
      ForeignAction(k, hw, l, imm, acts[0]);
      assert forall j :: 0 <= j < |acts[1..]| ==> acts[1..][j] == acts[j + 1];
      hide PortInv, Imm, ImmOk;
      ForeignBetween(k, hw, Imm(l, acts[0]), imm, acts[1..]);
    }
  }

  lemma ForeignAction(k: Port, hw: Hw, l: Live, imm: seq<Ptr>, a: Action)
    requires PortInv(k, hw, l) && ImmOk(l, imm, a) && a.g != k.ack && a.g != k.drop
    ensures PortInv(k, hw, Imm(l, a))
  {
    hide Distinct, Insert, Drop, HwInv;
    match a
    case Add(g, t) => InsertMembers(l.time[g := t], l.listed, g);
    case Remove(g) => DropMembers(l.listed, g);
    case Retime(g, t) =>
    case Immediate(g) =>
  }

  lemma ImmOne(l: Live, a: Action)
    ensures ImmAll(l, [a]) == Imm(l, a)
    ensures forall imm :: ImmOk(l, imm, a) ==> ImmAllowed(l, imm, [a])
  {
    assert [a][1..] == [];
    assert ImmAll(l, [a]) == ImmAll(Imm(l, a), [a][1..]);
  }

  lemma ImmTwo(l: Live, a: Action, b: Action)
    requires ImmOk(l, [], a) && ImmOk(Imm(l, a), [], b)
    ensures ImmAll(l, [a, b]) == Imm(Imm(l, a), b) && ImmAllowed(l, [], [a, b])
  {
    hide Imm, ImmOk;
    ImmOne(Imm(l, a), b);
    assert [a, b][1..] == [b];
    assert ImmAll(l, [a, b]) == ImmAll(Imm(l, a), [a, b][1..]);
  }

  /** debug_add_cmd between rounds keeps the invariant and the scheduler's rules. */
  lemma RequestKeeps(k: Port, hw: Hw, l: Live, e: Entry, picos: nat)
    requires PortInv(k, hw, l) && CanQueue(hw.queue, [e])
    ensures var (hw', acts) := AddCmd(k, hw, e, picos); ImmAllowed(l, [], acts) && PortInv(k, hw', ImmAll(l, acts))
  {
    hide Distinct, Insert, Drop, RoundUp, HwInv, ImmAll, ImmAllowed, CanQueue;
    AddKeeps(k, hw, e, picos);
    var (hw', acts) := AddCmd(k, hw, e, picos);
    if hw.queue == [] {
      var a := Add(k.ack, RoundUp(picos + k.period, k.period));
      if hw.dropScheduled {
        DropMembers(l.listed, k.drop);
        var l1 := Imm(l, Remove(k.drop));
        InsertMembers(l1.time[a.g := a.t], l1.listed, a.g);
        ImmTwo(l, Remove(k.drop), a);
        assert acts == [Remove(k.drop), a];
      } else {
        InsertMembers(l.time[a.g := a.t], l.listed, a.g);
        ImmOne(l, a);
        assert acts == [a];
      }
    } else {
      NothingDone(l);
    }
  }

  lemma NothingDone(l: Live)
    ensures ImmAll(l, []) == l && ImmAllowed(l, [], [])
  {
  }

  // ----- runs -----

  datatype Sys = Sys(l: Live, hw: Hw)

  /** A step of the system; imms are the actions of the immediate callbacks of the round. */
  datatype Turn = Request(e: Entry, picos: nat)
                | Others(acts: seq<Action>)
                | Fire(env: Env, i: Input, os: seq<Outcome>, imms: seq<Action>)

  ghost predicate TurnOk(k: Port, s: Sys, x: Turn) {
    match x
    case Request(e, picos) => CanQueue(s.hw.queue, [e])
    case Others(acts) => Foreign(k, acts) && ImmAllowed(s.l, [], acts)
    case Fire(env, i, os, imms) =>
      && InputOk(s.hw, i)
      && Obeys(env, s.l.listed, Begin(s.l.time), os) && Follows(k, env, s.l.listed, Begin(s.l.time), os, s.hw, i)
      && Foreign(k, imms)
      && var r := Visit(env, s.l.listed, Begin(s.l.time), os); ImmAllowed(Live(ListAfter(r), r.time), r.imm, imms)
  }

  ghost function Next(k: Port, s: Sys, x: Turn): Sys {
    match x
    case Request(e, picos) =>
      if k.period == 0 then s else var (hw, acts) := AddCmd(k, s.hw, e, picos); Sys(ImmAll(s.l, acts), hw)
    case Others(acts) => s.(l := ImmAll(s.l, acts))
    case Fire(env, i, os, imms) =>
      var r := Visit(env, s.l.listed, Begin(s.l.time), os);
      Sys(ImmAll(Live(ListAfter(r), r.time), imms), HwAfter(k, env, s.l.listed, Begin(s.l.time), os, s.hw, i))
  }

  ghost predicate SysInv(k: Port, s: Sys) { Ordered(s.l.time, s.l.listed) && PortInv(k, s.hw, s.l) }

  lemma PortBegins(k: Port, hw: Hw, l: Live)
    requires PortInv(k, hw, l)
    ensures PortMid(k, hw, Begin(l.time), l.listed)
  {
    hide HwInv;
    assert [] + l.listed == l.listed;
  }

  lemma PortMerged(k: Port, hw: Hw, r: Round)
    requires PortMid(k, hw, r, []) && Distinct(ListAfter(r))
    requires forall x :: x in ListAfter(r) <==> x in r.kept || x in r.pend
    ensures PortInv(k, hw, Live(ListAfter(r), r.time))
  {
    hide ListAfter, HwInv;
  }

  /** A whole firing round keeps the invariant. */
  lemma RoundKeepsPort(k: Port, env: Env, hw: Hw, i: Input, l: Live, os: seq<Outcome>, imms: seq<Action>)
    requires Ordered(l.time, l.listed) && PortInv(k, hw, l) && InputOk(hw, i) && Foreign(k, imms)
    requires Obeys(env, l.listed, Begin(l.time), os) && Follows(k, env, l.listed, Begin(l.time), os, hw, i)
    requires var r := Visit(env, l.listed, Begin(l.time), os); ImmAllowed(Live(ListAfter(r), r.time), r.imm, imms)
    ensures var r := Visit(env, l.listed, Begin(l.time), os);
            PortInv(k, HwAfter(k, env, l.listed, Begin(l.time), os, hw, i), ImmAll(Live(ListAfter(r), r.time), imms))
  {
    assert Distinct(l.listed);
    hide Ordered, ImmAll, ImmAllowed, Visit, Obeys, Follows, HwAfter, Foreign, ListAfter, InputOk, Distinct, PortMid,
         PortInv;
    PortBegins(k, hw, l);
    VisitPort(k, env, l.listed, Begin(l.time), os, hw, i);
    RoundOrdered(env, l.listed, l.time, os);
    var hw', r := HwAfter(k, env, l.listed, Begin(l.time), os, hw, i), Visit(env, l.listed, Begin(l.time), os);
    PortMerged(k, hw', r);
    ForeignBetween(k, hw', Live(ListAfter(r), r.time), r.imm, imms);
  }

  lemma FireKeeps(k: Port, s: Sys, x: Turn)
    requires x.Fire? && SysInv(k, s) && TurnOk(k, s, x)
    ensures SysInv(k, Next(k, s, x))
  {
    assert Distinct(s.l.listed);
    hide Ordered, ImmAll, ImmAllowed, Visit, Obeys, Follows, HwAfter, Foreign, ListAfter, InputOk, Distinct, PortInv;
    RoundKeepsPort(k, x.env, s.hw, x.i, s.l, x.os, x.imms);
    RoundKeepsOrder(x.env, s.l.listed, s.l.time, x.os, x.imms);
  }

  lemma TurnKeeps(k: Port, s: Sys, x: Turn)
    requires SysInv(k, s) && TurnOk(k, s, x)
    ensures SysInv(k, Next(k, s, x))
  {
    if x.Fire? {
      FireKeeps(k, s, x);
    } else {
      hide Ordered, ImmAll, ImmAllowed, Foreign, AddCmd, CanQueue, HwInv, Distinct;
      if x.Request? {
        RequestKeeps(k, s.hw, s.l, x.e, x.picos);
        ImmOrdered(s.l, [], AddCmd(k, s.hw, x.e, x.picos).1);
      } else {
        ForeignBetween(k, s.hw, s.l, [], x.acts);
        ImmOrdered(s.l, [], x.acts);
      }
    }
  }

  ghost predicate Run(k: Port, ss: seq<Sys>, xs: seq<Turn>) {
    && |ss| == |xs| + 1 && SysInv(k, ss[0]) && ss[0].hw.added == []
    && forall n {:trigger ss[n]} :: 0 < n < |ss| ==>
       TurnOk(k, ss[n - 1], xs[n - 1]) && ss[n] == Next(k, ss[n - 1], xs[n - 1])
  }

  lemma {:induction false} RunKeeps(k: Port, ss: seq<Sys>, xs: seq<Turn>, n: nat)
    requires Run(k, ss, xs) && n < |ss|
    ensures SysInv(k, ss[n])
    decreases n
  {
    if n > 0 {
      hide SysInv, TurnOk, Next;
      assert ss[n] == Next(k, ss[n - 1], xs[n - 1]);
      RunKeeps(k, ss, xs, n - 1);
      TurnKeeps(k, ss[n - 1], xs[n - 1]);
    }
  }

  /**
    In every run, between steps: commands complete in the order they were added, each exactly
    once; the port has seen the completed ones and the head, in that order; the ack hook is
    listed iff a command is queued; the drop hook is scheduled iff listed, and only when
    nothing is queued.
   */
  lemma FirstInFirstOut(k: Port, ss: seq<Sys>, xs: seq<Turn>, n: nat)
    requires Run(k, ss, xs) && n < |ss|
    ensures var hw, listed := ss[n].hw, ss[n].l.listed;
            && hw.added == hw.done + hw.queue
            && hw.shown == hw.done + (if hw.queue == [] then [] else [hw.queue[0]])
            && (hw.queue != [] ==>
                  var g, c := hw.sig, hw.queue[0].req;
                  g.en && g.cmd == c.op && g.ir == c.ir && g.din == c.d && g.dinEn == c.dEn)
            && (hw.sig.en <==> hw.queue != [] || hw.dropScheduled)
            && (hw.queue != [] && hw.queue[0].req.op != 3 ==> hw.paused)
            && (k.ack in listed <==> hw.queue != [])
            && (k.drop in listed <==> hw.dropScheduled)
            && (hw.dropScheduled ==> hw.queue == [])
  {
    hide Run, Ordered, Distinct;
    RunKeeps(k, ss, xs, n);
  }

  // ----- when debug_add_cmd may be called -----

  /** After DL_APPEND and the scheduler's part, some state of the port fits links and hooks, and no
      command is lost. */
  ghost predicate Survives(k: Port, d: Dl, head: Ptr, l: Live, hw: Hw, cmd: Ptr, hw': Hw) {
    && Linked(d, head, hw'.queue) && PortInv(k, hw', l)
    && cmd in Ptrs(hw'.queue) && forall x {:trigger x in Ptrs(hw'.queue)} :: x in Ptrs(hw.queue) ==>
       x in Ptrs(hw'.queue)
  }

  /** debug_add_cmd of any command, queued or not, keeps the scheduler's rules, the queue and the hooks. */
  ghost predicate Keeps(k: Port, d: Dl, head: Ptr, hw: Hw, l: Live, cmd: Ptr, picos: nat)
    requires k.period > 0
  {
    var (d', head') := Append(d, head, cmd);
    var acts := AddActs(k, hw, head' == cmd, picos);
    ImmAllowed(l, [], acts) && exists hw' :: Survives(k, d', head', ImmAll(l, acts), hw, cmd, hw')
  }

  /**
    Adding the head of the queue again, whatever else is queued, adds the ack hook while it is
    listed: the rules of the scheduler are broken and the hook is listed twice.
   */
  lemma HeadListedTwice(k: Port, d: Dl, head: Ptr, hw: Hw, l: Live, picos: nat)
    requires PortInv(k, hw, l) && Linked(d, head, hw.queue) && hw.queue != []
    ensures var acts := AddActs(k, hw, Append(d, head, head).1 == head, picos);
            acts == [Add(k.ack, RoundUp(picos + k.period, k.period))] && !ImmAllowed(l, [], acts) &&
              !Distinct(ImmAll(l, acts).listed)
  {
    hide RoundUp, Insert, Linked;
    HeadOf(d, head, hw.queue);
    QueueUnscheduled(hw);
    var a := Add(k.ack, RoundUp(picos + k.period, k.period));
    assert Unschedule(k, hw) + [a] == [a];
    assert [a][0] == a && !ImmOk(l, [], a);
    ImmOne(l, a);
    TwiceListed(l.time[k.ack := a.t], l.listed, k.ack);
  }

  lemma TwiceListed(time: Times, s: seq<Ptr>, h: Ptr)
    requires h in s
    ensures !Distinct(Insert(time, s, h))
  {
    var i :| 0 <= i < |s| && s[i] == h;
    var u := Insert(time, s, h);
    var p := if T(time, h) == 0 then |s| else Position(time, s, T(time, h));
    assert u[p] == h;
    var j := if i < p then i else i + 1;
    assert u[j] == s[i];
  }

  lemma CanQueueOne(q: seq<Entry>, e: Entry)
    requires Distinct(Ptrs(q)) && e.cmd != NULL && e.cmd !in Ptrs(q)
    ensures CanQueue(q, [e])
  {
    hide Ptrs;
    PtrsAppend(q, e);
    AppendDistinct(Ptrs(q), e.cmd);
  }

  /** Adding a command that is not queued keeps everything, with the state AddCmd gives. */
  lemma NewCommandKeeps(k: Port, d: Dl, head: Ptr, hw: Hw, l: Live, e: Entry, picos: nat)
    requires PortInv(k, hw, l) && Linked(d, head, hw.queue) && e.cmd != NULL && e.cmd !in Ptrs(hw.queue)
    ensures var (d', head') := Append(d, head, e.cmd); var (hw', acts) := AddCmd(k, hw, e, picos);
            && acts == AddActs(k, hw, head' == e.cmd, picos) && ImmAllowed(l, [], acts)
            && Survives(k, d', head', ImmAll(l, acts), hw, e.cmd, hw')
  {
    hide Linked, Append, RoundUp, ImmAllowed, ImmAll, CanQueue;
    assert Distinct(Ptrs(hw.queue));
    CanQueueOne(hw.queue, e);
    RequestKeeps(k, hw, l, e, picos);
    LinkedAppend(d, head, hw.queue, e);
    HeadAfter(d, head, hw.queue, e);
    PtrsAppend(hw.queue, e);
    assert AddCmd(k, hw, e, picos).0.queue == hw.queue + [e];
  }

  lemma HeadAfter(d: Dl, head: Ptr, q: seq<Entry>, e: Entry)
    requires Linked(d, head, q) && e.cmd != NULL && e.cmd !in Ptrs(q)
    ensures Append(d, head, e.cmd).1 == e.cmd <==> q == []
  {
    HeadOf(d, head, q);
    if q != [] { assert Ptrs(q)[0] in Ptrs(q); }
  }

  /** Adding a queued command beside another one loses a command. */
  lemma QueuedLoses(k: Port, d: Dl, head: Ptr, hw: Hw, cmd: Ptr, l: Live, hw': Hw)
    requires Linked(d, head, hw.queue) && cmd in Ptrs(hw.queue) && |hw.queue| > 1
    ensures var (d', head') := Append(d, head, cmd); !Survives(k, d', head', l, hw, cmd, hw')
  {
    hide IsList, Append, Ptrs, PortInv;
    var s, t := Ptrs(hw.queue), Ptrs(hw'.queue);
    PtrsLength(hw.queue);
    var i :| 0 <= i < |s| && s[i] == cmd;
    if forall x :: x in s ==> x in t {
      RequeueLoses(d, head, s, i, t);
    }
  }

  lemma PtrsLength(q: seq<Entry>)
    ensures |Ptrs(q)| == |q|
  {
  }

  /**
    debug_add_cmd outside a completion keeps the queue, the hooks and the scheduler's rules exactly
    when the command's prev link is null, which is what it tests for its message.
   */
  lemma AddKeepsExactly(k: Port, d: Dl, head: Ptr, hw: Hw, l: Live, cmd: Ptr, picos: nat)
    requires PortInv(k, hw, l) && Linked(d, head, hw.queue) && cmd != NULL
    ensures Keeps(k, d, head, hw, l, cmd, picos) <==> d.Prev(cmd) == NULL
  {
    PrevTells(d, head, hw.queue, cmd);
    hide PortInv, Linked, Append, ImmAllowed, ImmAll, AddActs, AddCmd, Survives;
    var (d', head') := Append(d, head, cmd);
    var acts := AddActs(k, hw, head' == cmd, picos);
    if cmd !in Ptrs(hw.queue) {
      var e := Entry(cmd, Command(0, 0, 0, false));
      NewCommandKeeps(k, d, head, hw, l, e, picos);
      assert Survives(k, d', head', ImmAll(l, acts), hw, cmd, AddCmd(k, hw, e, picos).0);
    } else if |hw.queue| > 1 {
      forall hw'
        ensures !Survives(k, d', head', ImmAll(l, acts), hw, cmd, hw')
      {
        QueuedLoses(k, d, head, hw, cmd, ImmAll(l, acts), hw');
      }
    } else {
      SoleIsHead(d, head, hw.queue, cmd);
      HeadListedTwice(k, d, head, hw, l, picos);
    }
  }

  lemma SoleIsHead(d: Dl, head: Ptr, q: seq<Entry>, cmd: Ptr)
    requires Linked(d, head, q) && cmd in Ptrs(q) && |q| <= 1
    ensures q != [] && cmd == head
  {
    HeadOf(d, head, q);
  }
}
