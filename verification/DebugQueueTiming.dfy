/**
  When things happen on the debug port: the head is completed in the first round at its poll that sees
  the acknowledgement, polls fall on clock edges, and the enable line goes down a quarter period after
  the queue has run empty.
 */
module DebugQueueTiming {
  import opened Addresses
  import opened Arithmetic
  import opened UtList
  import opened SchedulerSpec
  import opened SchedulerProof
  import opened Scheduler
  import opened DebugQueue
  import opened DebugQueueRuns

  // ----- what one round does to the port -----

  /** A round that calls neither hook leaves the port alone. */
  lemma {:induction false} NeitherCalled(k: Port, e: Env, rest: seq<Ptr>, r: Round, os: seq<Outcome>, hw: Hw, i: Input)
    requires k.ack !in rest && k.drop !in rest
    ensures HwAfter(k, e, rest, r, os, hw, i) == hw
    decreases |rest|
  {
    if rest != [] {
      hide Called, AckCb, DropEnCb, Due;
      if Due(e, r.time, rest[0]) && os != [] {
        NeitherCalled(k, e, rest[1..], Called(e, r, rest[0], os[0]), os[1..], hw, i);
      } else {
        NeitherCalled(k, e, rest[1..], r.(kept := r.kept + [rest[0]]), os, hw, i);
      }
    }
  }

  /** The port's two hooks have no subscriptions, so their targets decide. */
  ghost predicate Unsubscribed(k: Port, e: Env) { k.ack !in e.sub && k.drop !in e.sub }

  ghost predicate Reached(k: Port, e: Env, rest: seq<Ptr>, time: Times, h: Ptr) {
    h in rest && 0 < T(time, h) <= e.picos
  }

  /** A command polled and acknowledged is off the queue; without commands the line is taken down. */
  ghost function After(k: Port, e: Env, rest: seq<Ptr>, time: Times, hw: Hw, i: Input): Hw {
    if Reached(k, e, rest, time, k.ack) then AckCb(k, hw, i.ack, i.es, e.picos, 0).0
    else if Reached(k, e, rest, time, k.drop) then DropEnCb(hw, 0).0
    else hw
  }

  lemma {:induction false} RoundDoes(k: Port, e: Env, rest: seq<Ptr>, r: Round, os: seq<Outcome>, hw: Hw, i: Input)
    requires PortOk(k) && Unsubscribed(k, e) && Separate(r, rest) && Obeys(e, rest, r, os)
    requires k.ack !in rest || k.drop !in rest
    ensures HwAfter(k, e, rest, r, os, hw, i) == After(k, e, rest, r.time, hw, i)
    decreases |rest|
  {
    if rest != [] {
      var h := rest[0];
      RestDistinct(r, rest);
      TailOf(rest);
      hide Separate, Called, AckCb, DropEnCb, AllAllowed, Distinct;
      if Due(e, r.time, h) {
        CallTimes(e, r, rest, os[0]);
        var r' := Called(e, r, h, os[0]);
        if h == k.ack || h == k.drop {
          NeitherCalled(k, e, rest[1..], r', os[1..], HwNext(k, e, r, h, hw, i), i);
          AckFlow(k, hw, i, e.picos, T(r.time, h));
        } else {
          RoundDoes(k, e, rest[1..], r', os[1..], hw, i);
        }
      } else {
        SkippedSeparate(r, rest);
        RoundDoes(k, e, rest[1..], r.(kept := r.kept + [h]), os, hw, i);
      }
    }
  }

  /** The state does not depend on the hook's own target. */
  lemma AckFlow(k: Port, hw: Hw, i: Input, picos: nat, t: nat)
    ensures AckCb(k, hw, i.ack, i.es, picos, t).0 == AckCb(k, hw, i.ack, i.es, picos, 0).0
    ensures DropEnCb(hw, t).0 == DropEnCb(hw, 0).0
  {
  }

  // ----- the targets of the two hooks -----

  /** Polls fall on clock edges; the drop is a quarter period after the time since the queue is empty. */
  ghost predicate Timed(k: Port, hw: Hw, time: Times, since: nat) {
    && k.period > 0
    && (hw.queue != [] ==> T(time, k.ack) > 0 && T(time, k.ack) % k.period == 0)
    && (hw.dropScheduled ==> T(time, k.drop) == since + k.period / 4)
  }

  /** The time since which the queue is empty. */
  ghost function Since(hw: Hw, hw': Hw, picos: nat, since: nat): nat {
    if hw.queue != [] && hw'.queue == [] then picos else since
  }

  lemma ForeignTimed(k: Port, e: Env, hw: Hw, r: Round, rest: seq<Ptr>, o: Outcome, since: nat)
    requires PortMid(k, hw, r, rest) && rest != [] && rest[0] != k.ack && rest[0] != k.drop
    requires Foreign(k, o.acts) && AllAllowed(Entered(r, rest[0], o.newTime), rest, o.acts)
    requires Timed(k, hw, r.time, since)
    ensures Timed(k, hw, Called(e, r, rest[0], o).time, since)
  {
    hide Distinct, Apart, Settle, ActAll, AllAllowed, HwInv;
    var h, r1 := rest[0], Entered(r, rest[0], o.newTime);
    assert Spares(o.acts, k.ack) && Spares(o.acts, k.drop);
    hide Foreign, Spares;
    assert Separate(r1, rest) by { SeparateIgnores(r, r1, rest); }
    ActAllKeeps(r1, rest, o.acts);
    SparedActs(r1, rest, o.acts, k.ack);
    SparedActs(r1, rest, o.acts, k.drop);
    var r2 := ActAll(r1, o.acts);
    SettleOther(e, r2, rest, T(r.time, h), o.retire, k.ack);
    SettleOther(e, r2, rest, T(r.time, h), o.retire, k.drop);
  }

  /** The ack callback's target and action in full. */
  lemma AckTimes(k: Port, hw: Hw, i: Input, picos: nat, t: nat)
    requires HwInv(hw) && hw.queue != []
    ensures var (hw', o) := AckCb(k, hw, i.ack, i.es, picos, t);
            && (hw'.queue == [] <==> i.ack && hw.queue[1..] + i.es == [])
            && (hw'.dropScheduled <==> hw'.queue == [])
            && o == if hw'.queue == [] then Outcome(true, t, [Add(k.drop, picos + k.period / 4)])
                    else Outcome(false, picos + k.period, [])
  {
  }

  lemma AckTimed(k: Port, e: Env, hw: Hw, i: Input, r: Round, rest: seq<Ptr>, since: nat)
    requires PortMid(k, hw, r, rest) && rest != [] && rest[0] == k.ack
    requires Timed(k, hw, r.time, since) && e.picos % k.period == 0
    ensures var (hw', o) := AckCb(k, hw, i.ack, i.es, e.picos, T(r.time, k.ack));
            Timed(k, hw', Called(e, r, k.ack, o).time, Since(hw, hw', e.picos, since))
  {
    assert hw.queue != [];
    AckTimes(k, hw, i, e.picos, T(r.time, k.ack));
    var (hw', o) := AckCb(k, hw, i.ack, i.es, e.picos, T(r.time, k.ack));
    hide AckCb, HwInv, Separate, PortMid;
    var r1 := Entered(r, k.ack, o.newTime);
    ActNone(r1);
    if hw'.queue == [] {
      var a := Add(k.drop, e.picos + k.period / 4);
      assert [a][1..] == [] && [a][0] == a;
      ActNone(Act(r1, a));
      assert ActAll(r1, [a]) == ActAll(Act(r1, a), [a][1..]);
      assert k.drop != k.ack by { PortApart(k, hw, r, rest); }
    } else {
      DropMultiple(e.picos, 1, k.period);
    }
  }

  lemma PortApart(k: Port, hw: Hw, r: Round, rest: seq<Ptr>)
    requires PortMid(k, hw, r, rest)
    ensures k.drop != k.ack
  {
  }

  lemma DropTimed(k: Port, e: Env, hw: Hw, r: Round, rest: seq<Ptr>, since: nat)
    requires PortMid(k, hw, r, rest) && rest != [] && rest[0] == k.drop && Timed(k, hw, r.time, since)
    ensures var (hw', o) := DropEnCb(hw, T(r.time, k.drop));
            Timed(k, hw', Called(e, r, k.drop, o).time, since) && hw'.queue == hw.queue
  {
    hide HwInv, Separate;
    ActNone(Entered(r, k.drop, T(r.time, k.drop)));
  }

  lemma StaysEmpty(k: Port, e: Env, rest: seq<Ptr>, r: Round, os: seq<Outcome>, hw: Hw, i: Input)
    requires hw.queue == []
    ensures HwAfter(k, e, rest, r, os, hw, i).queue == []
    decreases |rest|
  {
    if rest != [] {
      hide Called, Due;
      if Due(e, r.time, rest[0]) && os != [] {
        StaysEmpty(k, e, rest[1..], Called(e, r, rest[0], os[0]), os[1..], HwNext(k, e, r, rest[0], hw, i), i);
      } else {
        StaysEmpty(k, e, rest[1..], r.(kept := r.kept + [rest[0]]), os, hw, i);
      }
    }
  }

  /** A poll is not missed, and those of this queue fall on clock edges. */
  ghost predicate OnTime(k: Port, e: Env, hw: Hw, time: Times) {
    Unsubscribed(k, e) && (hw.queue != [] ==> e.picos <= T(time, k.ack))
  }

  lemma {:induction false} VisitTimed(k: Port, e: Env, rest: seq<Ptr>, r: Round, os: seq<Outcome>, hw: Hw, i: Input,
                                      since: nat)
    requires PortMid(k, hw, r, rest) && Obeys(e, rest, r, os) && Follows(k, e, rest, r, os, hw, i)
    requires k.ack in rest ==> InputOk(hw, i) && OnTime(k, e, hw, r.time)
    requires Timed(k, hw, r.time, since)
    ensures var hw' := HwAfter(k, e, rest, r, os, hw, i);
            Timed(k, hw', Visit(e, rest, r, os).time, Since(hw, hw', e.picos, since))
    decreases |rest|
  {
    if rest != [] {
      var h := rest[0];
      RestDistinct(r, rest);
      InputKept(k, e, r, rest, hw, i);
      assert h in rest;
      hide PortMid, Called, AllAllowed, Foreign, AckCb, DropEnCb, InputOk, Distinct;
      if Due(e, r.time, h) {
        var hw1, r1 := HwNext(k, e, r, h, hw, i), Called(e, r, h, os[0]);
        if h == k.ack {
          AckQueue(k, hw, r, rest);
          AckStep(k, e, hw, i, r, rest);
          AckTimed(k, e, hw, i, r, rest, since);
        } else if h == k.drop {
          DropStep(k, e, hw, r, rest);
          DropTimed(k, e, hw, r, rest, since);
        } else {
          ForeignStep(k, e, hw, r, rest, os[0]);
          ForeignTimed(k, e, hw, r, rest, os[0], since);
        }
        if k.ack in rest[1..] { TimesKept(e, r, rest, os[0], k.ack, hw, k); }
        VisitTimed(k, e, rest[1..], r1, os[1..], hw1, i, Since(hw, hw1, e.picos, since));
        if hw1.queue == [] { StaysEmpty(k, e, rest[1..], r1, os[1..], hw1, i); }
      } else {
        SkipStep(k, hw, r, rest);
        VisitTimed(k, e, rest[1..], r.(kept := r.kept + [h]), os, hw, i, since);
      }
    }
  }

  lemma AckQueue(k: Port, hw: Hw, r: Round, rest: seq<Ptr>)
    requires PortMid(k, hw, r, rest) && k.ack in rest
    ensures hw.queue != []
  {
  }

  lemma TimesKept(e: Env, r: Round, rest: seq<Ptr>, o: Outcome, g: Ptr, hw: Hw, k: Port)
    requires PortMid(k, hw, r, rest) && rest != [] && AllAllowed(Entered(r, rest[0], o.newTime), rest, o.acts)
    requires g in rest[1..]
    ensures T(Called(e, r, rest[0], o).time, g) == T(r.time, g)
  {
    hide Called, AllAllowed, HwInv, Separate;
    CallTimes(e, r, rest, o);
  }

  // ----- runs -----

  lemma {:induction false} ForeignTimes(k: Port, l: Live, acts: seq<Action>)
    requires Foreign(k, acts)
    ensures T(ImmAll(l, acts).time, k.ack) == T(l.time, k.ack) && T(ImmAll(l, acts).time, k.drop) == T(l.time, k.drop)
    decreases |acts|
  {
    if acts != [] {
      hide Insert, Drop;
      assert acts[0].g != k.ack && acts[0].g != k.drop;
      assert forall j :: 0 <= j < |acts[1..]| ==> acts[1..][j] == acts[j + 1];
      ForeignTimes(k, Imm(l, acts[0]), acts[1..]);
    }
  }

  /** A command that starts the port is first polled at the clock edge one to two periods later, and every
      period from then on. */
  lemma PollTimes(k: Port, hw: Hw, e: Entry, i: Input, picos: nat)
    requires k.period > 0 && HwInv(hw)
    ensures hw.queue == [] ==>
              var acts := AddCmd(k, hw, e, picos).1;
              && acts != [] && acts[|acts| - 1].Add? && acts[|acts| - 1].g == k.ack
              && var t := acts[|acts| - 1].t; t % k.period == 0 && picos + k.period <= t < picos + 2 * k.period
    ensures hw.queue != [] ==>
              var (hw', o) := AckCb(k, hw, i.ack, i.es, picos, picos);
              if hw'.queue == [] then o.retire && o.acts == [Add(k.drop, picos + k.period / 4)]
              else !o.retire && o.newTime == picos + k.period && o.acts == []
  {
    RoundUpIs(picos + k.period, k.period);
    hide RoundUp, HwInv;
    if hw.queue != [] {
      assert !hw.dropScheduled by { QueueUnscheduled(hw); }
    }
  }

  lemma RequestTimed(k: Port, hw: Hw, l: Live, e: Entry, picos: nat, since: nat)
    requires PortInv(k, hw, l) && CanQueue(hw.queue, [e]) && Timed(k, hw, l.time, since)
    ensures var (hw', acts) := AddCmd(k, hw, e, picos);
            hw'.queue != [] && Timed(k, hw', ImmAll(l, acts).time, since)
  {
    hide Insert, Drop, RoundUp, CanQueue, Distinct;
    RoundUpIs(picos + k.period, k.period);
    var (hw', acts) := AddCmd(k, hw, e, picos);
    if hw.queue == [] {
      var a := Add(k.ack, RoundUp(picos + k.period, k.period));
      hide ImmAll;
      ImmOne(l, a);
      if hw.dropScheduled {
        assert acts == [Remove(k.drop), a];
        RemoveThenAdd(l, k.drop, a);
      } else {
        assert acts == [a];
      }
    } else {
      NothingDone(l);
    }
  }

  lemma RemoveThenAdd(l: Live, g: Ptr, a: Action)
    ensures ImmAll(l, [Remove(g), a]).time == Imm(l, a).time
  {
    hide Insert, Drop;
    var acts := [Remove(g), a];
    assert acts[1..] == [a];
    ImmOne(Imm(l, Remove(g)), a);
    assert ImmAll(l, acts) == ImmAll(Imm(l, acts[0]), acts[1..]);
  }

  lemma FireTimed(k: Port, s: Sys, x: Turn, since: nat)
    requires x.Fire? && SysInv(k, s) && TurnOk(k, s, x) && Timed(k, s.hw, s.l.time, since)
    requires OnTime(k, x.env, s.hw, s.l.time)
    ensures var s' := Next(k, s, x); Timed(k, s'.hw, s'.l.time, Since(s.hw, s'.hw, x.env.picos, since))
  {
    hide Ordered, ImmAll, ImmAllowed, Visit, Obeys, Follows, HwAfter, Foreign, ListAfter, InputOk, Distinct, PortMid,
         PortInv;
    PortBegins(k, s.hw, s.l);
    VisitTimed(k, x.env, s.l.listed, Begin(s.l.time), x.os, s.hw, x.i, since);
    var r := Visit(x.env, s.l.listed, Begin(s.l.time), x.os);
    ForeignTimes(k, Live(ListAfter(r), r.time), x.imms);
  }

  /** The time of the last round of the first n turns in which the queue ran empty. */
  ghost function EmptySince(ss: seq<Sys>, xs: seq<Turn>, n: nat, first: nat): nat {
    if n == 0 || n >= |ss| || n > |xs| then first
    else if xs[n - 1].Fire? && ss[n - 1].hw.queue != [] && ss[n].hw.queue == [] then xs[n - 1].env.picos
    else EmptySince(ss, xs, n - 1, first)
  }

  /** No round misses a poll. */
  ghost predicate Timely(k: Port, ss: seq<Sys>, xs: seq<Turn>, n: nat) {
    |ss| == |xs| + 1 && n <= |xs| &&
    forall j {:trigger xs[j]} :: 0 <= j < n && xs[j].Fire? ==> OnTime(k, xs[j].env, ss[j].hw, ss[j].l.time)
  }

  lemma TurnTimed(k: Port, s: Sys, x: Turn, since: nat)
    requires SysInv(k, s) && TurnOk(k, s, x) && Timed(k, s.hw, s.l.time, since)
    requires x.Fire? ==> OnTime(k, x.env, s.hw, s.l.time)
    ensures var s' := Next(k, s, x);
            Timed(k, s'.hw, s'.l.time, if x.Fire? then Since(s.hw, s'.hw, x.env.picos, since) else since)
  {
    if x.Fire? {
      FireTimed(k, s, x, since);
    } else {
      hide ImmAll, ImmAllowed, Foreign, AddCmd, CanQueue, HwInv, Distinct, Ordered;
      if x.Request? {
        RequestTimed(k, s.hw, s.l, x.e, x.picos, since);
      } else {
        ForeignTimes(k, s.l, x.acts);
      }
    }
  }

  lemma {:induction false} RunTimed(k: Port, ss: seq<Sys>, xs: seq<Turn>, n: nat, first: nat)
    requires Run(k, ss, xs) && Timely(k, ss, xs, n) && Timed(k, ss[0].hw, ss[0].l.time, first)
    ensures SysInv(k, ss[n]) && Timed(k, ss[n].hw, ss[n].l.time, EmptySince(ss, xs, n, first))
    decreases n
  {
    RunKeeps(k, ss, xs, n);
    if n > 0 {
      RunKeeps(k, ss, xs, n - 1);
      assert ss[n] == Next(k, ss[n - 1], xs[n - 1]) && TurnOk(k, ss[n - 1], xs[n - 1]);
      hide SysInv, TurnOk, Next, Timed, Run;
      RunTimed(k, ss, xs, n - 1, first);
      TurnTimed(k, ss[n - 1], xs[n - 1], EmptySince(ss, xs, n - 1, first));
    }
  }

  /**
    What a round of such a run does to the port.  With a command queued nothing happens before the poll;
    at the poll, a clock edge, an acknowledged head is completed, and only then.  With none queued the
    enable line goes down a quarter period after the queue has run empty.
   */
  lemma RoundLaw(k: Port, ss: seq<Sys>, xs: seq<Turn>, n: nat, first: nat)
    requires Run(k, ss, xs) && n < |xs| && xs[n].Fire? && k.period >= 4
    requires Timely(k, ss, xs, n + 1) && Timed(k, ss[0].hw, ss[0].l.time, first)
    ensures var s, hw, hw', x, p := ss[n], ss[n].hw, ss[n + 1].hw, xs[n], xs[n].env.picos;
            && (hw.queue != [] ==>
                  && T(s.l.time, k.ack) % k.period == 0
                  && (p == T(s.l.time, k.ack) && x.i.ack ==>
                        && hw'.done == hw.done + [hw.queue[0]] && hw'.queue == hw.queue[1..] + x.i.es
                        && (hw'.queue == [] ==> hw'.sig == hw.sig && (hw'.paused <==> hw.queue[0].req.op != 3)))
                  && (p < T(s.l.time, k.ack) || !x.i.ack ==> hw' == hw))
            && (hw.queue == [] ==>
                  && hw'.queue == [] && hw'.done == hw.done && hw'.paused == hw.paused
                  && (hw'.sig.en <==> hw.sig.en && p < EmptySince(ss, xs, n, first) + k.period / 4)
                  && hw'.sig == hw.sig.(en := hw'.sig.en))
  {
    var s, x := ss[n], xs[n];
    assert Timely(k, ss, xs, n);
    RunTimed(k, ss, xs, n, first);
    assert ss[n + 1] == Next(k, s, x) && TurnOk(k, s, x);
    hide Run, Timely, EmptySince;
    FireDoes(k, s, x);
    PortBounds(k, s);
    hide SysInv, TurnOk, Next;
    if s.hw.queue != [] { AckOutcome(k, s.hw, x.i, x.env.picos); }
  }

  /** What the port invariant says of the two hooks. */
  lemma PortBounds(k: Port, s: Sys)
    requires SysInv(k, s)
    ensures PortOk(k) && (k.ack in s.l.listed <==> s.hw.queue != []) && (k.drop in s.l.listed <==> s.hw.dropScheduled)
    ensures s.hw.dropScheduled ==> s.hw.queue == []
    ensures s.hw.sig.en <==> s.hw.queue != [] || s.hw.dropScheduled
  {
    hide Ordered, Distinct;
  }

  lemma AckOutcome(k: Port, hw: Hw, i: Input, picos: nat)
    requires hw.queue != []
    ensures var hw' := AckCb(k, hw, i.ack, i.es, picos, 0).0;
            && (!i.ack ==> hw' == hw)
            && (i.ack ==> hw'.done == hw.done + [hw.queue[0]] && hw'.queue == hw.queue[1..] + i.es)
            && (i.ack && hw'.queue == [] ==> hw'.sig == hw.sig && (hw'.paused <==> hw.queue[0].req.op != 3))
  {
  }

  lemma FireDoes(k: Port, s: Sys, x: Turn)
    requires SysInv(k, s) && x.Fire? && TurnOk(k, s, x) && Unsubscribed(k, x.env)
    ensures Next(k, s, x).hw == After(k, x.env, s.l.listed, s.l.time, s.hw, x.i)
  {
    PortBounds(k, s);
    hide Ordered, ImmAll, ImmAllowed, Visit, Obeys, Follows, HwAfter, Foreign, ListAfter, InputOk, Distinct, HwInv,
         After;
    PortBegins(k, s.hw, s.l);
    assert Separate(Begin(s.l.time), s.l.listed);
    RoundDoes(k, x.env, s.l.listed, Begin(s.l.time), x.os, s.hw, x.i);
  }

  /**
    The queue runs empty in round m, and no command is added before turn n.  The enable line is up until
    the first round at or past a quarter period later, and down from then on.
   */
  lemma {:induction false} EnableFalls(k: Port, ss: seq<Sys>, xs: seq<Turn>, m: nat, n: nat, first: nat)
    requires Run(k, ss, xs) && k.period >= 4 && m < n <= |xs| && Timely(k, ss, xs, n)
    requires Timed(k, ss[0].hw, ss[0].l.time, first)
    requires xs[m].Fire? && ss[m].hw.queue != [] && ss[m + 1].hw.queue == []
    requires NoRequest(xs, m, n)
    ensures ss[n].hw.queue == [] && EmptySince(ss, xs, n, first) == xs[m].env.picos
    ensures ss[n].hw.sig.en <==> AllBefore(xs, m, n, xs[m].env.picos + k.period / 4)
    decreases n
  {
    if n == m + 1 {
      EmptyUp(k, ss, xs, m, first);
    } else {
      assert Timely(k, ss, xs, n - 1);
      EnableFalls(k, ss, xs, m, n - 1, first);
      assert !xs[n - 1].Request?;
      hide Run, Timely, Timed, NoRequest, AllBefore;
      OneMoreTurn(xs, m, n - 1, xs[m].env.picos + k.period / 4);
      if xs[n - 1].Fire? {
        RoundLaw(k, ss, xs, n - 1, first);
      } else {
        OthersKeep(k, ss, xs, n - 1);
      }
      assert ss[n].hw.queue == [];
    }
  }

  ghost predicate NoRequest(xs: seq<Turn>, m: nat, n: nat) {
    n <= |xs| && forall j {:trigger xs[j]} :: m < j < n ==> !xs[j].Request?
  }

  /** No round after m falls on t or later. */
  ghost predicate AllBefore(xs: seq<Turn>, m: nat, n: nat, t: nat) {
    n <= |xs| && forall j {:trigger xs[j]} :: m < j < n && xs[j].Fire? ==> xs[j].env.picos < t
  }

  lemma OneMoreTurn(xs: seq<Turn>, m: nat, n: nat, t: nat)
    requires m < n < |xs|
    ensures AllBefore(xs, m, n + 1, t) <==> AllBefore(xs, m, n, t) && (xs[n].Fire? ==> xs[n].env.picos < t)
  {
  }

  lemma OthersKeep(k: Port, ss: seq<Sys>, xs: seq<Turn>, n: nat)
    requires Run(k, ss, xs) && n < |xs| && xs[n].Others?
    ensures n + 1 < |ss| && ss[n + 1].hw == ss[n].hw
  {
    assert ss[n + 1] == Next(k, ss[n], xs[n]);
  }

  /** When the queue runs empty the line is still up. */
  lemma EmptyUp(k: Port, ss: seq<Sys>, xs: seq<Turn>, m: nat, first: nat)
    requires Run(k, ss, xs) && k.period >= 4 && m < |xs| && Timely(k, ss, xs, m + 1)
    requires Timed(k, ss[0].hw, ss[0].l.time, first)
    requires xs[m].Fire? && ss[m].hw.queue != [] && ss[m + 1].hw.queue == []
    ensures ss[m + 1].hw.sig.en
  {
    RunKeeps(k, ss, xs, m);
    PortBounds(k, ss[m]);
    RunKeeps(k, ss, xs, m + 1);
    hide Run, Timely, SysInv;
    RoundLaw(k, ss, xs, m, first);
  }

  /** A wait that ends no later than sim_wait_time asks for misses no poll. */
  lemma WaitIsTimely(k: Port, s: Sys, env: Env, now: nat, request: nat, since: nat)
    requires SysInv(k, s) && Timed(k, s.hw, s.l.time, since) && NonePast(s.l.time, now, s.l.listed)
    requires Unsubscribed(k, env) && env.picos <= now + WaitDelay(s.l.time, now, s.l.listed, request)
    ensures OnTime(k, env, s.hw, s.l.time)
  {
    PortBounds(k, s);
    hide Ordered, NonePast, WaitDelay;
    if s.hw.queue != [] { WaitsInTime(s.l.time, now, s.l.listed, request, env.picos, k.ack); }
  }
}
