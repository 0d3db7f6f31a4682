/**
  When the acknowledge line goes down: the level of the line over a run, from the moment the bus is
  disabled to the delayed drop.
 */
module MemBusDrop {
  import opened Addresses
  import opened UtList
  import opened SchedulerSpec
  import opened SchedulerProof
  import opened Scheduler
  import opened MemBus
  import opened MemBusTable
  import opened MemBusProof
  import opened MemBusRuns
  import opened MemBusAck

  // ----- the level of the line -----

  /** The acknowledge line after some outputs: what was written last. */
  ghost function LevelAfter(outs: seq<Out>, v: bool): bool
    decreases |outs|
  {
    if outs == [] then v
    else if outs[|outs| - 1].SetAck? then outs[|outs| - 1].v
    else LevelAfter(outs[..|outs| - 1], v)
  }

  lemma {:induction false} LevelConcat(a: seq<Out>, c: seq<Out>, v: bool)
    ensures LevelAfter(a + c, v) == LevelAfter(c, LevelAfter(a, v))
    decreases |c|
  {
    if c == [] {
      assert a + c == a;
    } else {
      assert (a + c)[..|a + c| - 1] == a + c[..|c| - 1];
      LevelConcat(a, c[..|c| - 1], v);
    }
  }

  lemma LevelLow(v: bool)
    ensures !LevelAfter([SetAck(false), FloatDout], v)
  {
    var o := [SetAck(false), FloatDout];
    assert o[..1] == [SetAck(false)];
    assert o[|o| - 1] == FloatDout;
    assert LevelAfter(o, v) == LevelAfter(o[..1], v);
  }

  lemma LevelHigh(d: Out, v: bool)
    ensures LevelAfter([d, SetAck(true)], v) && LevelAfter([SetAck(true)], v)
  {
  }

  /** The level after the read/write callback: up after an acknowledgement, else down if it resets or
      drops the line at once, else as it was. */
  lemma RwLevel(k: Hooks, b: Bus, i: Inputs, picos: nat, time: nat, dropTime: nat)
    ensures LevelAfter(ReadWrite(k, b, i, picos, time, dropTime).outs, i.ack) <==>
            || Acks(b, i, picos, time)
            || (i.ack && !Resets(b, i) && !(Stays(b, i) && b.ackDropDelay == 0))
  {
    RwOuts(k, b, i, picos, time, dropTime);
    hide ReadWrite, Lanes, Invalid, Asks;
    var low := [SetAck(false), FloatDout];
    LevelConcat(Lowering(b, i), Raising(b, i, picos, time), i.ack);
    LevelLow(i.ack);
    LevelLow(false);
    var up := Raising(b, i, picos, time);
    assert |up| == 2 ==> up == [up[0], SetAck(true)];
    LevelHigh(if |up| == 2 then up[0] else FloatDout, LevelAfter(Lowering(b, i), i.ack));
    LevelConcat(low, low, i.ack);
    assert low + [] == low && [] + low == low;
  }

  // ----- one call -----

  /** No bus input changes, no hook of the bus is subscribed to a changed signal, and the control
      signals are legal. */
  ghost predicate Steady(k: Hooks, e: Env, i: Inputs) {
    && !i.changed && !Invalid(i)
    && (k.rw in e.sub ==> e.events * e.sub[k.rw] == {})
    && (k.drop in e.sub ==> e.events * e.sub[k.drop] == {})
  }

  /** The bus is disabled, with nothing pending, while the line is up. */
  ghost predicate Disables(k: Hooks, e: Env, b: Bus, i: Inputs) {
    && i.changed && i.en == Some(false) && (i.hasWr ==> i.wr.Some? && i.rd.Some?) && i.ack && !b.ackPending
    && k.rw in e.sub && e.events * e.sub[k.rw] != {}
    && (k.drop in e.sub ==> e.events * e.sub[k.drop] == {})
  }

  lemma SteadyCall(k: Hooks, e: Env, r: Round, b: Bus, i: Inputs)
    requires Steady(k, e, i) && !b.ackPending
    ensures var f := RwEffect(k, e, r, b, i); f.bus == b && f.outs == [] && f.acts == []
  {
  }

  lemma DisablesCall(k: Hooks, e: Env, r: Round, b: Bus, i: Inputs)
    requires Disables(k, e, b, i)
    ensures var f, d := RwEffect(k, e, r, b, i), b.ackDropDelay;
            && f.bus == (if d != 0 && T(r.time, k.drop) == 0 then b.(ackDropOp := b.opCount) else b)
            && f.outs == (if d == 0 then [SetAck(false), FloatDout] else [])
            && f.acts == (if d != 0 && T(r.time, k.drop) == 0 then [Add(k.drop, e.picos + d * 1000)] else [])
  {
  }

  /** Whether the drop hook is due, by its time alone. */
  ghost predicate DropDue(k: Hooks, e: Env, r: Round) { 0 < T(r.time, k.drop) <= e.picos }

  lemma DropDueIs(k: Hooks, e: Env, r: Round)
    requires k.drop in e.sub ==> e.events * e.sub[k.drop] == {}
    ensures Due(e, r.time, k.drop) <==> DropDue(k, e, r)
  {
  }

  /** Actions on other hooks leave the drop hook and the cancel hook where they were. */
  lemma {:induction false} ActsAside(k: Hooks, r: Round, acts: seq<Action>)
    requires forall j :: 0 <= j < |acts| ==> acts[j].g != k.drop && acts[j].g != k.cancel
    ensures var r' := ActAll(r, acts);
            && T(r'.time, k.drop) == T(r.time, k.drop) && (k.cancel in r'.imm <==> k.cancel in r.imm)
    decreases |acts|
  {
    if acts != [] {
      assert forall j :: 0 <= j < |acts[1..]| ==> acts[1..][j] == acts[j + 1];
      ActsAside(k, Act(r, acts[0]), acts[1..]);
    }
  }

  lemma CallAside(k: Hooks, e: Env, r: Round, h: Ptr, o: Outcome)
    requires h != k.drop && forall j :: 0 <= j < |o.acts| ==> o.acts[j].g != k.drop && o.acts[j].g != k.cancel
    ensures var r' := Called(e, r, h, o);
            T(r'.time, k.drop) == T(r.time, k.drop) && (k.cancel in r'.imm <==> k.cancel in r.imm)
  {
    hide ActAll;
    ActsAside(k, r.(time := r.time[h := o.newTime], called := r.called + [h]), o.acts);
  }

  lemma DropCalled(k: Hooks, e: Env, r: Round, t: nat)
    ensures var r' := Called(e, r, k.drop, Outcome(true, t, []));
            T(r'.time, k.drop) == 0 && r'.imm == r.imm
  {
  }

  // ----- a steady round -----

  /** What a call in a steady round does: only a due drop hook does anything. */
  lemma SteadyStep(k: Hooks, e: Env, r: Round, h: Ptr, b: Bus, i: Inputs, o: Outcome)
    requires HooksOk(k) && Steady(k, e, i) && !b.ackPending && OutcomeOf(k, e, r, h, b, i, o)
    ensures var r' := Called(e, r, h, o);
            && BusNext(k, e, r, h, b, i) == b
            && CallOuts(k, e, r, h, b, i) == (if h == k.drop then DropOuts(b, i) else [])
            && T(r'.time, k.drop) == (if h == k.drop then 0 else T(r.time, k.drop))
            && (k.cancel in r'.imm <==> k.cancel in r.imm)
  {
    SteadyCall(k, e, r, b, i);
    hide Called, RwEffect, DropOuts, Steady;
    if h == k.drop {
      DropCalled(k, e, r, T(r.time, k.drop));
    } else {
      CallAside(k, e, r, h, o);
    }
  }

  lemma {:induction false} VisitSteady(k: Hooks, e: Env, rest: seq<Ptr>, r: Round, os: seq<Outcome>, b: Bus, i: Inputs)
    requires HooksOk(k) && Distinct(rest) && Follows(k, e, rest, r, os, b, i) && Steady(k, e, i) && !b.ackPending
    ensures var r', due := Visit(e, rest, r, os), k.drop in rest && DropDue(k, e, r);
            && BusAfter(k, e, rest, r, os, b, i) == b
            && OutsOf(k, e, rest, r, os, b, i) == (if due then DropOuts(b, i) else [])
            && T(r'.time, k.drop) == (if due then 0 else T(r.time, k.drop))
            && (k.cancel in r'.imm <==> k.cancel in r.imm)
    decreases |rest|
  {
    if rest != [] {
      hide Called, CallOuts, BusNext, OutcomeOf, Distinct, DropOuts, Due;
      TailOf(rest);
      DropDueIs(k, e, r);
      var h := rest[0];
      if Due(e, r.time, h) {
        SteadyStep(k, e, r, h, b, i, os[0]);
        hide Steady;
        VisitSteady(k, e, rest[1..], Called(e, r, h, os[0]), os[1..], b, i);
        assert DropOuts(b, i) + [] == DropOuts(b, i) && [] + DropOuts(b, i) == DropOuts(b, i);
      } else {
        hide Steady;
        VisitSteady(k, e, rest[1..], r.(kept := r.kept + [h]), os, b, i);
      }
    }
  }

  /** Without the cancel hook, immediate callbacks leave the drop hook alone. */
  lemma ScriptsAside(k: Hooks, imm: seq<Ptr>, d: nat, scripts: seq<seq<Action>>)
    requires HooksOk(k) && ScriptsOf(k, imm, d, scripts) && k.cancel !in imm
    ensures forall j :: 0 <= j < |Flat(scripts)| ==> Flat(scripts)[j].g != k.drop
  {
    forall j, m | 0 <= j < |scripts| && 0 <= m < |scripts[j]|
      ensures scripts[j][m].g != k.drop
    {
      assert imm[j] in imm;
      assert Foreign(k, scripts[j]);
    }
    FlatElsewhere(scripts, k.drop);
  }

  /** A steady round with nothing pending: the drop hook is called once its time has come, lowers the
      line if it is up, and is no longer timed.  Nothing else happens to the bus. */
  lemma SteadyTurn(k: Hooks, s: Sys, x: Turn)
    requires SysInv(k, s) && TurnOk(k, s, x) && Steady(k, x.e, x.i) && !s.b.ackPending
    ensures var t, s' := T(s.l.time, k.drop), Next(k, s, x);
            && s'.b == s.b
            && TurnOuts(k, s, x) == (if 0 < t <= x.e.picos && x.i.ack then [SetAck(false), FloatDout] else [])
            && T(s'.l.time, k.drop) == if t <= x.e.picos then 0 else t
  {
    BetweenKeeps(k, s, x);
    hide Ordered, Distinct, ImmAllowed, Visit, Follows, Obeys, ScriptsOf, ListAfter, BusAfter, ImmAll, OutsOf, Steady;
    var l, r := Before(s, x), Visited(s, x);
    VisitSteady(k, x.e, l.listed, Begin(l.time), x.os, s.b, x.i);
    ScriptsAside(k, r.imm, T(r.time, k.drop), x.scripts);
    ImmElsewhere(Live(ListAfter(r), r.time), Flat(x.scripts), k.drop);
  }

  // ----- the round that disables the bus -----

  lemma DisablesStep(k: Hooks, e: Env, r: Round, h: Ptr, b: Bus, i: Inputs, o: Outcome)
    requires HooksOk(k) && Disables(k, e, b, i) && h != k.drop && OutcomeOf(k, e, r, h, b, i, o)
    requires k.drop !in r.imm && k.cancel !in r.imm
    ensures var r', d := Called(e, r, h, o), b.ackDropDelay;
            && (h != k.rw ==> BusNext(k, e, r, h, b, i) == b && CallOuts(k, e, r, h, b, i) == []
                              && T(r'.time, k.drop) == T(r.time, k.drop))
            && (h == k.rw ==>
                  && BusNext(k, e, r, h, b, i) ==
                     (if d != 0 && T(r.time, k.drop) == 0 then b.(ackDropOp := b.opCount) else b)
                  && CallOuts(k, e, r, h, b, i) == (if d == 0 then [SetAck(false), FloatDout] else [])
                  && T(r'.time, k.drop) ==
                     (if d != 0 && T(r.time, k.drop) == 0 then e.picos + d * 1000 else T(r.time, k.drop)))
            && k.drop !in r'.imm && k.cancel !in r'.imm
  {
    DisablesCall(k, e, r, b, i);
    hide RwEffect, Disables;
    if h == k.rw && o.acts != [] {
      RwAdds(k, e, r, o, e.picos + b.ackDropDelay * 1000);
    } else {
      hide Called;
      CallAside(k, e, r, h, o);
      DropStaysOut(k, e, r, h, o);
    }
  }

  lemma {:induction false} ActsNotImm(r: Round, acts: seq<Action>, g: Ptr)
    requires g !in r.imm && forall j :: 0 <= j < |acts| ==> acts[j].g != g
    ensures g !in ActAll(r, acts).imm
    decreases |acts|
  {
    if acts != [] {
      assert forall j :: 0 <= j < |acts[1..]| ==> acts[1..][j] == acts[j + 1];
      ActsNotImm(Act(r, acts[0]), acts[1..], g);
    }
  }

  lemma DropStaysOut(k: Hooks, e: Env, r: Round, h: Ptr, o: Outcome)
    requires k.drop !in r.imm && forall j :: 0 <= j < |o.acts| ==> o.acts[j].g != k.drop
    ensures k.drop !in Called(e, r, h, o).imm
  {
    hide ActAll;
    ActsNotImm(r.(time := r.time[h := o.newTime], called := r.called + [h]), o.acts, k.drop);
  }

  lemma RwAdds(k: Hooks, e: Env, r: Round, o: Outcome, t: nat)
    requires HooksOk(k) && o.acts == [Add(k.drop, t)] && !o.retire
    ensures var r' := Called(e, r, k.rw, o); T(r'.time, k.drop) == t && r'.imm == r.imm
  {
    var r1 := r.(time := r.time[k.rw := o.newTime], called := r.called + [k.rw]);
    assert o.acts[0] == Add(k.drop, t) && o.acts[1..] == [];
    assert ActAll(r1, o.acts) == ActAll(Act(r1, o.acts[0]), []);
    hide ActAll;
  }

  /** The drop hook is not due, so the rw hook's call is all that matters. */
  lemma {:induction false} VisitDisables(k: Hooks, e: Env, rest: seq<Ptr>, r: Round, os: seq<Outcome>, b: Bus,
                                         i: Inputs)
    requires HooksOk(k) && Distinct(rest) && k.rw in rest && Follows(k, e, rest, r, os, b, i) && Disables(k, e, b, i)
    requires (T(r.time, k.drop) == 0 ==> k.drop !in rest) && !DropDue(k, e, r) && k.drop !in r.imm && k.cancel !in r.imm
    ensures var r', d := Visit(e, rest, r, os), b.ackDropDelay;
            var adds := d != 0 && T(r.time, k.drop) == 0;
            && BusAfter(k, e, rest, r, os, b, i) == (if adds then b.(ackDropOp := b.opCount) else b)
            && OutsOf(k, e, rest, r, os, b, i) == (if d == 0 then [SetAck(false), FloatDout] else [])
            && T(r'.time, k.drop) == (if adds then e.picos + d * 1000 else T(r.time, k.drop))
            && k.cancel !in r'.imm
    decreases |rest|
  {
    assert Due(e, r.time, k.rw);
    DropDueIs(k, e, r);
    hide Called, CallOuts, BusNext, OutcomeOf, Distinct, Due;
    TailOf(rest);
    var h := rest[0];
    if Due(e, r.time, h) {
      DisablesStep(k, e, r, h, b, i, os[0]);
      var r1, b1 := Called(e, r, h, os[0]), BusNext(k, e, r, h, b, i);
      var o := CallOuts(k, e, r, h, b, i);
      if h == k.rw {
        AfterDisabled(k, e, rest[1..], r1, os[1..], b1, i);
        assert o + [] == o;
      } else {
        hide Disables;
        VisitDisables(k, e, rest[1..], r1, os[1..], b1, i);
        assert [] + OutsOf(k, e, rest[1..], r1, os[1..], b1, i) == OutsOf(k, e, rest[1..], r1, os[1..], b1, i);
      }
    } else {
      hide Disables;
      VisitDisables(k, e, rest[1..], r.(kept := r.kept + [h]), os, b, i);
    }
  }

  /** After the rw hook's visit, with the drop hook not due, nothing more happens to the bus. */
  lemma {:induction false} AfterDisabled(k: Hooks, e: Env, rest: seq<Ptr>, r: Round, os: seq<Outcome>, b: Bus,
                                         i: Inputs)
    requires HooksOk(k) && Distinct(rest) && k.rw !in rest && Follows(k, e, rest, r, os, b, i)
    requires k.drop in e.sub ==> e.events * e.sub[k.drop] == {}
    requires k.drop in rest ==> !DropDue(k, e, r)
    requires k.cancel !in r.imm
    ensures var r' := Visit(e, rest, r, os);
            && BusAfter(k, e, rest, r, os, b, i) == b && OutsOf(k, e, rest, r, os, b, i) == []
            && T(r'.time, k.drop) == T(r.time, k.drop) && k.cancel !in r'.imm
    decreases |rest|
  {
    if rest != [] {
      DropDueIs(k, e, r);
      TailOf(rest);
      assert rest[0] in rest;
      hide Called, Distinct, Due, RwEffect;
      var h := rest[0];
      if Due(e, r.time, h) {
        CallAside(k, e, r, h, os[0]);
        AfterDisabled(k, e, rest[1..], Called(e, r, h, os[0]), os[1..], b, i);
      } else {
        AfterDisabled(k, e, rest[1..], r.(kept := r.kept + [h]), os, b, i);
      }
    }
  }

  /** The round in which the bus is disabled, the line still being up: with no drop delay the line goes
      down; otherwise a drop is scheduled for ackDropDelay * 1000 ps later, unless one is already. */
  lemma DisablesTurn(k: Hooks, s: Sys, x: Turn)
    requires SysInv(k, s) && TurnOk(k, s, x) && Disables(k, x.e, s.b, x.i)
    requires T(s.l.time, k.drop) == 0 || T(s.l.time, k.drop) > x.e.picos
    ensures var t, d, s' := T(s.l.time, k.drop), s.b.ackDropDelay, Next(k, s, x);
            && TurnOuts(k, s, x) == (if d == 0 then [SetAck(false), FloatDout] else [])
            && T(s'.l.time, k.drop) == (if d != 0 && t == 0 then x.e.picos + d * 1000 else t)
            && s'.b == if d != 0 && t == 0 then s.b.(ackDropOp := s.b.opCount) else s.b
  {
    BetweenKeeps(k, s, x);
    hide Ordered, Distinct, ImmAllowed, Visit, Follows, Obeys, ScriptsOf, ListAfter, BusAfter, ImmAll, OutsOf, Disables;
    var l, r := Before(s, x), Visited(s, x);
    VisitDisables(k, x.e, l.listed, Begin(l.time), x.os, s.b, x.i);
    ScriptsAside(k, r.imm, T(r.time, k.drop), x.scripts);
    ImmElsewhere(Live(ListAfter(r), r.time), Flat(x.scripts), k.drop);
  }

  // ----- a round with an acknowledgement -----

  /** After the rw hook's call the drop hook, if it still comes, finds the count changed. */
  lemma {:induction false} AfterAck(k: Hooks, e: Env, rest: seq<Ptr>, r: Round, os: seq<Outcome>, b: Bus, i: Inputs)
    requires HooksOk(k) && k.rw !in rest && b.ackDropOp != b.opCount
    ensures OutsOf(k, e, rest, r, os, b, i) == [] && BusAfter(k, e, rest, r, os, b, i) == b
    decreases |rest|
  {
    if rest != [] {
      hide Called, RwEffect, Due;
      TailOf(rest);
      assert rest[0] in rest;
      if Due(e, r.time, rest[0]) && os != [] {
        AfterAck(k, e, rest[1..], Called(e, r, rest[0], os[0]), os[1..], b, i);
      } else {
        AfterAck(k, e, rest[1..], r.(kept := r.kept + [rest[0]]), os, b, i);
      }
    }
  }

  lemma AckCall(k: Hooks, e: Env, r: Round, b: Bus, i: Inputs, v: bool)
    requires b.ackDropOp <= b.opCount && RwEffect(k, e, r, b, i).bus.opCount != b.opCount
    ensures LevelAfter(RwEffect(k, e, r, b, i).outs, v)
    ensures var b' := RwEffect(k, e, r, b, i).bus; b'.ackDropOp < b'.opCount
  {
    var f := RwEffect(k, e, r, b, i);
    var t, d := T(r.time, k.rw), T(r.time, k.drop);
    RwOuts(k, b, i, e.picos, t, d);
    RwOperation(k, b, i, e.picos, t, d);
    RwCounters(k, e, r, b, i);
    hide ReadWrite, Lanes, Invalid, Asks, Operates, Resets;
    var up := Raising(b, i, e.picos, t);
    LevelConcat(Lowering(b, i), up, v);
    assert |up| == 2 ==> up == [up[0], SetAck(true)];
    LevelHigh(if |up| == 2 then up[0] else FloatDout, LevelAfter(Lowering(b, i), v));
  }

  lemma {:induction false} VisitAckLevel(k: Hooks, e: Env, rest: seq<Ptr>, r: Round, os: seq<Outcome>, b: Bus,
                                         i: Inputs, v: bool)
    requires HooksOk(k) && Distinct(rest) && b.ackDropOp <= b.opCount
    requires BusAfter(k, e, rest, r, os, b, i).opCount != b.opCount
    ensures LevelAfter(OutsOf(k, e, rest, r, os, b, i), v)
    decreases |rest|
  {
    if rest != [] {
      hide Called, CallOuts, RwEffect, Distinct, Due;
      TailOf(rest);
      var h := rest[0];
      if Due(e, r.time, h) && os != [] {
        var r1, b1, o := Called(e, r, h, os[0]), BusNext(k, e, r, h, b, i), CallOuts(k, e, r, h, b, i);
        LevelConcat(o, OutsOf(k, e, rest[1..], r1, os[1..], b1, i), v);
        if h == k.rw && b1.opCount != b.opCount {
          AckCall(k, e, r, b, i, v);
          RwOutsIs(k, e, r, b, i);
          AfterAck(k, e, rest[1..], r1, os[1..], b1, i);
        } else if h == k.rw {
          CountsOnce(k, e, rest[1..], r1, os[1..], b1, i);
        } else {
          VisitAckLevel(k, e, rest[1..], r1, os[1..], b1, i, LevelAfter(o, v));
        }
      } else {
        VisitAckLevel(k, e, rest[1..], r.(kept := r.kept + [h]), os, b, i, v);
      }
    }
  }

  lemma RwOutsIs(k: Hooks, e: Env, r: Round, b: Bus, i: Inputs)
    ensures CallOuts(k, e, r, k.rw, b, i) == RwEffect(k, e, r, b, i).outs
  {
    hide RwEffect;
  }

  lemma {:induction false} CountsOnce(k: Hooks, e: Env, rest: seq<Ptr>, r: Round, os: seq<Outcome>, b: Bus, i: Inputs)
    requires k.rw !in rest
    ensures BusAfter(k, e, rest, r, os, b, i) == b
    decreases |rest|
  {
    if rest != [] {
      hide Called, RwEffect, Due;
      TailOf(rest);
      assert rest[0] in rest;
      if Due(e, r.time, rest[0]) && os != [] {
        CountsOnce(k, e, rest[1..], Called(e, r, rest[0], os[0]), os[1..], b, i);
      } else {
        CountsOnce(k, e, rest[1..], r.(kept := r.kept + [rest[0]]), os, b, i);
      }
    }
  }

  /** A round that acknowledges an operation leaves the line up, whatever drop hook runs in it. */
  lemma AckEndsHigh(k: Hooks, s: Sys, x: Turn, v: bool)
    requires SysInv(k, s) && TurnOk(k, s, x) && s.b.ackDropOp <= s.b.opCount
    requires Next(k, s, x).b.opCount != s.b.opCount
    ensures LevelAfter(TurnOuts(k, s, x), v)
  {
    BetweenKeeps(k, s, x);
    hide Ordered, Distinct, ImmAllowed, Visit, Follows, Obeys, ScriptsOf, ListAfter, BusAfter, ImmAll, OutsOf;
    VisitAckLevel(k, x.e, Before(s, x).listed, Begin(Before(s, x).time), x.os, s.b, x.i, v);
  }

  // ----- whole runs -----

  /** The level of the line when turn j begins. */
  ghost function Level(k: Hooks, ss: seq<Sys>, xs: seq<Turn>, v: bool, j: nat): bool
    requires j <= |xs| && |ss| == |xs| + 1
    decreases j
  {
    if j == 0 then v else LevelAfter(TurnOuts(k, ss[j - 1], xs[j - 1]), Level(k, ss, xs, v, j - 1))
  }

  /** The callbacks see the level of the line. */
  ghost predicate LineSeen(k: Hooks, ss: seq<Sys>, xs: seq<Turn>, v: bool) {
    |ss| == |xs| + 1 && forall j {:trigger xs[j]} :: 0 <= j < |xs| ==> xs[j].i.ack == Level(k, ss, xs, v, j)
  }

  ghost predicate SteadyIn(k: Hooks, xs: seq<Turn>, lo: nat, hi: nat) {
    hi <= |xs| && forall j {:trigger xs[j]} :: lo <= j < hi ==> Steady(k, xs[j].e, xs[j].i)
  }

  lemma SteadyAt(k: Hooks, ss: seq<Sys>, xs: seq<Turn>, v: bool, j: nat, lo: nat, hi: nat)
    requires Run(k, ss, xs) && LineSeen(k, ss, xs, v) && SteadyIn(k, xs, lo, hi) && lo <= j < hi && !ss[j].b.ackPending
    ensures |ss| == |xs| + 1 && j < |xs|
    ensures var t, up := T(ss[j].l.time, k.drop), Level(k, ss, xs, v, j);
            && ss[j + 1].b == ss[j].b
            && Level(k, ss, xs, v, j + 1) == (up && !(0 < t <= xs[j].e.picos))
            && T(ss[j + 1].l.time, k.drop) == if t <= xs[j].e.picos then 0 else t
  {
    RunKeeps(k, ss, xs, j);
    assert TurnAt(k, ss, xs, j + 1);
    hide SysInv, TurnOk, Next, Run, Steady, TurnOuts;
    SteadyTurn(k, ss[j], xs[j]);
    LevelLow(Level(k, ss, xs, v, j));
    assert xs[j].i.ack == Level(k, ss, xs, v, j);
  }

  /** Before the drop hook's time the line stays up. */
  lemma {:induction false} UpUntil(k: Hooks, ss: seq<Sys>, xs: seq<Turn>, v: bool, lo: nat, n: nat, t: nat)
    requires Run(k, ss, xs) && LineSeen(k, ss, xs, v) && |ss| == |xs| + 1 && lo <= n <= |xs|
    requires SteadyIn(k, xs, lo, n) && EarlyIn(xs, lo, n, t)
    requires !ss[lo].b.ackPending && T(ss[lo].l.time, k.drop) == t && Level(k, ss, xs, v, lo)
    ensures ss[n].b == ss[lo].b && T(ss[n].l.time, k.drop) == t && Level(k, ss, xs, v, n)
    decreases n - lo
  {
    hide Run, LineSeen, Steady, Level;
    if lo < n {
      UpUntil(k, ss, xs, v, lo, n - 1, t);
      SteadyAt(k, ss, xs, v, n - 1, lo, n);
      assert xs[n - 1].e.picos < t;
    }
  }

  /** Once the line is down and no drop is scheduled, it stays down. */
  lemma {:induction false} DownAfter(k: Hooks, ss: seq<Sys>, xs: seq<Turn>, v: bool, lo: nat, n: nat)
    requires Run(k, ss, xs) && LineSeen(k, ss, xs, v) && |ss| == |xs| + 1 && lo <= n <= |xs| && SteadyIn(k, xs, lo, n)
    requires !ss[lo].b.ackPending && T(ss[lo].l.time, k.drop) == 0 && !Level(k, ss, xs, v, lo)
    ensures ss[n].b == ss[lo].b && T(ss[n].l.time, k.drop) == 0 && !Level(k, ss, xs, v, n)
    decreases n - lo
  {
    hide Run, LineSeen, Steady, Level;
    if lo < n {
      DownAfter(k, ss, xs, v, lo, n - 1);
      SteadyAt(k, ss, xs, v, n - 1, lo, n);
    }
  }

  /**
    A drop scheduled for time t, with nothing pending and steady inputs: the line is up until the first
    round at or past t, goes down in that round, and stays down.
   */
  lemma DropStory(k: Hooks, ss: seq<Sys>, xs: seq<Turn>, v: bool, lo: nat, m: nat, n: nat, t: nat)
    requires Run(k, ss, xs) && LineSeen(k, ss, xs, v) && |ss| == |xs| + 1 && lo <= m < n <= |xs|
    requires SteadyIn(k, xs, lo, n) && EarlyIn(xs, lo, m, t) && xs[m].e.picos >= t > 0
    requires !ss[lo].b.ackPending && T(ss[lo].l.time, k.drop) == t && Level(k, ss, xs, v, lo)
    ensures forall j {:trigger Level(k, ss, xs, v, j)} :: lo <= j <= n ==> (Level(k, ss, xs, v, j) <==> j <= m)
    ensures T(ss[m].l.time, k.drop) == t && ss[m].b == ss[lo].b
  {
    hide Run, LineSeen, Steady, Level;
    UpUntil(k, ss, xs, v, lo, m, t);
    SteadyAt(k, ss, xs, v, m, lo, n);
    forall j {:trigger Level(k, ss, xs, v, j)} | lo <= j <= n
      ensures Level(k, ss, xs, v, j) <==> j <= m
    {
      if j <= m {
        UpUntil(k, ss, xs, v, lo, j, t);
      } else {
        DownAfter(k, ss, xs, v, m + 1, j);
      }
    }
  }

  lemma WaitKeepsDrop(k: Hooks, s: Sys, x: Turn, now: nat, request: nat)
    requires SysInv(k, s) && TurnOk(k, s, x) && PacedOnce(k, s, x, now, request) && NonePast(s.l.time, now, s.l.listed)
    ensures T(s.l.time, k.drop) == 0 || x.e.picos <= T(s.l.time, k.drop)
  {
    BetweenKeeps(k, s, x);
    BetweenNonePast(k, s, x, now);
    hide Ordered, Distinct, ImmAllowed, Visit, Follows, Obeys, ScriptsOf, ListAfter, ImmAll, NonePast, WaitDelay,
         Future, FutureForeign, FutureScripts;
    var l := Before(s, x);
    if T(s.l.time, k.drop) != 0 { WaitsInTime(l.time, now, l.listed, request, x.e.picos, k.drop); }
  }

  /**
    The bus is disabled in the first round, the line being up and no drop scheduled; the inputs are
    steady from then on, and all waits are those of sim_wait_time.  Let round m be the first at or past
    the end of the drop delay.  Then it is ackDropDelay * 1000 ps after the first one exactly; the line
    is up until round m, down after it, and stays down.
   */
  lemma DroppedOnTime(k: Hooks, ss: seq<Sys>, xs: seq<Turn>, start: nat, request: seq<nat>, m: nat, n: nat)
    requires Run(k, ss, xs) && Paced(k, ss, xs, start, request) && LineSeen(k, ss, xs, true) && 0 < m < n <= |xs|
    requires Disables(k, xs[0].e, ss[0].b, xs[0].i) && T(ss[0].l.time, k.drop) == 0 && ss[0].b.ackDropDelay > 0
    requires SteadyIn(k, xs, 1, n) && EarlyIn(xs, 1, m, xs[0].e.picos + ss[0].b.ackDropDelay * 1000)
    requires xs[m].e.picos >= xs[0].e.picos + ss[0].b.ackDropDelay * 1000
    ensures xs[m].e.picos == xs[0].e.picos + ss[0].b.ackDropDelay * 1000
    ensures forall j {:trigger Level(k, ss, xs, true, j)} :: 0 <= j <= n ==> (Level(k, ss, xs, true, j) <==> j <= m)
  {
    var t := xs[0].e.picos + ss[0].b.ackDropDelay * 1000;
    assert !ss[0].b.ackPending;
    FirstDisables(k, ss, xs, true);
    RunKeeps(k, ss, xs, m);
    assert TurnAt(k, ss, xs, m + 1);
    PacedNonePast(k, ss, xs, start, request, m);
    assert PacedOnce(k, ss[m], xs[m], Now(xs, start, m), request[m]);
    hide SysInv, TurnOk, Next, Run, Paced, PacedOnce, Steady, Disables, LineSeen, NonePast;
    DropStory(k, ss, xs, true, 1, m, n, t);
    WaitKeepsDrop(k, ss[m], xs[m], Now(xs, start, m), request[m]);
    assert Level(k, ss, xs, true, 0);
  }

  /** What the first round does when it disables the bus. */
  lemma FirstDisables(k: Hooks, ss: seq<Sys>, xs: seq<Turn>, v: bool)
    requires Run(k, ss, xs) && |xs| > 0 && Disables(k, xs[0].e, ss[0].b, xs[0].i) && T(ss[0].l.time, k.drop) == 0
    ensures |ss| == |xs| + 1
    ensures var d := ss[0].b.ackDropDelay;
            && !ss[1].b.ackPending
            && T(ss[1].l.time, k.drop) == (if d == 0 then 0 else xs[0].e.picos + d * 1000)
            && Level(k, ss, xs, v, 1) == (d != 0 && v)
  {
    assert !ss[0].b.ackPending;
    assert TurnAt(k, ss, xs, 1);
    hide SysInv, TurnOk, Next, Disables, TurnOuts;
    DisablesTurn(k, ss[0], xs[0]);
    LevelLow(v);
    assert Level(k, ss, xs, v, 0) == v;
  }

  /** Without a drop delay the line goes down in the round that disables the bus, and stays down. */
  lemma DroppedAtOnce(k: Hooks, ss: seq<Sys>, xs: seq<Turn>, n: nat)
    requires Run(k, ss, xs) && LineSeen(k, ss, xs, true) && 0 < n <= |xs|
    requires Disables(k, xs[0].e, ss[0].b, xs[0].i) && T(ss[0].l.time, k.drop) == 0 && ss[0].b.ackDropDelay == 0
    requires SteadyIn(k, xs, 1, n)
    ensures forall j {:trigger Level(k, ss, xs, true, j)} :: 0 < j <= n ==> !Level(k, ss, xs, true, j)
  {
    FirstDisables(k, ss, xs, true);
    hide Run, LineSeen, Steady, Level, Disables;
    forall j {:trigger Level(k, ss, xs, true, j)} | 0 < j <= n
      ensures !Level(k, ss, xs, true, j)
    {
      DownAfter(k, ss, xs, true, 1, j);
    }
  }

  // ----- such runs exist -----

  /** An instruction bus with the line up that is disabled, and the same signals unchanged. */
  ghost function IdleInputs(changed: bool): Inputs {
    Inputs(changed, Some(false), false, None, None, true, None, None, None, NoRange)
  }

  /** The line was raised, with a drop delay of d. */
  ghost function RaisedSys(k: Hooks, d: nat): Sys { Sys(Live([k.rw], map[]), Bus(false, 1, 0, 0, d, 0)) }

  ghost function DisablingTurn(k: Hooks, d: nat, p: nat): Turn {
    Turn([], Env(p, {1}, map[k.rw := {1}]), IdleInputs(true), [Outcome(false, 0, [Add(k.drop, p + d * 1000)])], [])
  }

  ghost function DroppingTurn(k: Hooks, t: nat): Turn {
    Turn([], Env(t, {}, map[]), IdleInputs(false), [Outcome(true, t, [])], [])
  }

  /** The state between the two rounds. */
  ghost function WaitingSys(k: Hooks, d: nat, t: nat): Sys {
    Sys(Live([k.drop, k.rw], map[k.rw := 0, k.drop := t]), Bus(false, 1, 1, 0, d, 0))
  }

  lemma InsertTwo(time: Times, a: Ptr, c: Ptr)
    requires T(time, a) == 0 && T(time, c) > 0
    ensures InsertAll(time, [a], [c]) == [c, a]
  {
    assert [a][..0] + [c] + [a][0..] == [c, a];
    assert [c][1..] == [];
    assert Insert(time, [a], c) == [c, a];
    assert InsertAll(time, [a], [c]) == InsertAll(time, Insert(time, [a], c), [c][1..]);
  }

  lemma DisablingEffect(k: Hooks, d: nat, p: nat)
    requires HooksOk(k) && d > 0
    ensures var s, x, t := RaisedSys(k, d), DisablingTurn(k, d, p), p + d * 1000;
            && Due(x.e, s.l.time, k.rw)
            && RwEffect(k, x.e, Begin(s.l.time), s.b, x.i) == Effect(WaitingSys(k, d, t).b, [], [Add(k.drop, t)], 0)
  {
    assert 1 in {1} * {1};
  }

  /** The calls of the disabling round: the rw hook's only. */
  lemma DisablingVisit(k: Hooks, d: nat, p: nat)
    requires HooksOk(k) && d > 0
    ensures var s, x, t := RaisedSys(k, d), DisablingTurn(k, d, p), p + d * 1000;
            var rd, r := Begin(s.l.time), Round([k.rw], [k.drop], [], map[k.rw := 0, k.drop := t], [k.rw]);
            && Visit(x.e, [k.rw], rd, x.os) == r
            && Obeys(x.e, [k.rw], rd, x.os) && Follows(k, x.e, [k.rw], rd, x.os, s.b, x.i)
            && FutureForeign(k, x.e, [k.rw], rd, x.os)
            && BusAfter(k, x.e, [k.rw], rd, x.os, s.b, x.i) == WaitingSys(k, d, t).b
  {
    var s, x, t := RaisedSys(k, d), DisablingTurn(k, d, p), p + d * 1000;
    var e, rd, o := x.e, Begin(s.l.time), x.os[0];
    DisablingEffect(k, d, p);
    DisablingCall(k, e, t);
    DisablingActs(k, t);
    hide RwEffect, Due, AllAllowed, Called, ReadWrite;
    assert [k.rw][1..] == [] && x.os[1..] == [] && [k.rw][0] == k.rw;
    var r := Called(e, rd, k.rw, o);
    assert Visit(e, [k.rw], rd, x.os) == Visit(e, [], r, []);
    assert BusAfter(k, e, [k.rw], rd, x.os, s.b, x.i) ==
           BusAfter(k, e, [], r, [], BusNext(k, e, rd, k.rw, s.b, x.i), x.i);
  }

  /** The disabling round of the bus alone. */
  lemma DisablingRound(k: Hooks, d: nat, p: nat)
    requires HooksOk(k) && d > 0
    ensures var s, x, t := RaisedSys(k, d), DisablingTurn(k, d, p), p + d * 1000;
            && SysInv(k, s) && TurnOk(k, s, x) && TurnFuture(k, s, x, 0) && Next(k, s, x) == WaitingSys(k, d, t)
            && Before(s, x) == s.l
  {
    var s, x := RaisedSys(k, d), DisablingTurn(k, d, p);
    DisablingVisit(k, d, p);
    assert Before(s, x) == s.l;
    hide Visit, Obeys, Follows, BusAfter, FutureForeign, InsertAll;
    InsertTwo(Visited(s, x).time, k.rw, k.drop);
    assert Flat([]) == [];
  }

  lemma DisablingActs(k: Hooks, t: nat)
    requires HooksOk(k)
    ensures AllAllowed(Entered(Begin(map[]), k.rw, 0), [k.rw], [Add(k.drop, t)])
  {
    var r1, a := Entered(Begin(map[]), k.rw, 0), Add(k.drop, t);
    assert [a][0] == a && [a][1..] == [];
    assert AllAllowed(Act(r1, a), [k.rw], []);
  }

  lemma DisablingCall(k: Hooks, e: Env, t: nat)
    requires HooksOk(k)
    ensures Called(e, Begin(map[]), k.rw, Outcome(false, 0, [Add(k.drop, t)])) ==
            Round([k.rw], [k.drop], [], map[k.rw := 0, k.drop := t], [k.rw])
  {
    var r1, a := Entered(Begin(map[]), k.rw, 0), Add(k.drop, t);
    assert [a][0] == a && [a][1..] == [];
    assert ActAll(r1, [a]) == ActAll(Act(r1, a), []);
    assert [] + [k.rw] == [k.rw] && [] + [k.drop] == [k.drop];
    assert map[k.rw := 0][k.drop := t][k.rw := 0] == map[k.rw := 0, k.drop := t];
  }

  /** The round in which the drop hook is due. */
  lemma DroppingRound(k: Hooks, d: nat, t: nat)
    requires HooksOk(k) && d > 0 && t > 0 && SysInv(k, WaitingSys(k, d, t))
    ensures var s, x := WaitingSys(k, d, t), DroppingTurn(k, t);
            TurnOk(k, s, x) && Before(s, x) == s.l && forall now :: TurnFuture(k, s, x, now)
  {
    var s, x := WaitingSys(k, d, t), DroppingTurn(k, t);
    var e, rd, o := x.e, Begin(s.l.time), x.os[0];
    assert Due(e, rd.time, k.drop);
    assert [k.drop, k.rw][1..] == [k.rw] && [k.rw][1..] == [] && x.os[1..] == [];
    assert [k.drop, k.rw][0] == k.drop && [k.rw][0] == k.rw;
    var r := Called(e, rd, k.drop, o);
    assert r.imm == [] && T(r.time, k.rw) == 0;
    assert !Due(e, r.time, k.rw);
    hide Called, SysInv;
    var r2 := r.(kept := r.kept + [k.rw]);
    assert Visit(e, [k.rw], r, []) == Visit(e, [k.rw][1..], r2, []);
    assert Visit(e, [], r2, []) == r2;
    assert Obeys(e, [k.rw], r, []);
    assert Follows(k, e, [k.rw], r, [], s.b, x.i);
    assert FutureForeign(k, e, [k.rw][1..], r2, []);
    assert FutureForeign(k, e, [k.rw], r, []);
    hide Due;
    assert Visit(e, [k.drop, k.rw], rd, x.os) == Visit(e, [k.rw], r, []);
    assert Flat([]) == [];
  }

  /** A run in which the line goes down on time occurs, for every drop delay. */
  lemma DropOccurs(k: Hooks, d: nat, p: nat) returns (ss: seq<Sys>, xs: seq<Turn>)
    requires HooksOk(k) && d > 0
    ensures Run(k, ss, xs) && |xs| == 2 && Paced(k, ss, xs, 0, [p, d * 1000]) && LineSeen(k, ss, xs, true)
    ensures Disables(k, xs[0].e, ss[0].b, xs[0].i) && T(ss[0].l.time, k.drop) == 0 && ss[0].b.ackDropDelay == d
    ensures SteadyIn(k, xs, 1, 2) && xs[0].e.picos == p && xs[1].e.picos == p + d * 1000
  {
    var t := p + d * 1000;
    var s0, s1, x0, x1 := RaisedSys(k, d), WaitingSys(k, d, t), DisablingTurn(k, d, p), DroppingTurn(k, t);
    DisablingRound(k, d, p);
    assert SysInv(k, s1) by { hide SysInv, TurnOk, Next; TurnKeeps(k, s0, x0); }
    DroppingRound(k, d, t);
    var s2 := Next(k, s1, x1);
    ss, xs := [s0, s1, s2], [x0, x1];
    assert {1} * {1} == {1};
    assert T(s1.l.time, k.drop) == t && T(s1.l.time, k.rw) == 0;
    var request := [p, d * 1000];
    hide SysInv, TurnOk, Next, TurnFuture, TurnOuts;
    assert TurnAt(k, ss, xs, 1) && TurnAt(k, ss, xs, 2);
    assert Run(k, ss, xs);
    assert Before(ss[0], xs[0]) == s0.l && Before(ss[1], xs[1]) == s1.l;
    hide Before;
    assert PacedOnce(k, ss[0], xs[0], Now(xs, 0, 0), request[0]);
    assert PacedOnce(k, ss[1], xs[1], Now(xs, 0, 1), request[1]);
    FirstDisables(k, ss, xs, true);
    assert Level(k, ss, xs, true, 0) && Level(k, ss, xs, true, 1);
  }
}
