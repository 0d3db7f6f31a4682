/**
  The bus on the scheduler: what every firing round keeps, whichever hook runs first, and when
  an operation is acknowledged.
 */
module MemBusProof {
  import opened Addresses
  import opened UtList
  import opened SchedulerSpec
  import opened SchedulerProof
  import opened Scheduler
  import opened MemBus

  // ----- the callbacks of a round -----

  /** Other callbacks leave the hooks of this bus alone. */
  ghost predicate Foreign(k: Hooks, acts: seq<Action>) {
    forall j :: 0 <= j < |acts| ==> acts[j].g != k.rw && acts[j].g != k.drop && acts[j].g != k.cancel
  }

  ghost function RwEffect(k: Hooks, e: Env, r: Round, b: Bus, i: Inputs): Effect {
    ReadWrite(k, b, i, e.picos, T(r.time, k.rw), T(r.time, k.drop))
  }

  ghost function BusNext(k: Hooks, e: Env, r: Round, h: Ptr, b: Bus, i: Inputs): Bus {
    if h == k.rw then RwEffect(k, e, r, b, i).bus else b
  }

  ghost predicate OutcomeOf(k: Hooks, e: Env, r: Round, h: Ptr, b: Bus, i: Inputs, o: Outcome) {
    if h == k.rw then o == RwOutcome(RwEffect(k, e, r, b, i))
    else if h == k.drop then o == Outcome(true, T(r.time, k.drop), [])
    else Foreign(k, o.acts)
  }

  /** The outcomes of the round are those of the bus callbacks, and foreign ones elsewhere. */
  ghost predicate Follows(k: Hooks, e: Env, rest: seq<Ptr>, r: Round, os: seq<Outcome>, b: Bus, i: Inputs)
    decreases |rest|
  {
    if rest == [] then true
    else if Due(e, r.time, rest[0]) then
      && os != [] && OutcomeOf(k, e, r, rest[0], b, i, os[0])
      && Follows(k, e, rest[1..], Called(e, r, rest[0], os[0]), os[1..], BusNext(k, e, r, rest[0], b, i), i)
    else Follows(k, e, rest[1..], r.(kept := r.kept + [rest[0]]), os, b, i)
  }

  /** The bus after the calls of the round. */
  ghost function BusAfter(k: Hooks, e: Env, rest: seq<Ptr>, r: Round, os: seq<Outcome>, b: Bus, i: Inputs): Bus
    decreases |rest|
  {
    if rest == [] then b
    else if Due(e, r.time, rest[0]) && os != [] then
      BusAfter(k, e, rest[1..], Called(e, r, rest[0], os[0]), os[1..], BusNext(k, e, r, rest[0], b, i), i)
    else BusAfter(k, e, rest[1..], r.(kept := r.kept + [rest[0]]), os, b, i)
  }

  // ----- the invariant -----

  ghost predicate BusMid(k: Hooks, b: Bus, r: Round, rest: seq<Ptr>) {
    && HooksOk(k) && Separate(r, rest)
    && Active(r, rest, k.rw) && k.rw !in r.imm && k.drop !in r.imm
    && !Active(r, rest, k.cancel)
    && (Active(r, rest, k.drop) <==> T(r.time, k.drop) != 0)
    && (k.rw in rest ==> k.cancel !in r.imm)
    && (Active(r, rest, k.drop) && k.cancel !in r.imm ==> b.ackDropOp == b.opCount)
  }

  /** Between rounds: the drop hook has a target exactly when it is listed, and then no
      operation was acknowledged since it was scheduled. */
  ghost predicate BusInv(k: Hooks, b: Bus, listed: seq<Ptr>, time: Times) {
    && HooksOk(k)
    && k.rw in listed && k.cancel !in listed
    && (k.drop in listed <==> T(time, k.drop) != 0)
    && (k.drop in listed ==> b.ackDropOp == b.opCount)
  }

  /** Starting an operation may add the cancel hook, and only then counts an operation. */
  lemma StartShape(k: Hooks, f: Effect, i: Inputs, isRead: bool, picos: nat) returns (cancels: bool)
    ensures var g := StartOperation(k, f, i, isRead, picos);
            && g.acts == f.acts + (if cancels then [Immediate(k.cancel)] else [])
            && g.bus.ackDropOp == f.bus.ackDropOp
            && f.bus.opCount <= g.bus.opCount <= f.bus.opCount + (if cancels then 1 else 0)
  {
    hide NumBytes;
    cancels := !(i.addr.Some? && i.we.Some? && NumBytes(isRead, i.addr.value, i.we.value).Some? &&
                 (isRead || i.din.Some?) && i.reply.Completed? && i.reply.ackDelay != 0);
  }

  lemma ScheduleShape(k: Hooks, b: Bus, i: Inputs, picos: nat, dropTime: nat, time: nat) returns (adds: bool, t: nat)
    ensures var g := ScheduleDrop(k, b, i, picos, dropTime, time);
            && g.acts == (if adds then [Add(k.drop, t)] else []) && g.bus.opCount == b.opCount
            && (adds ==> dropTime == 0 && t > picos && g.bus.ackDropOp == b.opCount)
            && (!adds ==> g.bus.ackDropOp == b.ackDropOp)
  {
    adds := b.ackDropDelay != 0 && dropTime == 0;
    t := picos + b.ackDropDelay * 1000;
  }

  /** The shape of the rw callback's actions and what it does to the operation counters. */
  lemma RwShape(k: Hooks, b: Bus, i: Inputs, picos: nat, time: nat, dropTime: nat)
    returns (adds: bool, cancels: bool, t: nat)
    ensures var f := ReadWrite(k, b, i, picos, time, dropTime);
            && f.acts == (if adds then [Add(k.drop, t)] else []) + (if cancels then [Immediate(k.cancel)] else [])
            && (adds ==> dropTime == 0 && t > picos && f.bus.ackDropOp == b.opCount)
            && (!adds ==> f.bus.ackDropOp == b.ackDropOp)
            && (!cancels ==> f.bus.opCount == b.opCount)
            && b.opCount <= f.bus.opCount <= b.opCount + 1
  {
    hide StartOperation, ScheduleDrop;
    adds, cancels, t := false, false, 0;
    var f := Effect(b, [], [], time);
    var isRead := !(i.hasWr && i.wr.Some? && i.wr.value);
    if i.en.None? || (i.hasWr && (i.wr.None? || i.rd.None?)) || (i.hasWr && isRead && !i.rd.value && i.en.value) {
      cancels := true;
    } else if i.changed && i.en.value {
      if b.ackPending {
        cancels := StartShape(k, f.(bus := b.(ackPending := false)), i, isRead, picos);
      } else if i.ack {
        adds, t := ScheduleShape(k, b, i, picos, dropTime, time);
        cancels := StartShape(k, ScheduleDrop(k, b, i, picos, dropTime, time), i, isRead, picos);
      } else {
        cancels := StartShape(k, f, i, isRead, picos);
      }
    } else if i.changed {
      if b.ackPending {
        cancels := true;
      } else if i.ack {
        adds, t := ScheduleShape(k, b, i, picos, dropTime, time);
      }
    } else {
      cancels := time == picos && b.ackPending;
    }
  }

  /** How often the outputs raise the acknowledge line. */
  ghost function Raised(outs: seq<Out>): nat { multiset(outs)[SetAck(true)] }

  lemma RaisedConcat(a: seq<Out>, c: seq<Out>)
    ensures Raised(a + c) == Raised(a) + Raised(c)
  {
  }

  lemma RaisedIff(outs: seq<Out>)
    ensures Raised(outs) > 0 <==> SetAck(true) in outs
  {
  }

  lemma DropNeverRaises(i: Inputs)
    ensures Raised(DropAck(i)) == 0
  {
    RaisedIff(DropAck(i));
  }

  /** Raising the line comes last, after the data of a read. */
  ghost function AckOuts(isRead: bool, val: int): seq<Out> { (if isRead then [SetDout(val)] else []) + [SetAck(true)] }

  lemma AckRaises(isRead: bool, val: int)
    ensures Raised(AckOuts(isRead, val)) == 1
  {
    var o := [SetAck(true)];
    if isRead {
      RaisedConcat([SetDout(val)], o);
    } else {
      assert [] + o == o;
    }
  }

  /** The outputs of a start: what came before, then a reset or an acknowledgement, if any. */
  lemma StartRaises(k: Hooks, f: Effect, i: Inputs, isRead: bool, picos: nat)
    ensures var g := StartOperation(k, f, i, isRead, picos);
            Raised(g.outs) - Raised(f.outs) == g.bus.opCount - f.bus.opCount
  {
    hide NumBytes, DropAck, Raised;
    var g := StartOperation(k, f, i, isRead, picos);
    DropNeverRaises(i);
    RaisedConcat(f.outs, DropAck(i));
    AckRaises(isRead, g.bus.readVal);
    RaisedConcat(f.outs, AckOuts(isRead, g.bus.readVal));
    assert f.outs + (if isRead then [SetDout(g.bus.readVal)] else []) + [SetAck(true)] ==
           f.outs + AckOuts(isRead, g.bus.readVal);
  }

  /** The callback raises the line exactly when, and as often as, it counts an operation. */
  lemma RwRaises(k: Hooks, b: Bus, i: Inputs, picos: nat, time: nat, dropTime: nat)
    ensures var f := ReadWrite(k, b, i, picos, time, dropTime); Raised(f.outs) == f.bus.opCount - b.opCount
  {
    hide StartOperation, DropAck, Raised;
    var f := Effect(b, [], [], time);
    var isRead := !(i.hasWr && i.wr.Some? && i.wr.value);
    DropNeverRaises(i);
    NothingRaised();
    assert [] + DropAck(i) == DropAck(i);
    if i.en.None? || (i.hasWr && (i.wr.None? || i.rd.None?)) || (i.hasWr && isRead && !i.rd.value && i.en.value) {
    } else if i.changed && i.en.value {
      var f' := if b.ackPending then f.(bus := b.(ackPending := false))
                else if i.ack then ScheduleDrop(k, b, i, picos, dropTime, time) else f;
      StartRaises(k, f', i, isRead, picos);
    } else if !i.changed && time == picos && b.ackPending {
      AckRaises(isRead, b.readVal);
      assert [] + (if isRead then [SetDout(b.readVal)] else []) + [SetAck(true)] == AckOuts(isRead, b.readVal);
    }
  }

  lemma NothingRaised()
    ensures Raised([]) == 0
  {
  }

  /** The effect of the rw callback's actions on the round. */
  lemma RwActs(r: Round, drop: Ptr, cancel: Ptr, adds: bool, cancels: bool, t: nat)
    ensures var acts := (if adds then [Add(drop, t)] else []) + (if cancels then [Immediate(cancel)] else []);
            ActAll(r, acts) ==
              r.(pend := if adds then r.pend + [drop] else r.pend,
                 time := if adds then r.time[drop := t] else r.time,
                 imm := if cancels then r.imm + [cancel] else r.imm)
  {
    var a, c := Add(drop, t), Immediate(cancel);
    if adds && cancels {
      assert [a] + [c] == [a, c] && [a, c][1..] == [c] && [c][1..] == [];
      assert ActAll(r, [a, c]) == ActAll(Act(r, a), [c]);
      assert ActAll(Act(r, a), [c]) == ActAll(Act(Act(r, a), c), []);
    } else if adds {
      assert [a] + [] == [a] && [a][1..] == [];
      assert ActAll(r, [a]) == ActAll(Act(r, a), []);
    } else if cancels {
      assert [] + [c] == [c] && [c][1..] == [];
      assert ActAll(r, [c]) == ActAll(Act(r, c), []);
    }
  }

  /** The rw callback keeps the scheduler's rules. */
  lemma RwAllowed(k: Hooks, b: Bus, r: Round, rest: seq<Ptr>, adds: bool, cancels: bool, t: nat)
    requires BusMid(k, b, r, rest) && k.rw in rest && (adds ==> T(r.time, k.drop) == 0)
    ensures AllAllowed(r, rest, (if adds then [Add(k.drop, t)] else []) +
                       (if cancels then [Immediate(k.cancel)] else []))
  {
    var a, c := Add(k.drop, t), Immediate(k.cancel);
    if adds && cancels {
      assert [a] + [c] == [a, c] && [a, c][1..] == [c] && [c][1..] == [];
      assert AllAllowed(Act(r, a), rest, [c]);
    } else if adds {
      assert [a] + [] == [a] && [a][1..] == [];
    } else if cancels {
      assert [] + [c] == [c] && [c][1..] == [];
    }
  }

  lemma MidEntered(k: Hooks, b: Bus, r: Round, rest: seq<Ptr>, t: nat)
    requires BusMid(k, b, r, rest)
    ensures BusMid(k, b, Entered(r, k.rw, t), rest)
  {
    hide Distinct, Apart;
  }

  /** The rw callback and its settling keep the invariant. */
  lemma RwStep(k: Hooks, e: Env, b: Bus, i: Inputs, r: Round, rest: seq<Ptr>)
    requires BusMid(k, b, r, rest) && rest != [] && rest[0] == k.rw
    ensures var f := RwEffect(k, e, r, b, i);
            && AllAllowed(Entered(r, k.rw, f.time), rest, f.acts)
            && BusMid(k, f.bus, Called(e, r, k.rw, RwOutcome(f)), rest[1..])
  {
    hide Distinct, Apart, ActAll, Settle, ReadWrite, AllAllowed;
    var f := RwEffect(k, e, r, b, i);
    var adds, cancels, t := RwShape(k, b, i, e.picos, T(r.time, k.rw), T(r.time, k.drop));
    var r1 := Entered(r, k.rw, f.time);
    MidEntered(k, b, r, rest, f.time);
    RwAllowed(k, b, r1, rest, adds, cancels, t);
    RwActs(r1, k.drop, k.cancel, adds, cancels, t);
    ActAllKeeps(r1, rest, f.acts);
    var r2 := ActAll(r1, f.acts);
    SettleSeparate(e, r2, rest, T(r.time, k.rw), false);
    SettleOther(e, r2, rest, T(r.time, k.rw), false, k.drop);
    SettleOther(e, r2, rest, T(r.time, k.rw), false, k.cancel);
  }

  lemma DropStep(k: Hooks, e: Env, b: Bus, r: Round, rest: seq<Ptr>)
    requires BusMid(k, b, r, rest) && rest != [] && rest[0] == k.drop
    ensures var o := Outcome(true, T(r.time, k.drop), []);
            && AllAllowed(Entered(r, k.drop, o.newTime), rest, o.acts)
            && BusMid(k, b, Called(e, r, k.drop, o), rest[1..])
  {
    hide Distinct, Apart, Settle;
    var r1 := Entered(r, k.drop, T(r.time, k.drop));
    assert ActAll(r1, []) == r1;
    assert Separate(r1, rest) by { SeparateIgnores(r, r1, rest); }
    SettleSeparate(e, r1, rest, T(r.time, k.drop), true);
    SettleOther(e, r1, rest, T(r.time, k.drop), true, k.rw);
    SettleOther(e, r1, rest, T(r.time, k.drop), true, k.cancel);
    TailOf(rest);
  }

  lemma ForeignStep(k: Hooks, e: Env, b: Bus, r: Round, rest: seq<Ptr>, o: Outcome)
    requires BusMid(k, b, r, rest) && rest != [] && rest[0] != k.rw && rest[0] != k.drop
    requires Foreign(k, o.acts) && AllAllowed(Entered(r, rest[0], o.newTime), rest, o.acts)
    ensures BusMid(k, b, Called(e, r, rest[0], o), rest[1..])
  {
    assert Spares(o.acts, k.rw) && Spares(o.acts, k.drop) && Spares(o.acts, k.cancel);
    hide Distinct, Apart, Settle, ActAll, Foreign, Spares, AllAllowed;
    var h, r1 := rest[0], Entered(r, rest[0], o.newTime);
    assert h in rest && h != k.cancel;
    assert Separate(r1, rest) by { SeparateIgnores(r, r1, rest); }
    ActAllKeeps(r1, rest, o.acts);
    SparedActs(r1, rest, o.acts, k.rw);
    SparedActs(r1, rest, o.acts, k.drop);
    SparedActs(r1, rest, o.acts, k.cancel);
    var r2 := ActAll(r1, o.acts);
    SettleSeparate(e, r2, rest, T(r.time, h), o.retire);
    SettleOther(e, r2, rest, T(r.time, h), o.retire, k.rw);
    SettleOther(e, r2, rest, T(r.time, h), o.retire, k.drop);
    SettleOther(e, r2, rest, T(r.time, h), o.retire, k.cancel);
    TailOf(rest);
  }

  lemma SkipStep(k: Hooks, b: Bus, r: Round, rest: seq<Ptr>)
    requires BusMid(k, b, r, rest) && rest != []
    ensures BusMid(k, b, r.(kept := r.kept + [rest[0]]), rest[1..])
  {
    hide Distinct, Apart;
    assert Separate(r.(kept := r.kept + [rest[0]]), rest[1..]) by { SkippedSeparate(r, rest); }
    TailOf(rest);
  }

  /** The calls of a whole round keep the invariant, in whatever order the hooks are listed. */
  lemma {:induction false} VisitBus(k: Hooks, e: Env, rest: seq<Ptr>, r: Round, os: seq<Outcome>, b: Bus, i: Inputs)
    requires BusMid(k, b, r, rest) && Obeys(e, rest, r, os) && Follows(k, e, rest, r, os, b, i)
    ensures BusMid(k, BusAfter(k, e, rest, r, os, b, i), Visit(e, rest, r, os), [])
    decreases |rest|
  {
    hide BusMid, Called, AllAllowed, RwEffect, Foreign;
    if rest != [] {
      var h := rest[0];
      if Due(e, r.time, h) {
        if h == k.rw {
          RwStep(k, e, b, i, r, rest);
        } else if h == k.drop {
          DropStep(k, e, b, r, rest);
        } else {
          ForeignStep(k, e, b, r, rest, os[0]);
        }
        VisitBus(k, e, rest[1..], Called(e, r, h, os[0]), os[1..], BusNext(k, e, r, h, b, i), i);
      } else {
        SkipStep(k, b, r, rest);
        VisitBus(k, e, rest[1..], r.(kept := r.kept + [h]), os, b, i);
      }
    }
  }

  // ----- the immediate phase -----

  /** The immediate callbacks: cancel_drop_cb for the bus, foreign ones elsewhere. */
  ghost predicate ScriptsOf(k: Hooks, imm: seq<Ptr>, dropTime: nat, scripts: seq<seq<Action>>) {
    && |scripts| == |imm|
    && forall j {:trigger imm[j]} :: 0 <= j < |imm| ==>
         if imm[j] == k.cancel then scripts[j] == CancelScript(k, dropTime) else Foreign(k, scripts[j])
  }

  ghost predicate ImmMid(k: Hooks, b: Bus, l: Live, cancelling: bool) {
    && HooksOk(k) && Distinct(l.listed)
    && k.rw in l.listed && k.cancel !in l.listed
    && (k.drop in l.listed <==> T(l.time, k.drop) != 0)
    && (k.drop in l.listed && !cancelling ==> b.ackDropOp == b.opCount)
  }

  lemma {:induction false} ForeignScript(k: Hooks, b: Bus, l: Live, imm: seq<Ptr>, acts: seq<Action>, cancelling: bool)
    requires ImmMid(k, b, l, cancelling) && Foreign(k, acts) && ImmAllowed(l, imm, acts)
    ensures ImmMid(k, b, ImmAll(l, acts), cancelling) && T(ImmAll(l, acts).time, k.drop) == T(l.time, k.drop)
    decreases |acts|
  {
    if acts != [] {
      ForeignAction(k, b, l, imm, acts[0], cancelling);
      assert forall j :: 0 <= j < |acts[1..]| ==> acts[1..][j] == acts[j + 1];
      hide ImmMid, Imm, ImmOk;
      ForeignScript(k, b, Imm(l, acts[0]), imm, acts[1..], cancelling);
    }
  }

  lemma ForeignAction(k: Hooks, b: Bus, l: Live, imm: seq<Ptr>, a: Action, cancelling: bool)
    requires ImmMid(k, b, l, cancelling) && ImmOk(l, imm, a) && a.g != k.rw && a.g != k.drop && a.g != k.cancel
    ensures ImmMid(k, b, Imm(l, a), cancelling) && T(Imm(l, a).time, k.drop) == T(l.time, k.drop)
  {
    hide Distinct, Insert, Drop;
    match a
    case Add(g, t) => InsertMembers(l.time[g := t], l.listed, g);
    case Remove(g) => DropMembers(l.listed, g);
    case Retime(g, t) =>
    case Immediate(g) =>
  }

  /** cancel_drop_cb: afterwards the drop hook is neither listed nor timed. */
  lemma CancelRuns(k: Hooks, b: Bus, l: Live)
    requires ImmMid(k, b, l, true)
    ensures var l' := ImmAll(l, CancelScript(k, T(l.time, k.drop)));
            ImmMid(k, b, l', false) && T(l'.time, k.drop) == 0 && k.drop !in l'.listed
  {
    hide Distinct, Drop;
    var acts := CancelScript(k, T(l.time, k.drop));
    if T(l.time, k.drop) != 0 {
      assert acts == [Remove(k.drop), Retime(k.drop, 0)] && acts[1..] == [Retime(k.drop, 0)] && acts[1..][1..] == [];
      DropMembers(l.listed, k.drop);
      var l1 := Imm(l, acts[0]);
      assert ImmAll(l, acts) == ImmAll(l1, acts[1..]);
      assert ImmAll(l1, acts[1..]) == ImmAll(Imm(l1, acts[1]), []);
    }
  }

  lemma {:induction false} ScriptsRun(k: Hooks, b: Bus, l: Live, imm: seq<Ptr>, rem: seq<Ptr>,
                                      scripts: seq<seq<Action>>, dropTime: nat)
    requires ImmMid(k, b, l, k.cancel in rem) && Distinct(rem) && ScriptsOf(k, rem, dropTime, scripts)
    requires k.cancel in rem ==> dropTime == T(l.time, k.drop)
    requires ImmAllowed(l, imm, Flat(scripts))
    ensures ImmMid(k, b, ImmAll(l, Flat(scripts)), false)
    decreases |scripts|
  {
    if scripts != [] {
      ImmSplit(l, imm, scripts[0], Flat(scripts[1..]));
      TailOf(rem);
      assert ScriptsOf(k, rem[1..], dropTime, scripts[1..]) by {
        assert forall j :: 0 <= j < |rem[1..]| ==> rem[1..][j] == rem[j + 1] && scripts[1..][j] == scripts[j + 1];
      }
      assert if rem[0] == k.cancel then scripts[0] == CancelScript(k, dropTime) else Foreign(k, scripts[0]);
      hide ImmMid, ImmAllowed, ImmAll, Distinct, ScriptsOf, CancelScript;
      if rem[0] == k.cancel {
        CancelRuns(k, b, l);
      } else {
        ForeignScript(k, b, l, imm, scripts[0], k.cancel in rem);
      }
      ScriptsRun(k, b, ImmAll(l, scripts[0]), imm, rem[1..], scripts[1..], dropTime);
    }
  }

  lemma BusBegins(k: Hooks, b: Bus, listed: seq<Ptr>, time: Times)
    requires BusInv(k, b, listed, time) && Distinct(listed)
    ensures BusMid(k, b, Begin(time), listed)
  {
    assert [] + listed == listed;
  }

  lemma BusMerged(k: Hooks, b: Bus, r: Round)
    requires BusMid(k, b, r, []) && Distinct(ListAfter(r))
    requires forall x :: x in ListAfter(r) <==> x in r.kept || x in r.pend
    ensures ImmMid(k, b, Live(ListAfter(r), r.time), k.cancel in r.imm) && Distinct(r.imm)
  {
    hide ListAfter;
  }

  /**
    A whole firing round keeps the bus invariant: for every order of the hooks, every
    behaviour of the other callbacks, and every state of the signals.
   */
  lemma RoundKeepsBus(k: Hooks, e: Env, b: Bus, i: Inputs, listed: seq<Ptr>, time: Times, os: seq<Outcome>,
                      scripts: seq<seq<Action>>)
    requires Distinct(listed) && Ordered(time, listed) && BusInv(k, b, listed, time)
    requires Obeys(e, listed, Begin(time), os) && Follows(k, e, listed, Begin(time), os, b, i)
    requires var r := Visit(e, listed, Begin(time), os);
             && ScriptsOf(k, r.imm, T(r.time, k.drop), scripts)
             && ImmAllowed(Live(ListAfter(r), r.time), r.imm, Flat(scripts))
    ensures var r := Visit(e, listed, Begin(time), os);
            var l := ImmAll(Live(ListAfter(r), r.time), Flat(scripts));
            BusInv(k, BusAfter(k, e, listed, Begin(time), os, b, i), l.listed, l.time)
  {
    hide Visit, Obeys, ImmAll, ImmAllowed, Follows, BusAfter, BusMid, ListAfter, ScriptsOf, Ordered;
    var b', r := BusAfter(k, e, listed, Begin(time), os, b, i), Visit(e, listed, Begin(time), os);
    BusBegins(k, b, listed, time);
    VisitBus(k, e, listed, Begin(time), os, b, i);
    RoundOrdered(e, listed, time, os);
    BusMerged(k, b', r);
    ScriptsRun(k, b', Live(ListAfter(r), r.time), r.imm, r.imm, scripts, T(r.time, k.drop));
  }
}
