/**
  Runs of the bus: rounds of the scheduler one after another, with foreign activity between.
 */
module MemBusRuns {
  import opened Addresses
  import opened UtList
  import opened SchedulerSpec
  import opened SchedulerProof
  import opened Scheduler
  import opened MemBus
  import opened MemBusProof

  datatype Sys = Sys(l: Live, b: Bus)

  /** One round: what others did since the last one, and the callbacks' scripts. */
  datatype Turn = Turn(between: seq<Action>, e: Env, i: Inputs, os: seq<Outcome>, scripts: seq<seq<Action>>)

  ghost function Before(s: Sys, x: Turn): Live { ImmAll(s.l, x.between) }

  ghost function Visited(s: Sys, x: Turn): Round { Visit(x.e, Before(s, x).listed, Begin(Before(s, x).time), x.os) }

  /** All callbacks keep the rules, those of the bus are the ones of mem_bus.c. */
  ghost predicate TurnOk(k: Hooks, s: Sys, x: Turn) {
    var l := Before(s, x);
    && Foreign(k, x.between) && ImmAllowed(s.l, [k.cancel], x.between)
    && Obeys(x.e, l.listed, Begin(l.time), x.os)
    && Follows(k, x.e, l.listed, Begin(l.time), x.os, s.b, x.i)
    && var r := Visited(s, x);
    && ScriptsOf(k, r.imm, T(r.time, k.drop), x.scripts)
    && ImmAllowed(Live(ListAfter(r), r.time), r.imm, Flat(x.scripts))
  }

  ghost function Next(k: Hooks, s: Sys, x: Turn): Sys {
    var l, r := Before(s, x), Visited(s, x);
    Sys(ImmAll(Live(ListAfter(r), r.time), Flat(x.scripts)),
        BusAfter(k, x.e, l.listed, Begin(l.time), x.os, s.b, x.i))
  }

  ghost predicate SysInv(k: Hooks, s: Sys) {
    Distinct(s.l.listed) && Ordered(s.l.time, s.l.listed) && BusInv(k, s.b, s.l.listed, s.l.time)
  }

  lemma BetweenKeeps(k: Hooks, s: Sys, x: Turn)
    requires SysInv(k, s) && TurnOk(k, s, x)
    ensures SysInv(k, s.(l := Before(s, x)))
    ensures T(Before(s, x).time, k.drop) == T(s.l.time, k.drop)
  {
    hide Ordered, Distinct, ImmAll, ImmAllowed, Foreign, Visit, Follows, Obeys;
    ImmOrdered(s.l, [k.cancel], x.between);
    ForeignScript(k, s.b, s.l, [k.cancel], x.between, false);
  }

  /** Every round keeps the invariant. */
  lemma TurnKeeps(k: Hooks, s: Sys, x: Turn)
    requires SysInv(k, s) && TurnOk(k, s, x)
    ensures SysInv(k, Next(k, s, x))
  {
    hide Ordered, Distinct, ImmAll, ImmAllowed, Foreign, Visit, Follows, Obeys, ScriptsOf, BusInv, ListAfter, BusAfter;
    BetweenKeeps(k, s, x);
    var l := Before(s, x);
    RoundKeepsBus(k, x.e, s.b, x.i, l.listed, l.time, x.os, x.scripts);
    RoundKeepsOrder(x.e, l.listed, l.time, x.os, Flat(x.scripts));
  }

  ghost predicate Run(k: Hooks, ss: seq<Sys>, xs: seq<Turn>) {
    && |ss| == |xs| + 1 && SysInv(k, ss[0])
    && forall n {:trigger TurnAt(k, ss, xs, n)} {:trigger ss[n]} :: 0 < n < |ss| ==> TurnAt(k, ss, xs, n)
  }

  /** Turn n - 1 leads from state n - 1 to state n. */
  ghost predicate TurnAt(k: Hooks, ss: seq<Sys>, xs: seq<Turn>, n: nat) {
    0 < n < |ss| == |xs| + 1 && TurnOk(k, ss[n - 1], xs[n - 1]) && ss[n] == Next(k, ss[n - 1], xs[n - 1])
  }

  lemma {:induction false} RunKeeps(k: Hooks, ss: seq<Sys>, xs: seq<Turn>, n: nat)
    requires Run(k, ss, xs) && n < |ss|
    ensures SysInv(k, ss[n])
    decreases n
  {
    if n > 0 {
      hide SysInv, TurnOk, Next;
      assert ss[n] == Next(k, ss[n - 1], xs[n - 1]);
      RunKeeps(k, ss, xs, n - 1);
      TurnKeeps(k, ss[n - 1], xs[n - 1]);
    }
  }

  /**
    In every run, between rounds: the drop hook has a target exactly when it is listed, and
    then no operation has been acknowledged since it was scheduled.
   */
  lemma DropHookConsistent(k: Hooks, ss: seq<Sys>, xs: seq<Turn>, n: nat)
    requires Run(k, ss, xs) && n < |ss|
    ensures k.drop in ss[n].l.listed <==> T(ss[n].l.time, k.drop) != 0
    ensures k.drop in ss[n].l.listed ==> ss[n].b.ackDropOp == ss[n].b.opCount
    ensures k.rw in ss[n].l.listed && k.cancel !in ss[n].l.listed
  {
    hide Run, Ordered, Distinct;
    RunKeeps(k, ss, xs, n);
  }

  // ----- drops never clear a later acknowledgement -----

  datatype Event = Scheduled | Acked | HookDropped

  /** What one call does to the acknowledge line, as far as the drop hook is concerned. */
  ghost function CallEvents(k: Hooks, e: Env, r: Round, h: Ptr, b: Bus, i: Inputs): seq<Event> {
    if h == k.rw then
      var f := RwEffect(k, e, r, b, i);
      (if |f.acts| > 0 && f.acts[0].Add? then [Scheduled] else []) + (if SetAck(true) in f.outs then [Acked] else [])
    else if h == k.drop && SetAck(false) in DropOuts(b, i) then [HookDropped]
    else []
  }

  ghost function EventsOf(k: Hooks, e: Env, rest: seq<Ptr>, r: Round, os: seq<Outcome>, b: Bus, i: Inputs): seq<Event>
    decreases |rest|
  {
    if rest == [] then []
    else if Due(e, r.time, rest[0]) && os != [] then
      CallEvents(k, e, r, rest[0], b, i) +
      EventsOf(k, e, rest[1..], Called(e, r, rest[0], os[0]), os[1..], BusNext(k, e, r, rest[0], b, i), i)
    else EventsOf(k, e, rest[1..], r.(kept := r.kept + [rest[0]]), os, b, i)
  }

  /** Whether an acknowledgement came since the last scheduling. */
  ghost function AckedSince(evs: seq<Event>, start: bool): bool
    decreases |evs|
  {
    if evs == [] then start
    else match evs[|evs| - 1]
      case Scheduled => false
      case Acked => true
      case HookDropped => AckedSince(evs[..|evs| - 1], start)
  }

  /** No delayed drop takes effect after an acknowledgement that came after its scheduling. */
  ghost predicate NoStaleDrop(evs: seq<Event>, start: bool) {
    forall n :: 0 <= n < |evs| && evs[n] == HookDropped ==> !AckedSince(evs[..n], start)
  }

  ghost predicate Stale(b: Bus) { b.ackDropOp != b.opCount }

  lemma {:induction false} AckedSinceSplit(a: seq<Event>, c: seq<Event>, start: bool)
    ensures AckedSince(a + c, start) == AckedSince(c, AckedSince(a, start))
    decreases |c|
  {
    if c == [] {
      assert a + c == a;
    } else {
      assert (a + c)[..|a + c| - 1] == a + c[..|c| - 1];
      AckedSinceSplit(a, c[..|c| - 1], start);
    }
  }

  lemma NoStaleDropSplit(a: seq<Event>, c: seq<Event>, start: bool)
    requires NoStaleDrop(a, start) && NoStaleDrop(c, AckedSince(a, start))
    ensures NoStaleDrop(a + c, start)
  {
    forall n | 0 <= n < |a + c| && (a + c)[n] == HookDropped
      ensures !AckedSince((a + c)[..n], start)
    {
      if n < |a| {
        assert (a + c)[..n] == a[..n];
      } else {
        assert (a + c)[..n] == a + c[..n - |a|];
        AckedSinceSplit(a, c[..n - |a|], start);
        assert c[n - |a|] == HookDropped;
      }
    }
  }

  /** The rw callback's view of the counters. */
  lemma RwCounters(k: Hooks, e: Env, r: Round, b: Bus, i: Inputs)
    requires b.ackDropOp <= b.opCount
    ensures var f := RwEffect(k, e, r, b, i);
            && f.bus.ackDropOp <= f.bus.opCount <= b.opCount + 1 && b.opCount <= f.bus.opCount
            && f.bus.ackDropOp == (if |f.acts| > 0 && f.acts[0].Add? then b.opCount else b.ackDropOp)
            && (SetAck(true) in f.outs <==> f.bus.opCount != b.opCount)
  {
    hide ReadWrite;
    RwRaises(k, b, i, e.picos, T(r.time, k.rw), T(r.time, k.drop));
    RaisedIff(RwEffect(k, e, r, b, i).outs);
    var adds, cancels, t := RwShape(k, b, i, e.picos, T(r.time, k.rw), T(r.time, k.drop));
  }

  lemma CallSafe(k: Hooks, e: Env, r: Round, h: Ptr, b: Bus, i: Inputs)
    requires b.ackDropOp <= b.opCount
    ensures var b', evs := BusNext(k, e, r, h, b, i), CallEvents(k, e, r, h, b, i);
            && NoStaleDrop(evs, Stale(b)) && AckedSince(evs, Stale(b)) == Stale(b') && b'.ackDropOp <= b'.opCount
  {
    hide RwEffect;
    RwCounters(k, e, r, b, i);
    var evs := CallEvents(k, e, r, h, b, i);
    assert forall n :: 0 < n <= |evs| ==> evs[..n][|evs[..n]| - 1] == evs[n - 1];
    assert |evs| == 2 ==> evs[..1] == [evs[0]];
    assert [Scheduled][..0] == [];
    assert [HookDropped][..0] == [];
  }

  lemma {:induction false} VisitSafe(k: Hooks, e: Env, rest: seq<Ptr>, r: Round, os: seq<Outcome>, b: Bus, i: Inputs)
    requires b.ackDropOp <= b.opCount
    ensures var b', evs := BusAfter(k, e, rest, r, os, b, i), EventsOf(k, e, rest, r, os, b, i);
            && NoStaleDrop(evs, Stale(b)) && AckedSince(evs, Stale(b)) == Stale(b') && b'.ackDropOp <= b'.opCount
    decreases |rest|
  {
    if rest != [] {
      hide CallEvents, BusNext, Called, NoStaleDrop, AckedSince;
      if Due(e, r.time, rest[0]) && os != [] {
        var a, b1 := CallEvents(k, e, r, rest[0], b, i), BusNext(k, e, r, rest[0], b, i);
        CallSafe(k, e, r, rest[0], b, i);
        VisitSafe(k, e, rest[1..], Called(e, r, rest[0], os[0]), os[1..], b1, i);
        var c := EventsOf(k, e, rest[1..], Called(e, r, rest[0], os[0]), os[1..], b1, i);
        NoStaleDropSplit(a, c, Stale(b));
        AckedSinceSplit(a, c, Stale(b));
      } else {
        VisitSafe(k, e, rest[1..], r.(kept := r.kept + [rest[0]]), os, b, i);
      }
    }
  }

  ghost function TurnEvents(k: Hooks, s: Sys, x: Turn): seq<Event> {
    EventsOf(k, x.e, Before(s, x).listed, Begin(Before(s, x).time), x.os, s.b, x.i)
  }

  ghost function RunEvents(k: Hooks, ss: seq<Sys>, xs: seq<Turn>, n: nat): seq<Event>
    requires n <= |xs| && |ss| == |xs| + 1
    decreases n
  {
    if n == 0 then [] else RunEvents(k, ss, xs, n - 1) + TurnEvents(k, ss[n - 1], xs[n - 1])
  }

  /**
    Over a whole run, a drop of the acknowledge line that was scheduled before an
    acknowledgement never takes effect after it.
   */
  lemma {:induction false} NoStaleDropEver(k: Hooks, ss: seq<Sys>, xs: seq<Turn>, n: nat)
    requires Run(k, ss, xs) && ss[0].b.ackDropOp <= ss[0].b.opCount && n <= |xs|
    ensures NoStaleDrop(RunEvents(k, ss, xs, n), Stale(ss[0].b))
    ensures AckedSince(RunEvents(k, ss, xs, n), Stale(ss[0].b)) == Stale(ss[n].b) &&
            ss[n].b.ackDropOp <= ss[n].b.opCount
    decreases n
  {
    hide TurnOk, NoStaleDrop, AckedSince, SysInv, Next, TurnEvents;
    if n == 0 {
      NothingStale(Stale(ss[0].b));
    } else {
      assert ss[n] == Next(k, ss[n - 1], xs[n - 1]);
      NoStaleDropEver(k, ss, xs, n - 1);
      TurnSafe(k, ss[n - 1], xs[n - 1]);
      NoStaleDropSplit(RunEvents(k, ss, xs, n - 1), TurnEvents(k, ss[n - 1], xs[n - 1]), Stale(ss[0].b));
      AckedSinceSplit(RunEvents(k, ss, xs, n - 1), TurnEvents(k, ss[n - 1], xs[n - 1]), Stale(ss[0].b));
    }
  }

  lemma NothingStale(start: bool)
    ensures NoStaleDrop([], start) && AckedSince([], start) == start
  {
  }

  lemma TurnSafe(k: Hooks, s: Sys, x: Turn)
    requires s.b.ackDropOp <= s.b.opCount
    ensures var b' := Next(k, s, x).b;
            && NoStaleDrop(TurnEvents(k, s, x), Stale(s.b))
            && AckedSince(TurnEvents(k, s, x), Stale(s.b)) == Stale(b') && b'.ackDropOp <= b'.opCount
  {
    hide EventsOf, BusAfter, NoStaleDrop, AckedSince, ImmAll, Visit;
    VisitSafe(k, x.e, Before(s, x).listed, Begin(Before(s, x).time), x.os, s.b, x.i);
  }

  // ----- when an operation is acknowledged -----

  /** No bus input changes, and the operation that was started is still on the signals. */
  ghost predicate Stable(k: Hooks, e: Env, i: Inputs) {
    && !i.changed && (k.rw in e.sub ==> e.events * e.sub[k.rw] == {})
    && i.en == Some(true) && (i.hasWr ==> i.wr.Some? && i.rd.Some? && (i.wr.value || i.rd.value))
  }

  /** The bus after a stable round at time `picos` whose rw hook had target t. */
  ghost function StableBus(b: Bus, picos: nat, t: nat): Bus {
    if t != 0 && t == picos && b.ackPending then b.(ackPending := false, opCount := b.opCount + 1) else b
  }

  ghost function StableTime(picos: nat, t: nat): nat { if t <= picos then 0 else t }

  lemma StableCall(k: Hooks, e: Env, r: Round, b: Bus, i: Inputs)
    requires Stable(k, e, i) && T(r.time, k.rw) != 0
    ensures var f := RwEffect(k, e, r, b, i);
            f.bus == StableBus(b, e.picos, T(r.time, k.rw)) && f.time == T(r.time, k.rw) &&
              (forall j :: 0 <= j < |f.acts| ==> f.acts[j].g == k.cancel)
  {
  }

  /** After its visit the rw hook's target is left alone. */
  lemma {:induction false} ActsElsewhere(r: Round, acts: seq<Action>, g: Ptr)
    requires forall j :: 0 <= j < |acts| ==> acts[j].g != g
    ensures T(ActAll(r, acts).time, g) == T(r.time, g)
    decreases |acts|
  {
    if acts != [] {
      assert forall j :: 0 <= j < |acts[1..]| ==> acts[1..][j] == acts[j + 1];
      ActsElsewhere(Act(r, acts[0]), acts[1..], g);
    }
  }

  lemma CallElsewhere(e: Env, r: Round, h: Ptr, o: Outcome, g: Ptr)
    requires h != g && forall j :: 0 <= j < |o.acts| ==> o.acts[j].g != g
    ensures T(Called(e, r, h, o).time, g) == T(r.time, g)
  {
    hide ActAll;
    ActsElsewhere(r.(time := r.time[h := o.newTime], called := r.called + [h]), o.acts, g);
  }

  lemma OutcomeElsewhere(k: Hooks, e: Env, r: Round, h: Ptr, b: Bus, i: Inputs, o: Outcome)
    requires HooksOk(k) && h != k.rw && OutcomeOf(k, e, r, h, b, i, o)
    ensures T(Called(e, r, h, o).time, k.rw) == T(r.time, k.rw)
  {
    hide Called;
    CallElsewhere(e, r, h, o, k.rw);
  }

  lemma {:induction false} VisitOthers(k: Hooks, e: Env, rest: seq<Ptr>, r: Round, os: seq<Outcome>, b: Bus, i: Inputs)
    requires HooksOk(k) && k.rw !in rest && Follows(k, e, rest, r, os, b, i)
    ensures BusAfter(k, e, rest, r, os, b, i) == b && T(Visit(e, rest, r, os).time, k.rw) == T(r.time, k.rw)
    decreases |rest|
  {
    if rest != [] {
      hide Called, OutcomeOf;
      assert rest[0] in rest;
      TailOf(rest);
      if Due(e, r.time, rest[0]) {
        OutcomeElsewhere(k, e, r, rest[0], b, i, os[0]);
        VisitOthers(k, e, rest[1..], Called(e, r, rest[0], os[0]), os[1..], b, i);
      } else {
        VisitOthers(k, e, rest[1..], r.(kept := r.kept + [rest[0]]), os, b, i);
      }
    }
  }

  lemma StableSettled(k: Hooks, e: Env, r: Round, b: Bus, i: Inputs)
    requires HooksOk(k) && Stable(k, e, i) && T(r.time, k.rw) != 0
    ensures T(Called(e, r, k.rw, RwOutcome(RwEffect(k, e, r, b, i))).time, k.rw) == StableTime(e.picos, T(r.time, k.rw))
  {
    hide ActAll, RwEffect;
    StableCall(k, e, r, b, i);
    var f := RwEffect(k, e, r, b, i);
    ActsElsewhere(r.(time := r.time[k.rw := f.time], called := r.called + [k.rw]), f.acts, k.rw);
  }

  /** The rw hook is called at most once, so the round does to it what one call does. */
  lemma {:induction false} VisitStable(k: Hooks, e: Env, rest: seq<Ptr>, r: Round, os: seq<Outcome>, b: Bus, i: Inputs)
    requires HooksOk(k) && Distinct(rest) && k.rw in rest && Follows(k, e, rest, r, os, b, i) && Stable(k, e, i)
    ensures BusAfter(k, e, rest, r, os, b, i) == StableBus(b, e.picos, T(r.time, k.rw))
    ensures T(Visit(e, rest, r, os).time, k.rw) == StableTime(e.picos, T(r.time, k.rw))
    decreases |rest|
  {
    hide Called, RwEffect, Distinct;
    TailOf(rest);
    var h := rest[0];
    if Due(e, r.time, h) {
      if h == k.rw {
        StableCall(k, e, r, b, i);
        StableSettled(k, e, r, b, i);
        VisitOthers(k, e, rest[1..], Called(e, r, h, os[0]), os[1..], BusNext(k, e, r, h, b, i), i);
      } else {
        OutcomeElsewhere(k, e, r, h, b, i, os[0]);
        VisitStable(k, e, rest[1..], Called(e, r, h, os[0]), os[1..], b, i);
      }
    } else if h == k.rw {
      VisitOthers(k, e, rest[1..], r.(kept := r.kept + [h]), os, b, i);
    } else {
      VisitStable(k, e, rest[1..], r.(kept := r.kept + [h]), os, b, i);
    }
  }

  lemma {:induction false} ImmElsewhere(l: Live, acts: seq<Action>, g: Ptr)
    requires forall j :: 0 <= j < |acts| ==> acts[j].g != g
    ensures T(ImmAll(l, acts).time, g) == T(l.time, g)
    decreases |acts|
  {
    if acts != [] {
      assert forall j :: 0 <= j < |acts[1..]| ==> acts[1..][j] == acts[j + 1];
      ImmElsewhere(Imm(l, acts[0]), acts[1..], g);
    }
  }

  lemma {:induction false} FlatElsewhere(ss: seq<seq<Action>>, g: Ptr)
    requires forall j, m :: 0 <= j < |ss| && 0 <= m < |ss[j]| ==> ss[j][m].g != g
    ensures forall j :: 0 <= j < |Flat(ss)| ==> Flat(ss)[j].g != g
    decreases |ss|
  {
    if ss != [] {
      assert forall j :: 0 <= j < |ss[1..]| ==> ss[1..][j] == ss[j + 1];
      FlatElsewhere(ss[1..], g);
    }
  }

  lemma ScriptsElsewhere(k: Hooks, imm: seq<Ptr>, d: nat, scripts: seq<seq<Action>>)
    requires HooksOk(k) && ScriptsOf(k, imm, d, scripts)
    ensures forall j :: 0 <= j < |Flat(scripts)| ==> Flat(scripts)[j].g != k.rw
  {
    forall j, m | 0 <= j < |scripts| && 0 <= m < |scripts[j]|
      ensures scripts[j][m].g != k.rw
    {
      assert if imm[j] == k.cancel then scripts[j] == CancelScript(k, d) else Foreign(k, scripts[j]);
    }
    FlatElsewhere(scripts, k.rw);
  }

  /** A stable round, seen from outside. */
  lemma StableTurn(k: Hooks, s: Sys, x: Turn)
    requires SysInv(k, s) && TurnOk(k, s, x) && Stable(k, x.e, x.i)
    ensures var s' := Next(k, s, x);
            && s'.b == StableBus(s.b, x.e.picos, T(s.l.time, k.rw))
            && T(s'.l.time, k.rw) == StableTime(x.e.picos, T(s.l.time, k.rw))
  {
    BetweenKeeps(k, s, x);
    hide Ordered, Distinct, ImmAllowed, Visit, Follows, Obeys, ScriptsOf, ListAfter, BusAfter, ImmAll;
    var l, r := Before(s, x), Visited(s, x);
    ImmElsewhere(s.l, x.between, k.rw);
    VisitStable(k, x.e, l.listed, Begin(l.time), x.os, s.b, x.i);
    ScriptsElsewhere(k, r.imm, T(r.time, k.drop), x.scripts);
    ImmElsewhere(Live(ListAfter(r), r.time), Flat(x.scripts), k.rw);
  }

  /** The first n rounds are stable and none of them is at or past time t. */
  ghost predicate StableBefore(k: Hooks, xs: seq<Turn>, n: nat, t: nat) {
    n <= |xs| && forall j :: 0 <= j < n ==> Stable(k, xs[j].e, xs[j].i) && xs[j].e.picos < t
  }

  /** Nothing happens to a pending operation before its time. */
  lemma {:induction false} PendingUntil(k: Hooks, ss: seq<Sys>, xs: seq<Turn>, n: nat, t: nat)
    requires Run(k, ss, xs) && ss[0].b.ackPending && T(ss[0].l.time, k.rw) == t && StableBefore(k, xs, n, t)
    ensures ss[n].b == ss[0].b && T(ss[n].l.time, k.rw) == t
    decreases n
  {
    if n > 0 {
      RunKeeps(k, ss, xs, n - 1);
      assert ss[n] == Next(k, ss[n - 1], xs[n - 1]) && TurnOk(k, ss[n - 1], xs[n - 1]);
      hide TurnOk, SysInv, Next, Run;
      PendingUntil(k, ss, xs, n - 1, t);
      StableTurn(k, ss[n - 1], xs[n - 1]);
    }
  }

  /** After the target has been met or missed, no stable round acknowledges anything. */
  lemma {:induction false} QuietAfter(k: Hooks, ss: seq<Sys>, xs: seq<Turn>, m: nat, n: nat)
    requires Run(k, ss, xs) && m <= n <= |xs| && T(ss[m].l.time, k.rw) == 0
    requires forall j :: m <= j < n ==> Stable(k, xs[j].e, xs[j].i)
    ensures ss[n].b == ss[m].b && T(ss[n].l.time, k.rw) == 0
    decreases n - m
  {
    if m < n {
      RunKeeps(k, ss, xs, n - 1);
      assert ss[n] == Next(k, ss[n - 1], xs[n - 1]) && TurnOk(k, ss[n - 1], xs[n - 1]);
      hide TurnOk, SysInv, Next, Run;
      QuietAfter(k, ss, xs, m, n - 1);
      StableTurn(k, ss[n - 1], xs[n - 1]);
    }
  }

  /**
    An operation pending for time t, with stable inputs: let round m be the first one at or
    past t.  It is acknowledged, once, exactly when that round is at t itself; a round past
    t loses it, and no later stable round makes up for it.
   */
  lemma AckExactly(k: Hooks, ss: seq<Sys>, xs: seq<Turn>, m: nat, n: nat, t: nat)
    requires Run(k, ss, xs) && ss[0].b.ackPending && T(ss[0].l.time, k.rw) == t != 0
    requires m < n <= |xs| && StableBefore(k, xs, m, t) && xs[m].e.picos >= t
    requires forall j :: 0 <= j < n ==> Stable(k, xs[j].e, xs[j].i)
    ensures ss[m].b.opCount == ss[0].b.opCount
    ensures ss[n].b.opCount == ss[0].b.opCount + 1 && !ss[n].b.ackPending <==> xs[m].e.picos == t
    ensures xs[m].e.picos == t ==> ss[m + 1].b.opCount == ss[0].b.opCount + 1
    ensures xs[m].e.picos != t ==> ss[n].b.opCount == ss[0].b.opCount && ss[n].b.ackPending
  {
    RunKeeps(k, ss, xs, m);
    assert ss[m + 1] == Next(k, ss[m], xs[m]) && TurnOk(k, ss[m], xs[m]);
    hide TurnOk, SysInv, Next, Run;
    PendingUntil(k, ss, xs, m, t);
    StableTurn(k, ss[m], xs[m]);
    QuietAfter(k, ss, xs, m + 1, n);
  }

  /** No round is past a target of the rw hook that was still ahead: what WaitsInTime gives. */
  ghost predicate NeverOverstepped(k: Hooks, ss: seq<Sys>, xs: seq<Turn>) {
    |ss| == |xs| + 1 && forall j {:trigger xs[j]} :: 0 <= j < |xs| ==>
      T(ss[j].l.time, k.rw) == 0 || xs[j].e.picos <= T(ss[j].l.time, k.rw)
  }

  /** With waits that stop at targets, the acknowledgement comes exactly once and exactly at t. */
  lemma AckOnTime(k: Hooks, ss: seq<Sys>, xs: seq<Turn>, m: nat, n: nat, t: nat)
    requires Run(k, ss, xs) && ss[0].b.ackPending && T(ss[0].l.time, k.rw) == t != 0
    requires NeverOverstepped(k, ss, xs)
    requires m < n <= |xs| && StableBefore(k, xs, m, t) && xs[m].e.picos >= t
    requires forall j :: 0 <= j < n ==> Stable(k, xs[j].e, xs[j].i)
    ensures xs[m].e.picos == t
    ensures ss[m].b.opCount == ss[0].b.opCount && ss[m + 1].b.opCount == ss[n].b.opCount == ss[0].b.opCount + 1
    ensures !ss[n].b.ackPending
  {
    hide Run, Stable;
    PendingUntil(k, ss, xs, m, t);
    AckExactly(k, ss, xs, m, n, t);
    assert xs[m] == xs[m];
    QuietAfterAck(k, ss, xs, m, n, t);
  }

  lemma QuietAfterAck(k: Hooks, ss: seq<Sys>, xs: seq<Turn>, m: nat, n: nat, t: nat)
    requires Run(k, ss, xs) && T(ss[0].l.time, k.rw) == t && ss[0].b.ackPending
    requires m < n <= |xs| && StableBefore(k, xs, m, t) && xs[m].e.picos >= t
    requires forall j :: 0 <= j < n ==> Stable(k, xs[j].e, xs[j].i)
    ensures ss[n].b == ss[m + 1].b
  {
    RunKeeps(k, ss, xs, m);
    assert ss[m + 1] == Next(k, ss[m], xs[m]) && TurnOk(k, ss[m], xs[m]);
    hide TurnOk, SysInv, Next, Run;
    PendingUntil(k, ss, xs, m, t);
    StableTurn(k, ss[m], xs[m]);
    QuietAfter(k, ss, xs, m + 1, n);
  }
}
