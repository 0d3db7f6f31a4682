/**
  From the start of a bus operation to its acknowledgement: what the acknowledge line does round
  by round, runs whose waits are those of sim_wait_time, and runs that show both outcomes.
 */
module MemBusAck {
  import opened Addresses
  import opened UtList
  import opened SchedulerSpec
  import opened SchedulerProof
  import opened Scheduler
  import opened MemBus
  import opened MemBusProof
  import opened MemBusRuns

  // ----- the acknowledge line -----

  ghost function CallOuts(k: Hooks, e: Env, r: Round, h: Ptr, b: Bus, i: Inputs): seq<Out> {
    if h == k.rw then RwEffect(k, e, r, b, i).outs else if h == k.drop then DropOuts(b, i) else []
  }

  /** What the bus writes to its signals during the calls of a round. */
  ghost function OutsOf(k: Hooks, e: Env, rest: seq<Ptr>, r: Round, os: seq<Outcome>, b: Bus, i: Inputs): seq<Out>
    decreases |rest|
  {
    if rest == [] then []
    else if Due(e, r.time, rest[0]) && os != [] then
      CallOuts(k, e, r, rest[0], b, i) +
      OutsOf(k, e, rest[1..], Called(e, r, rest[0], os[0]), os[1..], BusNext(k, e, r, rest[0], b, i), i)
    else OutsOf(k, e, rest[1..], r.(kept := r.kept + [rest[0]]), os, b, i)
  }

  ghost function TurnOuts(k: Hooks, s: Sys, x: Turn): seq<Out> {
    OutsOf(k, x.e, Before(s, x).listed, Begin(Before(s, x).time), x.os, s.b, x.i)
  }

  lemma CallRaises(k: Hooks, e: Env, r: Round, h: Ptr, b: Bus, i: Inputs)
    ensures b.opCount + Raised(CallOuts(k, e, r, h, b, i)) == BusNext(k, e, r, h, b, i).opCount
  {
    hide ReadWrite, Raised, DropAck;
    NothingRaised();
    DropNeverRaises(i);
    RwRaises(k, b, i, e.picos, T(r.time, k.rw), T(r.time, k.drop));
  }

  lemma {:induction false} VisitRaises(k: Hooks, e: Env, rest: seq<Ptr>, r: Round, os: seq<Outcome>, b: Bus, i: Inputs)
    ensures b.opCount + Raised(OutsOf(k, e, rest, r, os, b, i)) == BusAfter(k, e, rest, r, os, b, i).opCount
    decreases |rest|
  {
    hide CallOuts, BusNext, Called, Raised, Due;
    NothingRaised();
    if rest != [] {
      if Due(e, r.time, rest[0]) && os != [] {
        var a, b1 := CallOuts(k, e, r, rest[0], b, i), BusNext(k, e, r, rest[0], b, i);
        CallRaises(k, e, r, rest[0], b, i);
        VisitRaises(k, e, rest[1..], Called(e, r, rest[0], os[0]), os[1..], b1, i);
        RaisedConcat(a, OutsOf(k, e, rest[1..], Called(e, r, rest[0], os[0]), os[1..], b1, i));
      } else {
        VisitRaises(k, e, rest[1..], r.(kept := r.kept + [rest[0]]), os, b, i);
      }
    }
  }

  /** A round raises the acknowledge line exactly as often as it counts operations. */
  lemma TurnRaises(k: Hooks, s: Sys, x: Turn)
    ensures s.b.opCount + Raised(TurnOuts(k, s, x)) == Next(k, s, x).b.opCount
  {
    hide OutsOf, BusAfter, Raised, ImmAll, Visit;
    VisitRaises(k, x.e, Before(s, x).listed, Begin(Before(s, x).time), x.os, s.b, x.i);
  }

  /** Operations are never uncounted. */
  lemma {:induction false} CountGrows(k: Hooks, ss: seq<Sys>, xs: seq<Turn>, m: nat, n: nat)
    requires Run(k, ss, xs) && m <= n < |ss|
    ensures ss[m].b.opCount <= ss[n].b.opCount
    decreases n
  {
    if m < n {
      assert TurnAt(k, ss, xs, n);
      hide TurnOk, Next, SysInv, Raised;
      TurnRaises(k, ss[n - 1], xs[n - 1]);
      CountGrows(k, ss, xs, m, n - 1);
    }
  }

  lemma TurnCounts(k: Hooks, ss: seq<Sys>, xs: seq<Turn>, j: nat)
    requires Run(k, ss, xs) && j < |xs|
    ensures |ss| == |xs| + 1 && ss[j].b.opCount + Raised(TurnOuts(k, ss[j], xs[j])) == ss[j + 1].b.opCount
  {
    assert TurnAt(k, ss, xs, j + 1);
    hide TurnOk, Next, SysInv, Raised, TurnOuts;
    TurnRaises(k, ss[j], xs[j]);
  }

  /** If the count goes up by one, in round m, then round m raises the line once and no other does. */
  lemma RaisedIn(k: Hooks, ss: seq<Sys>, xs: seq<Turn>, m: nat, n: nat, j: nat)
    requires Run(k, ss, xs) && |ss| == |xs| + 1 && m < n <= |xs| && j < n
    requires ss[m].b.opCount == ss[0].b.opCount && ss[m + 1].b.opCount == ss[n].b.opCount == ss[0].b.opCount + 1
    ensures Raised(TurnOuts(k, ss[j], xs[j])) == if j == m then 1 else 0
  {
    hide Raised, TurnOuts, Run;
    TurnCounts(k, ss, xs, j);
    CountGrows(k, ss, xs, 0, j);
    CountGrows(k, ss, xs, j + 1, n);
    if j < m {
      CountGrows(k, ss, xs, j + 1, m);
    } else if j > m {
      CountGrows(k, ss, xs, m + 1, j);
    }
  }

  // ----- from the start of an operation to its acknowledgement -----

  /** A signal of the bus changed, and the signals ask for a legal operation that takes time. */
  ghost predicate Starts(k: Hooks, e: Env, i: Inputs) {
    && i.changed && k.rw in e.sub && e.events * e.sub[k.rw] != {}
    && i.en == Some(true) && (i.hasWr ==> i.wr.Some? && i.rd.Some? && (i.wr.value || i.rd.value))
    && var isRead := !(i.hasWr && i.wr.value);
    && i.addr.Some? && i.we.Some? && NumBytes(isRead, i.addr.value, i.we.value).Some? && (isRead || i.din.Some?)
    && i.reply.Completed? && i.reply.ackDelay != 0
  }

  ghost function AckTime(e: Env, i: Inputs): nat
    requires i.reply.Completed?
  {
    e.picos + i.reply.ackDelay * 1000
  }

  ghost predicate IsRead(i: Inputs) { !(i.hasWr && i.wr.Some? && i.wr.value) }

  lemma StartCall(k: Hooks, e: Env, r: Round, b: Bus, i: Inputs)
    requires Starts(k, e, i)
    ensures var f := RwEffect(k, e, r, b, i);
            && f.bus.ackPending && f.bus.opCount == b.opCount && f.time == AckTime(e, i)
            && (IsRead(i) ==> f.bus.readVal == ReadData(i))
            && forall j :: 0 <= j < |f.acts| ==> f.acts[j].g == k.drop
  {
    hide NumBytes;
  }

  lemma StartSettled(k: Hooks, e: Env, r: Round, b: Bus, i: Inputs)
    requires HooksOk(k) && Starts(k, e, i)
    ensures T(Called(e, r, k.rw, RwOutcome(RwEffect(k, e, r, b, i))).time, k.rw) == AckTime(e, i)
  {
    hide ActAll, RwEffect;
    StartCall(k, e, r, b, i);
    var f := RwEffect(k, e, r, b, i);
    ActsElsewhere(r.(time := r.time[k.rw := f.time], called := r.called + [k.rw]), f.acts, k.rw);
  }

  lemma {:induction false} VisitStart(k: Hooks, e: Env, rest: seq<Ptr>, r: Round, os: seq<Outcome>, b: Bus, i: Inputs)
    requires HooksOk(k) && Distinct(rest) && k.rw in rest && Follows(k, e, rest, r, os, b, i) && Starts(k, e, i)
    ensures var b' := BusAfter(k, e, rest, r, os, b, i);
            b'.ackPending && b'.opCount == b.opCount && (IsRead(i) ==> b'.readVal == ReadData(i))
    ensures T(Visit(e, rest, r, os).time, k.rw) == AckTime(e, i)
    decreases |rest|
  {
    assert Due(e, r.time, k.rw);
    hide Called, RwEffect, Distinct, Starts;
    TailOf(rest);
    var h := rest[0];
    if h == k.rw {
      StartCall(k, e, r, b, i);
      StartSettled(k, e, r, b, i);
      VisitOthers(k, e, rest[1..], Called(e, r, h, os[0]), os[1..], BusNext(k, e, r, h, b, i), i);
    } else if Due(e, r.time, h) {
      VisitStart(k, e, rest[1..], Called(e, r, h, os[0]), os[1..], b, i);
    } else {
      VisitStart(k, e, rest[1..], r.(kept := r.kept + [h]), os, b, i);
    }
  }

  /** The round in which an operation starts leaves it pending, for ackDelay * 1000 ps later. */
  lemma StartTurn(k: Hooks, s: Sys, x: Turn)
    requires SysInv(k, s) && TurnOk(k, s, x) && Starts(k, x.e, x.i)
    ensures var s' := Next(k, s, x);
            && s'.b.ackPending && s'.b.opCount == s.b.opCount && T(s'.l.time, k.rw) == AckTime(x.e, x.i)
            && (IsRead(x.i) ==> s'.b.readVal == ReadData(x.i))
  {
    BetweenKeeps(k, s, x);
    hide Ordered, Distinct, ImmAllowed, Visit, Follows, Obeys, ScriptsOf, ListAfter, BusAfter, ImmAll, Starts;
    var l, r := Before(s, x), Visited(s, x);
    VisitStart(k, x.e, l.listed, Begin(l.time), x.os, s.b, x.i);
    ScriptsElsewhere(k, r.imm, T(r.time, k.drop), x.scripts);
    ImmElsewhere(Live(ListAfter(r), r.time), Flat(x.scripts), k.rw);
  }

  // ----- waits -----

  /** The callbacks of others add only future targets; those of the bus are not asked. */
  ghost predicate FutureForeign(k: Hooks, e: Env, rest: seq<Ptr>, r: Round, os: seq<Outcome>)
    decreases |rest|
  {
    if rest == [] then true
    else if Due(e, r.time, rest[0]) then
      && os != [] && (rest[0] != k.rw ==> Future(e.picos, os[0].acts))
      && FutureForeign(k, e, rest[1..], Called(e, r, rest[0], os[0]), os[1..])
    else FutureForeign(k, e, rest[1..], r.(kept := r.kept + [rest[0]]), os)
  }

  lemma RwFuture(k: Hooks, e: Env, r: Round, b: Bus, i: Inputs)
    ensures Future(e.picos, RwEffect(k, e, r, b, i).acts)
  {
    hide ReadWrite;
    var adds, cancels, t := RwShape(k, b, i, e.picos, T(r.time, k.rw), T(r.time, k.drop));
  }

  lemma {:induction false} BusFuture(k: Hooks, e: Env, rest: seq<Ptr>, r: Round, os: seq<Outcome>, b: Bus, i: Inputs)
    requires Follows(k, e, rest, r, os, b, i) && FutureForeign(k, e, rest, r, os)
    ensures FutureVisit(e, rest, r, os)
    decreases |rest|
  {
    hide Called, Future, RwEffect, Due, Foreign;
    if rest != [] {
      if Due(e, r.time, rest[0]) {
        if rest[0] == k.rw { RwFuture(k, e, r, b, i); }
        BusFuture(k, e, rest[1..], Called(e, r, rest[0], os[0]), os[1..], BusNext(k, e, r, rest[0], b, i), i);
      } else {
        BusFuture(k, e, rest[1..], r.(kept := r.kept + [rest[0]]), os, b, i);
      }
    }
  }

  /** The immediate callbacks of others add only future targets. */
  ghost predicate FutureScripts(k: Hooks, picos: nat, imm: seq<Ptr>, scripts: seq<seq<Action>>) {
    forall j {:trigger scripts[j]} :: 0 <= j < |scripts| && j < |imm| && imm[j] != k.cancel ==>
      Future(picos, scripts[j])
  }

  lemma {:induction false} FlatFuture(picos: nat, ss: seq<seq<Action>>)
    requires forall j {:trigger ss[j]} :: 0 <= j < |ss| ==> Future(picos, ss[j])
    ensures Future(picos, Flat(ss))
    decreases |ss|
  {
    if ss != [] {
      assert forall j :: 0 <= j < |ss[1..]| ==> ss[1..][j] == ss[j + 1];
      FlatFuture(picos, ss[1..]);
    }
  }

  lemma ScriptsFuture(k: Hooks, picos: nat, imm: seq<Ptr>, d: nat, scripts: seq<seq<Action>>)
    requires ScriptsOf(k, imm, d, scripts) && FutureScripts(k, picos, imm, scripts)
    ensures Future(picos, Flat(scripts))
  {
    forall j {:trigger scripts[j]} | 0 <= j < |scripts|
      ensures Future(picos, scripts[j])
    {
      assert if imm[j] == k.cancel then scripts[j] == CancelScript(k, d) else Foreign(k, scripts[j]);
    }
    FlatFuture(picos, scripts);
  }

  /** Between rounds at time now, and in the round, others add only future targets. */
  ghost predicate TurnFuture(k: Hooks, s: Sys, x: Turn, now: nat) {
    && Future(now, x.between)
    && FutureForeign(k, x.e, Before(s, x).listed, Begin(Before(s, x).time), x.os)
    && FutureScripts(k, x.e.picos, Visited(s, x).imm, x.scripts)
  }

  lemma BetweenNonePast(k: Hooks, s: Sys, x: Turn, now: nat)
    requires SysInv(k, s) && TurnOk(k, s, x) && Future(now, x.between) && NonePast(s.l.time, now, s.l.listed)
    ensures NonePast(Before(s, x).time, now, Before(s, x).listed)
  {
    hide Ordered, Distinct, BusInv, ImmAll, ImmAllowed, Visit, Follows, Obeys, ScriptsOf, Future, NonePast;
    ImmFuture(s.l, [k.cancel], x.between, now);
  }

  /** After every round no listed hook has a passed target, if others add only future ones. */
  lemma TurnNonePast(k: Hooks, s: Sys, x: Turn, now: nat)
    requires SysInv(k, s) && TurnOk(k, s, x) && TurnFuture(k, s, x, now)
    ensures NonePast(Next(k, s, x).l.time, x.e.picos, Next(k, s, x).l.listed)
  {
    BetweenKeeps(k, s, x);
    hide Ordered, Distinct, BusInv, ImmAll, ImmAllowed, Visit, Follows, Obeys, ScriptsOf, Future, FutureForeign,
         FutureScripts, FutureVisit, NonePast, ListAfter, BusAfter, Flat;
    var l, r := Before(s, x), Visited(s, x);
    BusFuture(k, x.e, l.listed, Begin(l.time), x.os, s.b, x.i);
    FutureRound(x.e, l.listed, l.time, x.os);
    RoundOrdered(x.e, l.listed, l.time, x.os);
    ScriptsFuture(k, x.e.picos, r.imm, T(r.time, k.drop), x.scripts);
    ImmFuture(Live(ListAfter(r), r.time), r.imm, Flat(x.scripts), x.e.picos);
  }

  /** The time at which turn j begins: that of the round before it. */
  ghost function Now(xs: seq<Turn>, start: nat, j: nat): nat
    requires j <= |xs|
  {
    if j == 0 then start else xs[j - 1].e.picos
  }

  /** Turn j begins at the time of the round before, and its round comes after a wait of
      sim_wait_time that ends no later than asked for. */
  ghost predicate PacedOnce(k: Hooks, s: Sys, x: Turn, now: nat, request: nat) {
    var l := Before(s, x);
    TurnFuture(k, s, x, now) && x.e.picos <= now + WaitDelay(l.time, now, l.listed, request)
  }

  /** All turns are paced like that; at the start no listed target has passed. */
  ghost predicate Paced(k: Hooks, ss: seq<Sys>, xs: seq<Turn>, start: nat, request: seq<nat>) {
    && |ss| == |xs| + 1 && |request| == |xs| && NonePast(ss[0].l.time, start, ss[0].l.listed)
    && forall j {:trigger request[j]} :: 0 <= j < |xs| ==> PacedOnce(k, ss[j], xs[j], Now(xs, start, j), request[j])
  }

  /** In a paced run no listed target has passed when a turn begins. */
  lemma {:induction false} PacedNonePast(k: Hooks, ss: seq<Sys>, xs: seq<Turn>, start: nat, request: seq<nat>, j: nat)
    requires Run(k, ss, xs) && Paced(k, ss, xs, start, request) && j <= |xs|
    ensures NonePast(ss[j].l.time, Now(xs, start, j), ss[j].l.listed)
    decreases j
  {
    if j > 0 {
      assert TurnAt(k, ss, xs, j);
      assert PacedOnce(k, ss[j - 1], xs[j - 1], Now(xs, start, j - 1), request[j - 1]);
      RunKeeps(k, ss, xs, j - 1);
      hide SysInv, TurnOk, Next, Run, Paced, TurnFuture, NonePast;
      TurnNonePast(k, ss[j - 1], xs[j - 1], Now(xs, start, j - 1));
    }
  }

  lemma WaitKeepsTarget(k: Hooks, s: Sys, x: Turn, now: nat, request: nat)
    requires SysInv(k, s) && TurnOk(k, s, x) && PacedOnce(k, s, x, now, request) && NonePast(s.l.time, now, s.l.listed)
    ensures T(s.l.time, k.rw) == 0 || x.e.picos <= T(s.l.time, k.rw)
  {
    BetweenKeeps(k, s, x);
    ImmElsewhere(s.l, x.between, k.rw);
    BetweenNonePast(k, s, x, now);
    hide Ordered, Distinct, ImmAllowed, Visit, Follows, Obeys, ScriptsOf, ListAfter, ImmAll, NonePast, WaitDelay,
         Future, FutureForeign, FutureScripts;
    var l := Before(s, x);
    WaitsInTime(l.time, now, l.listed, request, x.e.picos, k.rw);
  }

  /** Waits that stop at the head's target never overstep the target of the bus. */
  lemma WaitsNeverOverstep(k: Hooks, ss: seq<Sys>, xs: seq<Turn>, start: nat, request: seq<nat>)
    requires Run(k, ss, xs) && Paced(k, ss, xs, start, request)
    ensures NeverOverstepped(k, ss, xs)
  {
    forall j | 0 <= j < |xs|
      ensures T(ss[j].l.time, k.rw) == 0 || xs[j].e.picos <= T(ss[j].l.time, k.rw)
    {
      RunKeeps(k, ss, xs, j);
      PacedNonePast(k, ss, xs, start, request, j);
      assert TurnAt(k, ss, xs, j + 1);
      assert PacedOnce(k, ss[j], xs[j], Now(xs, start, j), request[j]);
      hide SysInv, TurnOk, Next, PacedOnce, Run, Paced, NonePast;
      WaitKeepsTarget(k, ss[j], xs[j], Now(xs, start, j), request[j]);
    }
  }

  lemma RunTail(k: Hooks, ss: seq<Sys>, xs: seq<Turn>)
    requires Run(k, ss, xs) && xs != []
    ensures Run(k, ss[1..], xs[1..])
  {
    RunKeeps(k, ss, xs, 1);
    hide SysInv;
    forall n | 0 < n < |xs|
      ensures TurnAt(k, ss[1..], xs[1..], n)
    {
      TailTurn(k, ss, xs, n);
    }
  }

  lemma TailTurn(k: Hooks, ss: seq<Sys>, xs: seq<Turn>, n: nat)
    requires Run(k, ss, xs) && 0 < n < |xs|
    ensures TurnAt(k, ss[1..], xs[1..], n)
  {
    hide SysInv, TurnOk, Next;
    assert ss[1..][n] == ss[n + 1] && ss[1..][n - 1] == ss[n] && xs[1..][n - 1] == xs[n];
  }

  lemma TailInTime(k: Hooks, ss: seq<Sys>, xs: seq<Turn>)
    requires xs != [] && NeverOverstepped(k, ss, xs)
    ensures NeverOverstepped(k, ss[1..], xs[1..])
  {
    var ss', xs' := ss[1..], xs[1..];
    assert forall j :: 0 <= j < |xs'| ==> xs'[j] == xs[j + 1] && ss'[j] == ss[j + 1];
  }

  /**
    The whole story of one operation: it starts in the first round, the inputs stay stable, all
    waits are those of sim_wait_time, and round m is the first at or past the acknowledge time.
    Then round m is at that time exactly, which is ackDelay * 1000 ps after the start; it raises
    the acknowledge line once, after putting out the data of a read, and no other round raises it.
   */
  lemma AcknowledgedOnTime(k: Hooks, ss: seq<Sys>, xs: seq<Turn>, start: nat, request: seq<nat>, m: nat, n: nat)
    requires Run(k, ss, xs) && Paced(k, ss, xs, start, request) && 0 < m < n <= |xs| && Starts(k, xs[0].e, xs[0].i)
    requires forall j :: 0 < j < n ==> Stable(k, xs[j].e, xs[j].i)
    requires forall j :: 0 < j < m ==> xs[j].e.picos < AckTime(xs[0].e, xs[0].i)
    requires xs[m].e.picos >= AckTime(xs[0].e, xs[0].i)
    ensures xs[m].e.picos == xs[0].e.picos + xs[0].i.reply.ackDelay * 1000
    ensures forall j {:trigger xs[j]} :: 0 <= j < n ==> Raised(TurnOuts(k, ss[j], xs[j])) == if j == m then 1 else 0
    ensures IsRead(xs[0].i) && IsRead(xs[m].i) ==> PutsOut(TurnOuts(k, ss[m], xs[m]), AckOuts(true, ReadData(xs[0].i)))
    ensures ss[m].b.opCount == ss[0].b.opCount && ss[m + 1].b.opCount == ss[n].b.opCount == ss[0].b.opCount + 1
  {
    RunKeeps(k, ss, xs, 0);
    RunKeeps(k, ss, xs, m);
    assert TurnAt(k, ss, xs, 1) && TurnAt(k, ss, xs, m + 1);
    assert StableIn(k, xs, 1, n) && EarlyIn(xs, 1, m, AckTime(xs[0].e, xs[0].i)) && |xs| == |ss| - 1;
    assert Stable(k, xs[m].e, xs[m].i);
    hide TurnOk, SysInv, Next, Run, Paced, NeverOverstepped, Starts, Stable, StableIn, EarlyIn, Raised, TurnOuts,
         AckOuts, PutsOut;
    WaitsNeverOverstep(k, ss, xs, start, request);
    StartTurn(k, ss[0], xs[0]);
    OnTimeAfterStart(k, ss, xs, m, n, AckTime(xs[0].e, xs[0].i));
    AckTurnOuts(k, ss[m], xs[m]);
    forall j {:trigger xs[j]} | 0 <= j < n
      ensures Raised(TurnOuts(k, ss[j], xs[j])) == if j == m then 1 else 0
    {
      RaisedIn(k, ss, xs, m, n, j);
    }
  }

  /** The outputs contain the others, in one piece. */
  ghost predicate PutsOut(outs: seq<Out>, part: seq<Out>) { exists p, q :: outs == p + part + q }

  lemma PutsOutMore(p: seq<Out>, outs: seq<Out>, q: seq<Out>, part: seq<Out>)
    requires PutsOut(outs, part)
    ensures PutsOut(p + outs + q, part)
  {
    var a, c :| outs == a + part + c;
    assert p + outs + q == (p + a) + part + (c + q);
  }

  lemma {:induction false} VisitAckOuts(k: Hooks, e: Env, rest: seq<Ptr>, r: Round, os: seq<Outcome>, b: Bus, i: Inputs)
    requires HooksOk(k) && Distinct(rest) && k.rw in rest && Follows(k, e, rest, r, os, b, i) && Stable(k, e, i)
    requires T(r.time, k.rw) == e.picos != 0 && b.ackPending
    ensures PutsOut(OutsOf(k, e, rest, r, os, b, i), AckOuts(IsRead(i), b.readVal))
    decreases |rest|
  {
    hide Called, RwEffect, Distinct, PutsOut, AckOuts, DropOuts, Stable;
    TailOf(rest);
    var h, part := rest[0], AckOuts(IsRead(i), b.readVal);
    if Due(e, r.time, h) {
      var rest', r', b' := rest[1..], Called(e, r, h, os[0]), BusNext(k, e, r, h, b, i);
      if h == k.rw {
        AckCallOuts(k, e, r, b, i);
        PutsOutSelf(part, OutsOf(k, e, rest', r', os[1..], b', i));
      } else {
        OutcomeElsewhere(k, e, r, h, b, i, os[0]);
        VisitAckOuts(k, e, rest', r', os[1..], b, i);
        var a, c := CallOuts(k, e, r, h, b, i), OutsOf(k, e, rest', r', os[1..], b, i);
        PutsOutMore(a, c, [], part);
        assert a + c + [] == a + c;
      }
    } else {
      VisitAckOuts(k, e, rest[1..], r.(kept := r.kept + [h]), os, b, i);
    }
  }

  lemma PutsOutSelf(part: seq<Out>, q: seq<Out>)
    ensures PutsOut(part + q, part)
  {
    assert part + q == [] + part + q;
  }

  lemma AckCallOuts(k: Hooks, e: Env, r: Round, b: Bus, i: Inputs)
    requires Stable(k, e, i) && T(r.time, k.rw) == e.picos != 0 && b.ackPending
    ensures RwEffect(k, e, r, b, i).outs == AckOuts(IsRead(i), b.readVal)
  {
    var isRead := IsRead(i);
    assert [] + (if isRead then [SetDout(b.readVal)] else []) + [SetAck(true)] == AckOuts(isRead, b.readVal);
  }

  /** The round at the target of a pending operation puts out the data of a read and raises the line. */
  lemma AckTurnOuts(k: Hooks, s: Sys, x: Turn)
    requires SysInv(k, s) && TurnOk(k, s, x) && Stable(k, x.e, x.i) && s.b.ackPending &&
             T(s.l.time, k.rw) == x.e.picos != 0
    ensures PutsOut(TurnOuts(k, s, x), AckOuts(IsRead(x.i), s.b.readVal))
  {
    BetweenKeeps(k, s, x);
    ImmElsewhere(s.l, x.between, k.rw);
    hide Ordered, Distinct, ImmAllowed, Visit, Follows, Obeys, ScriptsOf, ListAfter, ImmAll, OutsOf, PutsOut, AckOuts,
         Stable;
    var l := Before(s, x);
    VisitAckOuts(k, x.e, l.listed, Begin(l.time), x.os, s.b, x.i);
  }

  ghost predicate StableIn(k: Hooks, xs: seq<Turn>, lo: nat, hi: nat) {
    hi <= |xs| && forall j {:trigger xs[j]} :: lo <= j < hi ==> Stable(k, xs[j].e, xs[j].i)
  }

  ghost predicate EarlyIn(xs: seq<Turn>, lo: nat, hi: nat, t: nat) {
    hi <= |xs| && forall j {:trigger xs[j]} :: lo <= j < hi ==> xs[j].e.picos < t
  }

  lemma OnTimeAfterStart(k: Hooks, ss: seq<Sys>, xs: seq<Turn>, m: nat, n: nat, t: nat)
    requires Run(k, ss, xs) && NeverOverstepped(k, ss, xs) && 0 < m < n <= |xs| == |ss| - 1
    requires ss[1].b.ackPending && T(ss[1].l.time, k.rw) == t != 0
    requires StableIn(k, xs, 1, n) && EarlyIn(xs, 1, m, t) && xs[m].e.picos >= t
    ensures xs[m].e.picos == t && ss[m].b == ss[1].b && T(ss[m].l.time, k.rw) == t
    ensures ss[m].b.opCount == ss[1].b.opCount && ss[m + 1].b.opCount == ss[n].b.opCount == ss[1].b.opCount + 1
  {
    hide Run, NeverOverstepped, StableIn, EarlyIn;
    RunTail(k, ss, xs);
    TailInTime(k, ss, xs);
    StableTail(k, xs, m, n, t);
    assert ss[1..][0] == ss[1] && ss[1..][m - 1] == ss[m] && ss[1..][m] == ss[m + 1] && ss[1..][n - 1] == ss[n];
    AckOnTimeIn(k, ss[1..], xs[1..], m - 1, n - 1, t);
  }

  lemma AckOnTimeIn(k: Hooks, ss: seq<Sys>, xs: seq<Turn>, m: nat, n: nat, t: nat)
    requires Run(k, ss, xs) && NeverOverstepped(k, ss, xs) && m < n <= |xs| == |ss| - 1
    requires ss[0].b.ackPending && T(ss[0].l.time, k.rw) == t != 0
    requires StableIn(k, xs, 0, n) && EarlyIn(xs, 0, m, t) && xs[m].e.picos >= t
    ensures xs[m].e.picos == t && ss[m].b == ss[0].b && T(ss[m].l.time, k.rw) == t
    ensures ss[m].b.opCount == ss[0].b.opCount && ss[m + 1].b.opCount == ss[n].b.opCount == ss[0].b.opCount + 1
  {
    hide Run, NeverOverstepped, Stable;
    AckOnTime(k, ss, xs, m, n, t);
    PendingUntil(k, ss, xs, m, t);
  }

  lemma StableTail(k: Hooks, xs: seq<Turn>, m: nat, n: nat, t: nat)
    requires 0 < m < n <= |xs| && StableIn(k, xs, 1, n) && EarlyIn(xs, 1, m, t)
    ensures StableIn(k, xs[1..], 0, n - 1) && EarlyIn(xs[1..], 0, m - 1, t) && xs[1..][m - 1] == xs[m]
  {
    hide Stable;
    var xs' := xs[1..];
    assert forall j :: 0 <= j < |xs'| ==> xs'[j] == xs[j + 1];
  }

  // ----- runs exist -----

  lemma {:induction false} NothingDue(k: Hooks, e: Env, rest: seq<Ptr>, r: Round, b: Bus, i: Inputs)
    requires forall j {:trigger rest[j]} :: 0 <= j < |rest| ==> !Due(e, r.time, rest[j])
    ensures Obeys(e, rest, r, []) && Follows(k, e, rest, r, [], b, i) && Visit(e, rest, r, []).imm == r.imm
    decreases |rest|
  {
    if rest != [] {
      assert !Due(e, r.time, rest[0]);
      var rest', r' := rest[1..], r.(kept := r.kept + [rest[0]]);
      assert forall j :: 0 <= j < |rest'| ==> rest'[j] == rest[j + 1];
      hide Due;
      NothingDue(k, e, rest', r', b, i);
    }
  }

  /** From every state of a run, a round before any target with no changed signal is a turn. */
  lemma IdleTurn(k: Hooks, s: Sys, picos: nat, i: Inputs)
    requires SysInv(k, s) && NonePast(s.l.time, picos, s.l.listed)
    ensures TurnOk(k, s, Turn([], Env(picos, {}, map[]), i, [], []))
  {
    hide Ordered, Distinct, BusInv;
    var x := Turn([], Env(picos, {}, map[]), i, [], []);
    assert Before(s, x) == s.l;
    NothingDue(k, x.e, s.l.listed, Begin(s.l.time), s.b, i);
    hide Obeys, Follows, Visit;
    assert Visited(s, x).imm == [];
  }

  // ----- a bus alone: runs for all inputs -----

  /** The bus is the only device, and no drop is scheduled. */
  ghost predicate Alone(k: Hooks, s: Sys) { SysInv(k, s) && s.l.listed == [k.rw] && T(s.l.time, k.drop) == 0 }

  /** The bus at its beginning: only the read/write hook is listed. */
  ghost function AloneSys(k: Hooks): Sys { Sys(Live([k.rw], map[]), Bus(false, 0, 0, 0, 0, 0)) }

  lemma AloneState(k: Hooks)
    requires HooksOk(k)
    ensures Alone(k, AloneSys(k)) && Run(k, [AloneSys(k)], [])
  {
  }

  /** With the acknowledge line low the callback at most cancels. */
  lemma NoDrop(k: Hooks, b: Bus, i: Inputs, picos: nat, time: nat, dropTime: nat)
    requires !i.ack
    ensures var f := ReadWrite(k, b, i, picos, time, dropTime); f.acts == [] || f.acts == [Immediate(k.cancel)]
  {
    hide NumBytes;
    assert [] + [Immediate(k.cancel)] == [Immediate(k.cancel)];
  }

  lemma OneImmediate(r: Round, cancel: Ptr)
    ensures ActAll(r, [Immediate(cancel)]) == r.(imm := r.imm + [cancel]) && ActAll(r, []) == r
    ensures !Listed(r, [], cancel) && cancel != NULL ==> AllAllowed(r, [], [Immediate(cancel)])
  {
    var a := Immediate(cancel);
    assert [a][1..] == [] && [a][0] == a;
    assert ActAll(r, [a]) == ActAll(Act(r, a), [a][1..]);
  }

  /** The call of the only listed hook, from the beginning of a round. */
  lemma AloneCalled(k: Hooks, e: Env, time: Times, f: Effect)
    requires HooksOk(k) && (f.acts == [] || f.acts == [Immediate(k.cancel)])
    ensures var r := Called(e, Begin(time), k.rw, RwOutcome(f));
            && r.imm == (if f.acts == [] then [] else [k.cancel]) && T(r.time, k.drop) == T(time, k.drop)
            && ((r.kept == [k.rw] && r.pend == []) || (r.kept == [] && r.pend == [k.rw]))
            && AllAllowed(Entered(Begin(time), k.rw, f.time), [k.rw], f.acts)
  {
    var r1 := Entered(Begin(time), k.rw, f.time);
    OneImmediate(r1, k.cancel);
    assert [] + [k.cancel] == [k.cancel] && [] + [k.rw] == [k.rw];
    var a := Immediate(k.cancel);
    assert [a][1..] == [];
    assert AllAllowed(Act(r1, a), [k.rw], []);
    hide ActAll;
  }

  lemma MergeAlone(time: Times, h: Ptr)
    ensures InsertAll(time, [h], []) == [h] && InsertAll(time, [], [h]) == [h]
  {
    assert [h][1..] == [] && [] + [h] == [h];
    assert Position(time, [], T(time, h)) == 0;
    assert [][..0] + [h] + [][0..] == [h];
    assert Insert(time, [], h) == [h];
    assert InsertAll(time, [], [h]) == InsertAll(time, Insert(time, [], h), [h][1..]);
  }

  /** The turn of a bus alone: nothing happens between rounds, the callbacks are those of the bus. */
  ghost function AloneTurn(k: Hooks, s: Sys, e: Env, i: Inputs): Turn {
    var f := RwEffect(k, e, Begin(s.l.time), s.b, i);
    if Due(e, s.l.time, k.rw) then Turn([], e, i, [RwOutcome(f)], if f.acts == [] then [] else [[]])
      else Turn([], e, i, [], [])
  }

  /** What the round of a bus alone leaves, before the immediate callbacks. */
  lemma AloneVisit(k: Hooks, s: Sys, e: Env, i: Inputs)
    requires Alone(k, s) && !i.ack
    ensures var x := AloneTurn(k, s, e, i); var rd, r := Begin(s.l.time), Visit(e, [k.rw], Begin(s.l.time), x.os);
            && Obeys(e, [k.rw], rd, x.os) && Follows(k, e, [k.rw], rd, x.os, s.b, i) &&
               FutureForeign(k, e, [k.rw], rd, x.os)
            && ListAfter(r) == [k.rw] && T(r.time, k.drop) == 0 && |x.scripts| == |r.imm|
            && (r.imm == [] || (r.imm == [k.cancel] && x.scripts == [[]]))
  {
    var x := AloneTurn(k, s, e, i);
    var rd, f := Begin(s.l.time), RwEffect(k, e, Begin(s.l.time), s.b, i);
    NoDrop(k, s.b, i, e.picos, T(s.l.time, k.rw), T(s.l.time, k.drop));
    assert HooksOk(k);
    hide SysInv, RwEffect, Due, InsertAll;
    assert [k.rw][1..] == [] && [k.rw][0] == k.rw && [] + [k.rw] == [k.rw];
    if Due(e, s.l.time, k.rw) {
      AloneCalled(k, e, s.l.time, f);
      hide Called, AllAllowed;
      var r := Called(e, rd, k.rw, RwOutcome(f));
      assert x.os[0] == RwOutcome(f) && x.os[1..] == [];
      assert Visit(e, [k.rw], rd, x.os) == Visit(e, [], r, []) == r;
      MergeAlone(r.time, k.rw);
    } else {
      var r := rd.(kept := [k.rw]);
      assert Visit(e, [k.rw], rd, x.os) == Visit(e, [], r, x.os) == r;
      MergeAlone(r.time, k.rw);
    }
  }

  /** It is a turn of the bus, adds nothing past, and leaves the bus alone again. */
  lemma AloneTurnOk(k: Hooks, s: Sys, e: Env, i: Inputs, now: nat)
    requires Alone(k, s) && !i.ack
    ensures var x := AloneTurn(k, s, e, i);
            && x.e == e && x.i == i && x.between == []
            && TurnOk(k, s, x) && TurnFuture(k, s, x, now) && Alone(k, Next(k, s, x))
  {
    var x := AloneTurn(k, s, e, i);
    assert Before(s, x) == s.l;
    AloneVisit(k, s, e, i);
    hide Obeys, Follows, FutureForeign, Visit, ListAfter, RwEffect, SysInv, Due;
    var r := Visited(s, x);
    assert Flat(x.scripts) == [] by { NoScripts(x.scripts); }
    assert ScriptsOf(k, r.imm, T(r.time, k.drop), x.scripts);
    assert TurnOk(k, s, x);
    assert FutureScripts(k, e.picos, r.imm, x.scripts);
    TurnKeeps(k, s, x);
    assert Next(k, s, x).l == Live(ListAfter(r), r.time);
  }

  lemma NoScripts(ss: seq<seq<Action>>)
    requires ss == [] || ss == [[]]
    ensures Flat(ss) == []
  {
    if ss == [[]] {
      assert ss[1..] == [];
      assert Flat(ss) == ss[0] + Flat(ss[1..]);
    }
  }

  lemma RunAppend(k: Hooks, ss: seq<Sys>, xs: seq<Turn>, x: Turn)
    requires Run(k, ss, xs) && TurnOk(k, ss[|xs|], x)
    ensures Run(k, ss + [Next(k, ss[|xs|], x)], xs + [x])
  {
    hide SysInv, TurnOk, Next;
    var ss', xs' := ss + [Next(k, ss[|xs|], x)], xs + [x];
    forall m {:trigger TurnAt(k, ss', xs', m)} | 0 < m < |ss'|
      ensures TurnAt(k, ss', xs', m)
    {
      if m < |ss| { assert TurnAt(k, ss, xs, m); }
    }
  }

  /** A turn of the bus alone with the given times, events and inputs. */
  ghost predicate AloneAt(k: Hooks, s: Sys, x: Turn, e: Env, i: Inputs) {
    Alone(k, s) && !i.ack && x == AloneTurn(k, s, e, i)
  }

  lemma AloneAtIs(k: Hooks, s: Sys, x: Turn, e: Env, i: Inputs, now: nat)
    requires AloneAt(k, s, x, e, i)
    ensures x.e == e && x.i == i && x.between == [] && s.l.listed == [k.rw] && TurnFuture(k, s, x, now)
  {
    hide TurnFuture, TurnOk;
    AloneTurnOk(k, s, e, i, now);
  }

  /** Every sequence of times, events and inputs, with the acknowledge line low, has a run. */
  lemma {:induction false} AloneRun(k: Hooks, es: seq<Env>, ins: seq<Inputs>) returns (ss: seq<Sys>, xs: seq<Turn>)
    requires HooksOk(k) && |es| == |ins| && forall j {:trigger ins[j]} :: 0 <= j < |ins| ==> !ins[j].ack
    ensures Run(k, ss, xs) && |xs| == |es| && |ss| == |xs| + 1
    ensures ss[0] == AloneSys(k) && Alone(k, ss[|xs|])
    ensures forall j {:trigger xs[j]} :: 0 <= j < |xs| ==> AloneAt(k, ss[j], xs[j], es[j], ins[j])
    decreases |es|
  {
    hide SysInv, TurnOk, Next, Alone, AloneTurn, TurnFuture, Run, HooksOk, AloneSys;
    if es == [] {
      AloneState(k);
      ss, xs := [AloneSys(k)], [];
    } else {
      var n := |es| - 1;
      var ss0, xs0 := AloneRun(k, es[..n], ins[..n]);
      assert !ins[n].ack;
      var s := ss0[n];
      var x := AloneTurn(k, s, es[n], ins[n]);
      AloneTurnOk(k, s, es[n], ins[n], 0);
      RunAppend(k, ss0, xs0, x);
      ss, xs := ss0 + [Next(k, s, x)], xs0 + [x];
    }
  }

  /** A read that takes ad nanoseconds, and the same signals unchanged. */
  ghost function ReadInputs(val: int, ad: nat, changed: bool): Inputs {
    Inputs(changed, Some(true), false, None, None, false, Some(0), Some(0), None, Completed(val, ad, 0))
  }

  /** A read starts at time p0, and the next round is at time p1. */
  lemma ReadRun(k: Hooks, val: int, ad: nat, p0: nat, p1: nat) returns (ss: seq<Sys>, xs: seq<Turn>)
    requires HooksOk(k) && ad > 0
    ensures Run(k, ss, xs) && |xs| == 2 && |ss| == 3 && Starts(k, xs[0].e, xs[0].i) && Stable(k, xs[1].e, xs[1].i)
    ensures xs[0].e.picos == p0 && xs[1].e.picos == p1 && xs[0].i.reply == Completed(val, ad, 0) && IsRead(xs[0].i) &&
            IsRead(xs[1].i) && ReadData(xs[0].i) == val
    ensures ss[0].l == Live([k.rw], map[]) && ss[0].b.opCount == 0
    ensures forall now :: TurnFuture(k, ss[0], xs[0], now) && TurnFuture(k, ss[1], xs[1], now)
    ensures ss[1].l.listed == [k.rw] && xs[0].between == [] && xs[1].between == []
  {
    var es, ins := [Env(p0, {1}, map[k.rw := {1}]), Env(p1, {}, map[])],
        [ReadInputs(val, ad, true), ReadInputs(val, ad, false)];
    assert !ins[0].ack && !ins[1].ack;
    hide Run, TurnFuture, Alone, AloneAt;
    ss, xs := AloneRun(k, es, ins);
    assert AloneAt(k, ss[0], xs[0], es[0], ins[0]) && AloneAt(k, ss[1], xs[1], es[1], ins[1]);
    forall now
      ensures TurnFuture(k, ss[0], xs[0], now) && TurnFuture(k, ss[1], xs[1], now)
    {
      AloneAtIs(k, ss[0], xs[0], es[0], ins[0], now);
      AloneAtIs(k, ss[1], xs[1], es[1], ins[1], now);
    }
    AloneAtIs(k, ss[0], xs[0], es[0], ins[0], 0);
    AloneAtIs(k, ss[1], xs[1], es[1], ins[1], 0);
    assert es[0].events * es[0].sub[k.rw] == {1} by { assert 1 in es[0].events * es[0].sub[k.rw]; }
  }

  /**
    A round past the target of the bus, as a wait for a clock edge can bring it, does occur, and it
    loses the operation: nothing is acknowledged and the bus goes on waiting.
   */
  lemma OverstepLoses(k: Hooks, val: int, ad: nat, p0: nat, p1: nat) returns (ss: seq<Sys>, xs: seq<Turn>)
    requires HooksOk(k) && ad > 0 && p1 > p0 + ad * 1000
    ensures Run(k, ss, xs) && |xs| == 2 && |ss| == 3 && Starts(k, xs[0].e, xs[0].i) && Stable(k, xs[1].e, xs[1].i)
    ensures AckTime(xs[0].e, xs[0].i) < xs[1].e.picos == p1
    ensures ss[2].b.opCount == ss[0].b.opCount && ss[2].b.ackPending && T(ss[2].l.time, k.rw) == 0
  {
    ss, xs := ReadRun(k, val, ad, p0, p1);
    RunKeeps(k, ss, xs, 0);
    RunKeeps(k, ss, xs, 1);
    assert TurnAt(k, ss, xs, 1) && TurnAt(k, ss, xs, 2);
    hide SysInv, TurnOk, Next, Run, Starts, Stable, TurnFuture;
    StartTurn(k, ss[0], xs[0]);
    StableTurn(k, ss[1], xs[1]);
  }

  /** A paced run with a read that is acknowledged on time occurs as well. */
  lemma OnTimeOccurs(k: Hooks, val: int, ad: nat, p0: nat) returns (ss: seq<Sys>, xs: seq<Turn>)
    requires HooksOk(k) && ad > 0
    ensures Run(k, ss, xs) && |xs| == 2 && |ss| == 3 && Paced(k, ss, xs, 0, [p0, ad * 1000])
    ensures Starts(k, xs[0].e, xs[0].i) && Stable(k, xs[1].e, xs[1].i) && xs[1].e.picos == AckTime(xs[0].e, xs[0].i)
    ensures PutsOut(TurnOuts(k, ss[1], xs[1]), AckOuts(true, val))
  {
    ss, xs := ReadRun(k, val, ad, p0, p0 + ad * 1000);
    RunKeeps(k, ss, xs, 0);
    assert TurnAt(k, ss, xs, 1) && TurnAt(k, ss, xs, 2);
    var request := [p0, ad * 1000];
    hide SysInv, TurnOk, Next, Run, Starts, Stable, TurnFuture, TurnOuts, AckOuts, PutsOut;
    StartTurn(k, ss[0], xs[0]);
    FirstWait(k, ss[0], xs[0], p0);
    SecondWait(k, ss[1], xs[1], p0, ad * 1000);
    assert PacedOnce(k, ss[0], xs[0], Now(xs, 0, 0), request[0]);
    assert PacedOnce(k, ss[1], xs[1], Now(xs, 0, 1), request[1]);
    assert Paced(k, ss, xs, 0, request);
    RunKeeps(k, ss, xs, 1);
    AckTurnOuts(k, ss[1], xs[1]);
  }

  lemma FirstWait(k: Hooks, s: Sys, x: Turn, p: nat)
    requires s.l == Live([k.rw], map[]) && x.between == [] && x.e.picos == p && TurnFuture(k, s, x, 0)
    ensures NonePast(s.l.time, 0, s.l.listed) && PacedOnce(k, s, x, 0, p)
  {
    hide TurnFuture;
    assert Before(s, x) == s.l;
  }

  lemma SecondWait(k: Hooks, s: Sys, x: Turn, p: nat, d: nat)
    requires s.l.listed == [k.rw] && x.between == [] && T(s.l.time, k.rw) == p + d && d > 0 && x.e.picos == p + d &&
             TurnFuture(k, s, x, p)
    ensures PacedOnce(k, s, x, p, d)
  {
    hide TurnFuture;
    assert Before(s, x) == s.l;
  }
}
