/**
  Properties of a firing round, for every behaviour of the callbacks that keeps the rules.
 */
module SchedulerProof {
  import opened Addresses
  import opened UtList
  import opened SchedulerSpec

  // ----- insertion -----

  lemma {:induction false} PositionSplits(time: Times, s: seq<Ptr>, t: nat)
    ensures var k := Position(time, s, t);
            && (forall i :: 0 <= i < k ==> T(time, s[i]) != 0 && T(time, s[i]) <= t)
            && (k < |s| ==> T(time, s[k]) == 0 || T(time, s[k]) > t)
    decreases |s|
  {
    if !(s == [] || T(time, s[0]) == 0 || T(time, s[0]) > t) {
      PositionSplits(time, s[1..], t);
      var k := Position(time, s, t);
      forall i | 0 <= i < k
        ensures T(time, s[i]) != 0 && T(time, s[i]) <= t
      {
        if i > 0 { assert s[i] == s[1..][i - 1]; }
      }
      assert k < |s| ==> s[k] == s[1..][k - 1];
    }
  }

  /** sim_hook_add keeps the order, and goes behind hooks with the same target. */
  lemma InsertOrdered(time: Times, s: seq<Ptr>, h: Ptr)
    requires Ordered(time, s)
    ensures Ordered(time, Insert(time, s, h))
  {
    var t := T(time, h);
    if t != 0 {
      PositionSplits(time, s, t);
      var k := Position(time, s, t);
      var u := s[..k] + [h] + s[k..];
      forall i, j | 0 <= i < j < |u|
        ensures Le(T(time, u[i]), T(time, u[j]))
      {
        var a, b := if i <= k then i else i - 1, if j <= k then j else j - 1;
        if i == k {
          assert u[j] == s[j - 1];
          if j - 1 > k { assert Le(T(time, s[k]), T(time, s[j - 1])); }
        } else if j == k {
          assert u[i] == s[i];
        } else {
          assert u[i] == s[a] && u[j] == s[b];
        }
      }
    }
  }

  /** A timed hook goes behind all with a target no later than its own, and before all others. */
  lemma InsertPlace(time: Times, s: seq<Ptr>, h: Ptr) returns (k: nat)
    requires Ordered(time, s) && h in time && time[h] > 0
    ensures k <= |s| && Insert(time, s, h) == s[..k] + [h] + s[k..]
    ensures forall i :: 0 <= i < k ==> s[i] in time && 0 < time[s[i]] <= time[h]
    ensures forall i :: k <= i < |s| ==> s[i] !in time || time[s[i]] == 0 || time[s[i]] > time[h]
  {
    k := Position(time, s, time[h]);
    PositionSplits(time, s, time[h]);
    forall i | k <= i < |s|
      ensures T(time, s[i]) == 0 || T(time, s[i]) > time[h]
    {
      if i > k { assert Le(T(time, s[k]), T(time, s[i])); }
    }
    assert forall i :: 0 <= i < k ==> T(time, s[i]) != 0;
  }

  lemma InsertMembers(time: Times, s: seq<Ptr>, h: Ptr)
    requires Distinct(s) && h != NULL && h !in s
    ensures Distinct(Insert(time, s, h))
    ensures forall x :: x in Insert(time, s, h) <==> x in s || x == h
  {
    if T(time, h) == 0 {
      AppendDistinct(s, h);
    } else {
      WithDistinct(s, Position(time, s, T(time, h)), h);
    }
  }

  ghost predicate Apart(s: seq<Ptr>, t: seq<Ptr>) { forall x :: x in s ==> x !in t }

  lemma {:induction false} InsertAllOrdered(time: Times, s: seq<Ptr>, hs: seq<Ptr>)
    requires Ordered(time, s) && Distinct(s) && Distinct(hs) && Apart(s, hs)
    ensures Ordered(time, InsertAll(time, s, hs)) && Distinct(InsertAll(time, s, hs))
    ensures forall x :: x in InsertAll(time, s, hs) <==> x in s || x in hs
    decreases |hs|
  {
    if hs != [] {
      InsertOrdered(time, s, hs[0]);
      assert hs[0] !in s by { assert hs[0] in hs; }
      InsertMembers(time, s, hs[0]);
      TailOf(hs);
      assert Apart(Insert(time, s, hs[0]), hs[1..]);
      InsertAllOrdered(time, Insert(time, s, hs[0]), hs[1..]);
    }
  }

  lemma TailOf(s: seq<Ptr>)
    requires s != []
    ensures s == [s[0]] + s[1..]
    ensures forall x :: x in s <==> x == s[0] || x in s[1..]
    ensures Distinct(s) ==> s[0] != NULL && s[0] !in s[1..] && Distinct(s[1..])
  {
    assert s == [s[0]] + s[1..];
  }

  // ----- what holds while a round is under way -----

  /** The lists of the round are disjoint and list every hook once. */
  ghost predicate Separate(r: Round, rest: seq<Ptr>) {
    && Distinct(r.kept + rest) && Distinct(r.pend) && Distinct(r.imm)
    && Apart(r.kept + rest, r.pend) && Apart(r.kept + rest, r.imm) && Apart(r.pend, r.imm)
  }

  /** The hooks that stay in place are in order and have no passed target. */
  ghost predicate InPlace(e: Env, r: Round, rest: seq<Ptr>, time0: Times) {
    && Ordered(r.time, r.kept + rest)
    && NonePast(r.time, e.picos, r.kept)
    && (forall h {:trigger h in rest} :: h in rest ==> T(r.time, h) == T(time0, h))
  }

  lemma DropMembers(s: seq<Ptr>, g: Ptr)
    requires Distinct(s)
    ensures Distinct(Drop(s, g)) && forall x :: x in Drop(s, g) <==> x in s && x != g
  {
    var k := Index(s, g);
    if k < |s| {
      IndexIs(s, g);
      WithoutDistinct(s, k);
    } else {
      assert g !in s;
    }
  }

  lemma {:induction false} IndexIs(s: seq<Ptr>, g: Ptr)
    requires Index(s, g) < |s|
    ensures s[Index(s, g)] == g
    decreases |s|
  {
    if s[0] != g {
      IndexIs(s[1..], g);
    }
  }

  /** An allowed action changes no list and no target of a hook that stays in place. */
  lemma ActKeeps(r: Round, rest: seq<Ptr>, a: Action)
    requires Separate(r, rest) && Allowed(r, rest, a)
    ensures var r' := Act(r, a);
            && Separate(r', rest) && r'.kept == r.kept && r'.called == r.called
            && (forall h :: Listed(r, rest, h) && h !in r.pend ==> T(r'.time, h) == T(r.time, h))
            && (forall h :: h in r.pend && h in r'.pend ==> T(r'.time, h) == T(r.time, h))
  {
    match a
    case Add(g, t) => AppendDistinct(r.pend, g);
    case Remove(g) => DropMembers(r.pend, g);
    case Immediate(g) => AppendDistinct(r.imm, g);
    case Retime(g, t) =>
  }

  lemma {:induction false} ActAllKeeps(r: Round, rest: seq<Ptr>, acts: seq<Action>)
    requires Separate(r, rest) && AllAllowed(r, rest, acts)
    ensures var r' := ActAll(r, acts);
            && Separate(r', rest) && r'.kept == r.kept && r'.called == r.called
            && (forall h :: h in r.kept || h in rest ==> T(r'.time, h) == T(r.time, h))
    decreases |acts|
  {
    if acts != [] {
      hide Separate, Act;
      ActKeeps(r, rest, acts[0]);
      ActAllKeeps(Act(r, acts[0]), rest, acts[1..]);
    }
  }

  /** Taking the hook that is being visited out of the middle. */
  lemma Middle(kept: seq<Ptr>, rest: seq<Ptr>)
    requires rest != []
    ensures kept + rest == (kept + [rest[0]]) + rest[1..]
    ensures kept + rest[1..] == Without(kept + rest, |kept|)
  {
  }

  lemma SettleSeparate(e: Env, r: Round, rest: seq<Ptr>, orig: nat, retire: bool)
    requires rest != [] && Separate(r, rest)
    ensures Separate(Settle(e, r, rest[0], orig, retire), rest[1..])
  {
    hide Distinct;
    var h, all := rest[0], r.kept + rest;
    Middle(r.kept, rest);
    assert all[|r.kept|] == h;
    WithoutDistinct(all, |r.kept|);
    assert h in all;
    assert h != NULL by { NotNull(all, |r.kept|); }
    AppendDistinct(r.pend, h);
  }

  lemma NotNull(s: seq<Ptr>, i: nat)
    requires Distinct(s) && i < |s|
    ensures s[i] != NULL
  {
  }

  lemma WithoutOrdered(time: Times, s: seq<Ptr>, k: nat)
    requires Ordered(time, s) && k < |s|
    ensures Ordered(time, Without(s, k))
  {
    var t := Without(s, k);
    forall i, j | 0 <= i < j < |t|
      ensures Le(T(time, t[i]), T(time, t[j]))
    {
      assert t[i] == s[if i < k then i else i + 1] && t[j] == s[if j < k then j else j + 1];
    }
  }

  lemma SameTimesOrdered(time: Times, time': Times, s: seq<Ptr>)
    requires Ordered(time, s) && forall h :: h in s ==> T(time', h) == T(time, h)
    ensures Ordered(time', s)
  {
    forall i, j | 0 <= i < j < |s|
      ensures Le(T(time', s[i]), T(time', s[j]))
    {
      assert s[i] in s && s[j] in s && Le(T(time, s[i]), T(time, s[j]));
    }
  }

  /** The time map after a call, seen from the hooks that were not called. */
  lemma CallTimes(e: Env, r: Round, rest: seq<Ptr>, o: Outcome)
    requires rest != [] && Separate(r, rest)
    requires AllAllowed(r.(time := r.time[rest[0] := o.newTime], called := r.called + [rest[0]]), rest, o.acts)
    ensures var r' := Called(e, r, rest[0], o);
            && Separate(r', rest[1..])
            && r'.called == r.called + [rest[0]]
            && (forall h :: (h in r.kept || h in rest[1..]) ==> T(r'.time, h) == T(r.time, h))
            && (o.retire ==> r'.kept == r.kept && T(r'.time, rest[0]) == 0)
            && (!o.retire ==> T(r'.time, rest[0]) == 0 || T(r'.time, rest[0]) > e.picos)
            && (!o.retire ==>
                  || (r'.kept == r.kept + [rest[0]] && T(r'.time, rest[0]) == T(r.time, rest[0]))
                  || (r'.kept == r.kept && rest[0] in r'.pend))
  {
    hide Separate, ActAll;
    var h := rest[0];
    var r1 := r.(time := r.time[h := o.newTime], called := r.called + [h]);
    assert Separate(r1, rest) by { SeparateIgnores(r, r1, rest); }
    ActAllKeeps(r1, rest, o.acts);
    var r2 := ActAll(r1, o.acts);
    SettleSeparate(e, r2, rest, T(r.time, h), o.retire);
    assert forall g :: g in r.kept || g in rest[1..] ==> g != h by { VisitedApart(r, rest); }
    assert T(r2.time, h) == o.newTime;
  }

  lemma SeparateIgnores(r: Round, r': Round, rest: seq<Ptr>)
    requires Separate(r, rest) && r'.kept == r.kept && r'.pend == r.pend && r'.imm == r.imm
    ensures Separate(r', rest)
  {
  }

  lemma VisitedApart(r: Round, rest: seq<Ptr>)
    requires rest != [] && Separate(r, rest)
    ensures forall g :: g in r.kept || g in rest[1..] ==> g != rest[0]
  {
    Middle(r.kept, rest);
    assert (r.kept + rest)[|r.kept|] == rest[0];
    WithoutDistinct(r.kept + rest, |r.kept|);
  }

  /** One call keeps what is in place in order. */
  lemma CalledKeeps(e: Env, r: Round, rest: seq<Ptr>, o: Outcome, time0: Times)
    requires rest != [] && Separate(r, rest) && InPlace(e, r, rest, time0)
    requires AllAllowed(r.(time := r.time[rest[0] := o.newTime], called := r.called + [rest[0]]), rest, o.acts)
    ensures var r' := Called(e, r, rest[0], o); Separate(r', rest[1..]) && InPlace(e, r', rest[1..], time0)
  {
    hide Separate, Called, Ordered, AllAllowed;
    var h, r' := rest[0], Called(e, r, rest[0], o);
    CallTimes(e, r, rest, o);
    Middle(r.kept, rest);
    TailOf(rest);
    if r'.kept == r.kept + [h] {
      SameTimesOrdered(r.time, r'.time, r.kept + rest);
    } else {
      WithoutOrdered(r.time, r.kept + rest, |r.kept|);
      SameTimesOrdered(r.time, r'.time, r.kept + rest[1..]);
    }
    assert NonePast(r'.time, e.picos, r.kept) by {
      forall i | 0 <= i < |r.kept|
        ensures T(r'.time, r.kept[i]) == 0 || T(r'.time, r.kept[i]) > e.picos
      {
        assert r.kept[i] in r.kept;
      }
    }
  }

  /** A hook that is not due stays, and its target has not passed. */
  lemma SkippedKeeps(e: Env, r: Round, rest: seq<Ptr>, time0: Times)
    requires rest != [] && Separate(r, rest) && InPlace(e, r, rest, time0) && !Due(e, r.time, rest[0])
    ensures var r' := r.(kept := r.kept + [rest[0]]); Separate(r', rest[1..]) && InPlace(e, r', rest[1..], time0)
  {
    Middle(r.kept, rest);
    TailOf(rest);
    assert rest[0] in rest;
  }

  // ----- whole rounds -----

  lemma {:induction false} VisitKeeps(e: Env, rest: seq<Ptr>, r: Round, os: seq<Outcome>, time0: Times)
    requires Separate(r, rest) && InPlace(e, r, rest, time0) && Obeys(e, rest, r, os)
    ensures Separate(Visit(e, rest, r, os), []) && InPlace(e, Visit(e, rest, r, os), [], time0)
    decreases |rest|
  {
    hide Separate, InPlace, Called, AllAllowed, Due;
    if rest != [] {
      if Due(e, r.time, rest[0]) {
        CalledKeeps(e, r, rest, os[0], time0);
        VisitKeeps(e, rest[1..], Called(e, r, rest[0], os[0]), os[1..], time0);
      } else {
        SkippedKeeps(e, r, rest, time0);
        VisitKeeps(e, rest[1..], r.(kept := r.kept + [rest[0]]), os, time0);
      }
    }
  }

  /** The hooks of s that are due, in list order. */
  ghost function DueOnes(e: Env, time: Times, s: seq<Ptr>): seq<Ptr>
    decreases |s|
  {
    if s == [] then [] else (if Due(e, time, s[0]) then [s[0]] else []) + DueOnes(e, time, s[1..])
  }

  lemma {:induction false} DueSame(e: Env, time: Times, time': Times, s: seq<Ptr>)
    requires forall h :: h in s ==> T(time', h) == T(time, h)
    ensures DueOnes(e, time', s) == DueOnes(e, time, s)
    decreases |s|
  {
    if s != [] {
      assert s[0] in s;
      TailOf(s);
      DueSame(e, time, time', s[1..]);
    }
  }

  lemma {:induction false} VisitCalls(e: Env, rest: seq<Ptr>, r: Round, os: seq<Outcome>)
    requires Separate(r, rest) && Obeys(e, rest, r, os)
    ensures Visit(e, rest, r, os).called == r.called + DueOnes(e, r.time, rest)
    decreases |rest|
  {
    if rest != [] {
      hide Separate, Called, AllAllowed, Due;
      if Due(e, r.time, rest[0]) {
        CallTimes(e, r, rest, os[0]);
        VisitCalls(e, rest[1..], Called(e, r, rest[0], os[0]), os[1..]);
        DueSame(e, r.time, Called(e, r, rest[0], os[0]).time, rest[1..]);
      } else {
        var r' := r.(kept := r.kept + [rest[0]]);
        assert Separate(r', rest[1..]) by { SkippedSeparate(r, rest); }
        VisitCalls(e, rest[1..], r', os);
      }
    }
  }

  lemma SkippedSeparate(r: Round, rest: seq<Ptr>)
    requires rest != [] && Separate(r, rest)
    ensures Separate(r.(kept := r.kept + [rest[0]]), rest[1..])
  {
    Middle(r.kept, rest);
  }

  lemma BeginOk(e: Env, hooks: seq<Ptr>, time: Times)
    requires Distinct(hooks) && Ordered(time, hooks)
    ensures Separate(Begin(time), hooks) && InPlace(e, Begin(time), hooks, time)
  {
    assert [] + hooks == hooks;
  }

  /** The list after the round: what stayed in place, with the pending hooks inserted. */
  ghost function ListAfter(r: Round): seq<Ptr> { InsertAll(r.time, r.kept, r.pend) }

  /** a is b with some elements left out. */
  ghost predicate Within(a: seq<Ptr>, b: seq<Ptr>)
    decreases |b|
  {
    a == [] || (b != [] && (if a[0] == b[0] then Within(a[1..], b[1..]) else Within(a, b[1..])))
  }

  lemma {:induction false} DueOnesAre(e: Env, time: Times, s: seq<Ptr>)
    requires Distinct(s)
    ensures Within(DueOnes(e, time, s), s)
    ensures forall h :: h in DueOnes(e, time, s) <==> h in s && Due(e, time, h)
    decreases |s|
  {
    hide Due, Distinct;
    if s != [] {
      TailOf(s);
      DueOnesAre(e, time, s[1..]);
      var d := DueOnes(e, time, s[1..]);
      if Due(e, time, s[0]) {
        assert ([s[0]] + d)[1..] == d;
      } else {
        assert [] + d == d;
        assert d != [] ==> d[0] in d;
      }
    }
  }

  /** The two halves of the test in a firing round. */
  lemma DueMeans(e: Env, time: Times, h: Ptr)
    ensures Due(e, time, h) <==>
            (h in time && 0 < time[h] <= e.picos) || (h in e.sub && exists g :: g in e.events && g in e.sub[h])
  {
    if h in e.sub {
      var both := e.events * e.sub[h];
      if both != {} {
        var g :| g in both;
        assert g in e.events && g in e.sub[h];
      } else {
        assert forall g :: g in e.events && g in e.sub[h] ==> g in both;
      }
    }
  }

  /**
    A round calls exactly the listed hooks whose target has come or that are subscribed to a changed
    signal, each once and in list order.
   */
  lemma RoundCalls(e: Env, hooks: seq<Ptr>, time: Times, os: seq<Outcome>)
    requires Distinct(hooks) && Ordered(time, hooks) && Obeys(e, hooks, Begin(time), os)
    ensures var called := Visit(e, hooks, Begin(time), os).called;
            && Within(called, hooks)
            && forall h :: h in called <==>
                 && h in hooks
                 && ((h in time && 0 < time[h] <= e.picos) ||
                     (h in e.sub && exists g :: g in e.events && g in e.sub[h]))
  {
    BeginOk(e, hooks, time);
    VisitCalls(e, hooks, Begin(time), os);
    hide Visit, Due, Distinct, DueOnes, Ordered, Obeys, Within;
    assert [] + DueOnes(e, time, hooks) == DueOnes(e, time, hooks);
    DueOnesAre(e, time, hooks);
    forall h
      ensures Due(e, time, h) <==>
              (h in time && 0 < time[h] <= e.picos) || (h in e.sub && exists g :: g in e.events && g in e.sub[h])
    {
      DueMeans(e, time, h);
    }
  }

  /** The round restores the order and lists every hook at most once. */
  lemma RoundOrdered(e: Env, hooks: seq<Ptr>, time: Times, os: seq<Outcome>)
    requires Distinct(hooks) && Ordered(time, hooks) && Obeys(e, hooks, Begin(time), os)
    ensures var r := Visit(e, hooks, Begin(time), os);
            Ordered(r.time, ListAfter(r)) && Distinct(ListAfter(r))
    ensures var r := Visit(e, hooks, Begin(time), os);
            forall x :: x in ListAfter(r) <==> x in r.kept || x in r.pend
  {
    BeginOk(e, hooks, time);
    VisitKeeps(e, hooks, Begin(time), os, time);
    var r := Visit(e, hooks, Begin(time), os);
    assert r.kept + [] == r.kept;
    hide Visit;
    InsertAllOrdered(r.time, r.kept, r.pend);
  }

  // ----- nothing is lost, nothing appears from nowhere -----

  ghost predicate Adds(acts: seq<Action>, g: Ptr) { exists i :: 0 <= i < |acts| && acts[i].Add? && acts[i].g == g }
  ghost predicate Removes(acts: seq<Action>, g: Ptr) {
    exists i :: 0 <= i < |acts| && acts[i].Remove? && acts[i].g == g
  }
  ghost predicate AddedBy(os: seq<Outcome>, g: Ptr) { exists k :: 0 <= k < |os| && Adds(os[k].acts, g) }
  ghost predicate RemovedBy(os: seq<Outcome>, g: Ptr) { exists k :: 0 <= k < |os| && Removes(os[k].acts, g) }

  /** The hooks whose callback returned non-zero. */
  ghost function Retired(e: Env, rest: seq<Ptr>, r: Round, os: seq<Outcome>): set<Ptr>
    decreases |rest|
  {
    if rest == [] then {}
    else if Due(e, r.time, rest[0]) && os != [] then
      (if os[0].retire then {rest[0]} else {}) + Retired(e, rest[1..], Called(e, r, rest[0], os[0]), os[1..])
    else Retired(e, rest[1..], r.(kept := r.kept + [rest[0]]), os)
  }

  ghost predicate Fresh(e: Env, time: Times, h: Ptr) { T(time, h) == 0 || T(time, h) > e.picos }

  /** What actions do to the pending list and to the targets in it. */
  ghost predicate PendStep(r: Round, r': Round, acts: seq<Action>) {
    && (forall g :: g in r'.pend ==> g in r.pend || Adds(acts, g))
    && (forall g :: g in r.pend ==> g in r'.pend || Removes(acts, g))
    && (forall g :: g in r.pend && g in r'.pend && !Adds(acts, g) ==> T(r'.time, g) == T(r.time, g))
  }

  lemma ActPend(r: Round, rest: seq<Ptr>, a: Action)
    requires Separate(r, rest) && Allowed(r, rest, a)
    ensures PendStep(r, Act(r, a), [a])
  {
    assert [a][0] == a;
    if a.Remove? {
      DropMembers(r.pend, a.g);
    }
  }

  lemma AddsTail(acts: seq<Action>, g: Ptr)
    requires acts != []
    ensures Adds(acts, g) <==> Adds([acts[0]], g) || Adds(acts[1..], g)
    ensures Removes(acts, g) <==> Removes([acts[0]], g) || Removes(acts[1..], g)
  {
    if Adds(acts[1..], g) {
      var i :| 0 <= i < |acts[1..]| && acts[1..][i].Add? && acts[1..][i].g == g;
      assert acts[i + 1] == acts[1..][i];
    }
    if Removes(acts[1..], g) {
      var i :| 0 <= i < |acts[1..]| && acts[1..][i].Remove? && acts[1..][i].g == g;
      assert acts[i + 1] == acts[1..][i];
    }
    if Adds(acts, g) {
      var i :| 0 <= i < |acts| && acts[i].Add? && acts[i].g == g;
      if i == 0 { assert [acts[0]][0].g == g; } else { assert acts[1..][i - 1].g == g; }
    }
    if Removes(acts, g) {
      var i :| 0 <= i < |acts| && acts[i].Remove? && acts[i].g == g;
      if i == 0 { assert [acts[0]][0].g == g; } else { assert acts[1..][i - 1].g == g; }
    }
    if Adds([acts[0]], g) { assert acts[0].g == g; }
    if Removes([acts[0]], g) { assert acts[0].g == g; }
  }

  lemma {:induction false} ActAllPend(r: Round, rest: seq<Ptr>, acts: seq<Action>)
    requires Separate(r, rest) && AllAllowed(r, rest, acts)
    ensures PendStep(r, ActAll(r, acts), acts)
    decreases |acts|
  {
    if acts != [] {
      ActKeeps(r, rest, acts[0]);
      hide Separate, Act, Adds, Removes;
      ActPend(r, rest, acts[0]);
      ActAllPend(Act(r, acts[0]), rest, acts[1..]);
      forall g
        ensures Adds(acts, g) <==> Adds([acts[0]], g) || Adds(acts[1..], g)
        ensures Removes(acts, g) <==> Removes([acts[0]], g) || Removes(acts[1..], g)
      {
        AddsTail(acts, g);
      }
    }
  }

  /** Membership and targets after one call. */
  lemma CalledMembers(e: Env, r: Round, rest: seq<Ptr>, o: Outcome)
    requires rest != [] && Separate(r, rest)
    requires AllAllowed(r.(time := r.time[rest[0] := o.newTime], called := r.called + [rest[0]]), rest, o.acts)
    ensures var h, r' := rest[0], Called(e, r, rest[0], o);
            && (forall g :: g in r'.pend ==> g in r.pend || (g == h && !o.retire) || Adds(o.acts, g))
            && (forall g :: g in r.pend ==> g in r'.pend || Removes(o.acts, g))
            && (forall g :: g in r.pend && g in r'.pend && !Adds(o.acts, g) ==> T(r'.time, g) == T(r.time, g))
            && (o.retire ==> h !in r'.pend && h !in r'.kept)
  {
    hide Separate, ActAll, Adds, Removes;
    var h := rest[0];
    var r1 := r.(time := r.time[h := o.newTime], called := r.called + [h]);
    assert Separate(r1, rest) by { SeparateIgnores(r, r1, rest); }
    ActAllPend(r1, rest, o.acts);
    ActAllKeeps(r1, rest, o.acts);
    CallTimes(e, r, rest, o);
    var r2 := ActAll(r1, o.acts);
    NotPending(r, rest);
    NotPending(r2, rest);
  }

  lemma NotPending(r: Round, rest: seq<Ptr>)
    requires rest != [] && Separate(r, rest)
    ensures rest[0] !in r.pend && rest[0] !in r.kept
  {
    VisitedApart(r, rest);
    assert rest[0] in r.kept + rest;
  }

  /** What a whole round does to the lists; A is any set that holds the hooks added later on. */
  ghost predicate RoundMembers(e: Env, rest: seq<Ptr>, r: Round, os: seq<Outcome>, r': Round) {
    && (forall g :: g in r.kept ==> g in r'.kept)
    && (forall g :: g in r.pend ==> g in r'.pend || RemovedBy(os, g))
    && (forall g :: g in rest ==> g in r'.kept || g in r'.pend || g in Retired(e, rest, r, os) || RemovedBy(os, g))
    && (forall g :: g in r'.kept ==> g in r.kept || (g in rest && g !in Retired(e, rest, r, os)))
    && (forall g :: g in r'.pend ==> g in r.pend || (g in rest && g !in Retired(e, rest, r, os)) || AddedBy(os, g))
    && (forall g :: g in r'.pend && g !in r.pend && !AddedBy(os, g) ==> Fresh(e, r'.time, g))
    && (forall g :: g in r'.pend && g in r.pend && !AddedBy(os, g) ==> T(r'.time, g) == T(r.time, g))
  }

  lemma TailOutcomes(os: seq<Outcome>, g: Ptr)
    requires os != []
    ensures AddedBy(os, g) <==> Adds(os[0].acts, g) || AddedBy(os[1..], g)
    ensures RemovedBy(os, g) <==> Removes(os[0].acts, g) || RemovedBy(os[1..], g)
  {
    hide Adds, Removes;
    if AddedBy(os[1..], g) {
      var k :| 0 <= k < |os[1..]| && Adds(os[1..][k].acts, g);
      assert os[k + 1] == os[1..][k];
    }
    if RemovedBy(os[1..], g) {
      var k :| 0 <= k < |os[1..]| && Removes(os[1..][k].acts, g);
      assert os[k + 1] == os[1..][k];
    }
    if AddedBy(os, g) {
      var k :| 0 <= k < |os| && Adds(os[k].acts, g);
      if k > 0 { assert os[1..][k - 1] == os[k]; }
    }
    if RemovedBy(os, g) {
      var k :| 0 <= k < |os| && Removes(os[k].acts, g);
      if k > 0 { assert os[1..][k - 1] == os[k]; }
    }
  }

  lemma RetiredVisited(e: Env, rest: seq<Ptr>, r: Round, os: seq<Outcome>)
    ensures forall g :: g in Retired(e, rest, r, os) ==> g in rest
    decreases |rest|
  {
    if rest != [] {
      TailOf(rest);
      if Due(e, r.time, rest[0]) && os != [] {
        RetiredVisited(e, rest[1..], Called(e, r, rest[0], os[0]), os[1..]);
      } else {
        RetiredVisited(e, rest[1..], r.(kept := r.kept + [rest[0]]), os);
      }
    }
  }

  lemma {:induction false} VisitMembers(e: Env, rest: seq<Ptr>, r: Round, os: seq<Outcome>)
    requires Separate(r, rest) && Obeys(e, rest, r, os)
    ensures RoundMembers(e, rest, r, os, Visit(e, rest, r, os))
    decreases |rest|
  {
    if rest != [] {
      if Due(e, r.time, rest[0]) {
        CallTimes(e, r, rest, os[0]);
        VisitMembers(e, rest[1..], Called(e, r, rest[0], os[0]), os[1..]);
        MembersCalled(e, rest, r, os, Visit(e, rest, r, os));
      } else {
        SkippedSeparate(r, rest);
        VisitMembers(e, rest[1..], r.(kept := r.kept + [rest[0]]), os);
        MembersSkipped(e, rest, r, os, Visit(e, rest, r, os));
      }
    }
  }

  lemma MembersSkipped(e: Env, rest: seq<Ptr>, r: Round, os: seq<Outcome>, r': Round)
    requires rest != [] && Separate(r, rest) && !Due(e, r.time, rest[0])
    requires RoundMembers(e, rest[1..], r.(kept := r.kept + [rest[0]]), os, r')
    ensures RoundMembers(e, rest, r, os, r')
  {
    hide Separate, AddedBy, RemovedBy;
    TailOf(rest);
    NotPending(r, rest);
    VisitedApart(r, rest);
    RetiredVisited(e, rest[1..], r.(kept := r.kept + [rest[0]]), os);
  }

  lemma MembersCalled(e: Env, rest: seq<Ptr>, r: Round, os: seq<Outcome>, r': Round)
    requires rest != [] && os != [] && Separate(r, rest) && Due(e, r.time, rest[0])
    requires AllAllowed(r.(time := r.time[rest[0] := os[0].newTime], called := r.called + [rest[0]]), rest, os[0].acts)
    requires RoundMembers(e, rest[1..], Called(e, r, rest[0], os[0]), os[1..], r')
    ensures RoundMembers(e, rest, r, os, r')
  {
    hide Separate, AddedBy, RemovedBy, Adds, Removes, Called, AllAllowed;
    var h, r1 := rest[0], Called(e, r, rest[0], os[0]);
    TailOf(rest);
    NotPending(r, rest);
    VisitedApart(r, rest);
    RestApart(r, rest);
    RetiredVisited(e, rest[1..], r1, os[1..]);
    CalledMembers(e, r, rest, os[0]);
    CallTimes(e, r, rest, os[0]);
    forall g
      ensures AddedBy(os, g) <==> Adds(os[0].acts, g) || AddedBy(os[1..], g)
      ensures RemovedBy(os, g) <==> Removes(os[0].acts, g) || RemovedBy(os[1..], g)
    {
      TailOutcomes(os, g);
    }
  }

  lemma RestApart(r: Round, rest: seq<Ptr>)
    requires Separate(r, rest)
    ensures forall g :: g in rest ==> g !in r.pend
  {
    assert forall g :: g in rest ==> g in r.kept + rest;
  }

  /**
    Conservation: a listed hook is still listed unless its own callback retired it or a
    callback removed it; whatever is listed was listed before or was added by a callback;
    and a hook that was not just added has no passed target.
   */
  lemma RoundConserves(e: Env, hooks: seq<Ptr>, time: Times, os: seq<Outcome>, g: Ptr)
    requires Distinct(hooks) && Ordered(time, hooks) && Obeys(e, hooks, Begin(time), os)
    ensures var r := Visit(e, hooks, Begin(time), os);
            var retired := Retired(e, hooks, Begin(time), os);
            && (g in hooks && g !in retired && !RemovedBy(os, g) ==> g in ListAfter(r))
            && (g in ListAfter(r) && !AddedBy(os, g) ==> g in hooks && g !in retired && Fresh(e, r.time, g))
  {
    BeginOk(e, hooks, time);
    VisitMembers(e, hooks, Begin(time), os);
    VisitKeeps(e, hooks, Begin(time), os, time);
    RoundOrdered(e, hooks, time, os);
    hide Visit, Separate, RemovedBy, AddedBy, Obeys, Retired;
    var r := Visit(e, hooks, Begin(time), os);
    if g in r.kept {
      var i :| 0 <= i < |r.kept| && r.kept[i] == g;
      assert Fresh(e, r.time, r.kept[i]);
    }
  }

  /** A hook that has had its visit keeps its target and its list, unless a callback touches it. */
  lemma {:induction false} VisitTimes(e: Env, rest: seq<Ptr>, r: Round, os: seq<Outcome>, g: Ptr)
    requires Separate(r, rest) && Obeys(e, rest, r, os) && !AddedBy(os, g) && !RemovedBy(os, g)
    requires g in r.kept || g in r.pend
    ensures var r' := Visit(e, rest, r, os);
            T(r'.time, g) == T(r.time, g) && (g in r.kept ==> g in r'.kept) && (g in r.pend ==> g in r'.pend)
    decreases |rest|
  {
    hide Separate, Called, AllAllowed, Due, AddedBy, RemovedBy, Adds, Removes;
    if rest != [] {
      if Due(e, r.time, rest[0]) {
        CallTimes(e, r, rest, os[0]);
        CalledMembers(e, r, rest, os[0]);
        TailOutcomes(os, g);
        VisitTimes(e, rest[1..], Called(e, r, rest[0], os[0]), os[1..], g);
      } else {
        SkippedSeparate(r, rest);
        VisitTimes(e, rest[1..], r.(kept := r.kept + [rest[0]]), os, g);
      }
    }
  }

  /** The target a callback leaves behind: one that has passed is disabled. */
  ghost function FutureOrNone(t: nat, picos: nat): nat { if t > picos then t else 0 }

  lemma CalledLeaves(e: Env, r: Round, rest: seq<Ptr>, o: Outcome)
    requires rest != [] && Separate(r, rest) && !o.retire
    requires AllAllowed(r.(time := r.time[rest[0] := o.newTime], called := r.called + [rest[0]]), rest, o.acts)
    ensures var h, r' := rest[0], Called(e, r, rest[0], o); var t := FutureOrNone(o.newTime, e.picos);
            T(r'.time, h) == t && (if t == T(r.time, h) then h in r'.kept else h in r'.pend)
  {
    hide Separate, ActAll, AllAllowed;
    var h := rest[0];
    var r1 := r.(time := r.time[h := o.newTime], called := r.called + [h]);
    assert Separate(r1, rest) by { SeparateIgnores(r, r1, rest); }
    ActAllKeeps(r1, rest, o.acts);
    assert T(ActAll(r1, o.acts).time, h) == o.newTime;
  }

  lemma {:induction false} VisitLeaves(e: Env, rest: seq<Ptr>, r: Round, os: seq<Outcome>, g: Ptr, k: nat)
    requires Separate(r, rest) && Obeys(e, rest, r, os) && !AddedBy(os, g) && !RemovedBy(os, g)
    requires k < |os| && k < |DueOnes(e, r.time, rest)| && DueOnes(e, r.time, rest)[k] == g && !os[k].retire
    ensures var r', t := Visit(e, rest, r, os), FutureOrNone(os[k].newTime, e.picos);
            T(r'.time, g) == t && (if t == T(r.time, g) then g in r'.kept else g in r'.pend)
    decreases |rest|
  {
    hide Separate, Called, AllAllowed, Due, AddedBy, RemovedBy, FutureOrNone;
    TailOf(rest);
    RestIsDistinct(r, rest);
    DueOnesAre(e, r.time, rest);
    if Due(e, r.time, rest[0]) {
      var r1 := Called(e, r, rest[0], os[0]);
      CallTimes(e, r, rest, os[0]);
      TailOutcomes(os, g);
      DueSame(e, r.time, r1.time, rest[1..]);
      if k == 0 {
        CalledLeaves(e, r, rest, os[0]);
        VisitTimes(e, rest[1..], r1, os[1..], g);
      } else {
        var d := DueOnes(e, r.time, rest[1..]);
        assert ([rest[0]] + d)[k] == d[k - 1];
        assert d[k - 1] in d;
        DueInRest(e, r.time, rest[1..]);
        VisitLeaves(e, rest[1..], r1, os[1..], g, k - 1);
      }
    } else {
      var r1 := r.(kept := r.kept + [rest[0]]);
      SkippedSeparate(r, rest);
      assert [] + DueOnes(e, r.time, rest[1..]) == DueOnes(e, r.time, rest[1..]);
      VisitLeaves(e, rest[1..], r1, os, g, k);
    }
  }

  lemma RestIsDistinct(r: Round, rest: seq<Ptr>)
    requires Separate(r, rest)
    ensures Distinct(rest)
  {
    var s := r.kept + rest;
    assert forall j :: 0 <= j < |rest| ==> rest[j] == s[|r.kept| + j];
  }

  lemma {:induction false} DueInRest(e: Env, time: Times, s: seq<Ptr>)
    ensures forall h :: h in DueOnes(e, time, s) ==> h in s
    decreases |s|
  {
    if s != [] {
      TailOf(s);
      DueInRest(e, time, s[1..]);
    }
  }

  lemma {:induction false} VisitSkips(e: Env, rest: seq<Ptr>, r: Round, os: seq<Outcome>, g: Ptr)
    requires Separate(r, rest) && Obeys(e, rest, r, os) && !AddedBy(os, g) && !RemovedBy(os, g)
    requires g in rest && !Due(e, r.time, g)
    ensures var r' := Visit(e, rest, r, os); T(r'.time, g) == T(r.time, g) && g in r'.kept
    decreases |rest|
  {
    TailOf(rest);
    if Due(e, r.time, rest[0]) {
      CallTimes(e, r, rest, os[0]);
      TailOutcomes(os, g);
      hide Separate, Called, AllAllowed, AddedBy, RemovedBy;
      VisitSkips(e, rest[1..], Called(e, r, rest[0], os[0]), os[1..], g);
    } else {
      SkippedSeparate(r, rest);
      hide Separate, Called, AllAllowed, AddedBy, RemovedBy;
      var r1 := r.(kept := r.kept + [rest[0]]);
      if g == rest[0] {
        VisitTimes(e, rest[1..], r1, os, g);
      } else {
        VisitSkips(e, rest[1..], r1, os, g);
      }
    }
  }

  /**
    What a round leaves of a hook that no callback adds or removes.  If it was called and its callback
    returned zero, it has the target the callback set, or none if that has passed; it stays in place
    if this is the target it had, and is inserted anew otherwise.  If it was not called, nothing
    changes.
   */
  lemma RoundLeaves(e: Env, hooks: seq<Ptr>, time: Times, os: seq<Outcome>, g: Ptr, k: nat)
    requires Distinct(hooks) && Ordered(time, hooks) && Obeys(e, hooks, Begin(time), os)
    requires g in hooks && !AddedBy(os, g) && !RemovedBy(os, g)
    ensures var r := Visit(e, hooks, Begin(time), os);
            && (k < |r.called| && k < |os| && r.called[k] == g && !os[k].retire ==>
                  var t := if os[k].newTime > e.picos then os[k].newTime else 0;
                  && T(r.time, g) == t && g in ListAfter(r)
                  && if t == T(time, g) then g in r.kept else g in r.pend)
            && (g !in r.called ==> T(r.time, g) == T(time, g) && g in r.kept && g in ListAfter(r))
  {
    BeginOk(e, hooks, time);
    VisitCalls(e, hooks, Begin(time), os);
    RoundOrdered(e, hooks, time, os);
    DueOnesAre(e, time, hooks);
    hide Visit, Due, Distinct, DueOnes, Ordered, Obeys, Within, ListAfter, Separate, AddedBy, RemovedBy;
    assert [] + DueOnes(e, time, hooks) == DueOnes(e, time, hooks);
    var r := Visit(e, hooks, Begin(time), os);
    if k < |r.called| && k < |os| && r.called[k] == g && !os[k].retire {
      VisitLeaves(e, hooks, Begin(time), os, g, k);
    }
    if g !in r.called { VisitSkips(e, hooks, Begin(time), os, g); }
  }

  /** If no callback adds a hook whose target has passed, none is left after the round. */
  lemma RoundLeavesNonePast(e: Env, hooks: seq<Ptr>, time: Times, os: seq<Outcome>)
    requires Distinct(hooks) && Ordered(time, hooks) && Obeys(e, hooks, Begin(time), os)
    requires var r := Visit(e, hooks, Begin(time), os);
             forall g :: AddedBy(os, g) && g in ListAfter(r) ==> Fresh(e, r.time, g)
    ensures var r := Visit(e, hooks, Begin(time), os); NonePast(r.time, e.picos, ListAfter(r))
  {
    hide Visit, Obeys, AddedBy, Ordered, Distinct, ListAfter;
    var r := Visit(e, hooks, Begin(time), os);
    var l := ListAfter(r);
    forall i | 0 <= i < |l|
      ensures T(r.time, l[i]) == 0 || T(r.time, l[i]) > e.picos
    {
      assert l[i] in l;
      RoundConserves(e, hooks, time, os, l[i]);
    }
  }

  // ----- one hook among the others -----

  /** The hook is in the detached list or among the pending ones. */
  ghost predicate Active(r: Round, rest: seq<Ptr>, g: Ptr) { g in r.kept || g in rest || g in r.pend }

  ghost function Entered(r: Round, h: Ptr, t: nat): Round {
    r.(time := r.time[h := t], called := r.called + [h])
  }

  /** Hooks other than the visited one are where they were after Settle. */
  lemma SettleOther(e: Env, r: Round, rest: seq<Ptr>, orig: nat, retire: bool, g: Ptr)
    requires rest != [] && Separate(r, rest)
    ensures var r' := Settle(e, r, rest[0], orig, retire);
            && (g != rest[0] ==> (Active(r', rest[1..], g) <==> Active(r, rest, g)) && T(r'.time, g) == T(r.time, g))
            && (Active(r', rest[1..], rest[0]) <==> !retire)
            && (retire ==> T(r'.time, rest[0]) == 0)
            && r'.imm == r.imm && rest[0] !in rest[1..]
  {
    hide Separate;
    TailOf(rest);
    NotPending(r, rest);
    VisitedApart(r, rest);
  }

  /** The actions do not concern g. */
  ghost predicate Spares(acts: seq<Action>, g: Ptr) {
    forall j {:trigger acts[j]} :: 0 <= j < |acts| ==> acts[j].g != g
  }

  lemma SparesTail(acts: seq<Action>, g: Ptr)
    requires Spares(acts, g) && acts != []
    ensures acts[0].g != g && Spares(acts[1..], g)
  {
    assert forall j :: 0 <= j < |acts[1..]| ==> acts[1..][j] == acts[j + 1];
  }

  /** Actions that spare a hook do not move it. */
  lemma {:induction false} SparedActs(r: Round, rest: seq<Ptr>, acts: seq<Action>, g: Ptr)
    requires Spares(acts, g) && Separate(r, rest) && AllAllowed(r, rest, acts)
    ensures var r' := ActAll(r, acts);
            && (g in r'.pend <==> g in r.pend) && (g in r'.imm <==> g in r.imm) && T(r'.time, g) == T(r.time, g)
    decreases |acts|
  {
    if acts != [] {
      var a := acts[0];
      SparesTail(acts, g);
      ActKeeps(r, rest, a);
      if a.Remove? { DropMembers(r.pend, a.g) by { SeparatePend(r, rest); } }
      hide Separate, Spares;
      SparedActs(Act(r, a), rest, acts[1..], g);
    }
  }

  lemma SeparatePend(r: Round, rest: seq<Ptr>)
    requires Separate(r, rest)
    ensures Distinct(r.pend)
  {
  }

  // ----- only future targets -----

  /** Every hook that the actions add gets a target ahead of the given time, or none. */
  ghost predicate Future(picos: nat, acts: seq<Action>) {
    forall j {:trigger acts[j]} :: 0 <= j < |acts| && acts[j].Add? ==> acts[j].t == 0 || acts[j].t > picos
  }

  lemma FutureTail(picos: nat, acts: seq<Action>)
    requires Future(picos, acts) && acts != []
    ensures (acts[0].Add? ==> acts[0].t == 0 || acts[0].t > picos) && Future(picos, acts[1..])
  {
    assert forall j :: 0 <= j < |acts[1..]| ==> acts[1..][j] == acts[j + 1];
  }

  /** The callbacks of a round add only future targets. */
  ghost predicate FutureVisit(e: Env, rest: seq<Ptr>, r: Round, os: seq<Outcome>)
    decreases |rest|
  {
    if rest == [] then true
    else if Due(e, r.time, rest[0]) then
      os != [] && Future(e.picos, os[0].acts) && FutureVisit(e, rest[1..], Called(e, r, rest[0], os[0]), os[1..])
    else FutureVisit(e, rest[1..], r.(kept := r.kept + [rest[0]]), os)
  }

  ghost predicate FreshPend(e: Env, r: Round) { forall g {:trigger g in r.pend} :: g in r.pend ==> Fresh(e, r.time, g) }

  lemma ActFresh(e: Env, r: Round, rest: seq<Ptr>, a: Action)
    requires FreshPend(e, r) && Separate(r, rest) && Allowed(r, rest, a) && (a.Add? ==> a.t == 0 || a.t > e.picos)
    ensures FreshPend(e, Act(r, a))
  {
    if a.Remove? { DropMembers(r.pend, a.g); }
  }

  lemma {:induction false} ActAllFresh(e: Env, r: Round, rest: seq<Ptr>, acts: seq<Action>)
    requires FreshPend(e, r) && Separate(r, rest) && AllAllowed(r, rest, acts) && Future(e.picos, acts)
    ensures FreshPend(e, ActAll(r, acts))
    decreases |acts|
  {
    hide FreshPend, Separate, Allowed, Act, Future;
    if acts != [] {
      FutureTail(e.picos, acts);
      ActFresh(e, r, rest, acts[0]);
      ActKeeps(r, rest, acts[0]);
      ActAllFresh(e, Act(r, acts[0]), rest, acts[1..]);
    }
  }

  lemma SettleFresh(e: Env, r: Round, rest: seq<Ptr>, orig: nat, retire: bool)
    requires FreshPend(e, r) && Separate(r, rest) && rest != []
    ensures FreshPend(e, Settle(e, r, rest[0], orig, retire))
  {
    hide Separate;
    NotPending(r, rest);
  }

  lemma CalledFresh(e: Env, r: Round, rest: seq<Ptr>, o: Outcome)
    requires FreshPend(e, r) && Separate(r, rest) && rest != [] && Future(e.picos, o.acts)
    requires AllAllowed(Entered(r, rest[0], o.newTime), rest, o.acts)
    ensures FreshPend(e, Called(e, r, rest[0], o))
  {
    hide Separate, AllAllowed, ActAll, Settle, Future;
    var r1 := Entered(r, rest[0], o.newTime);
    NotPending(r, rest);
    SeparateIgnores(r, r1, rest);
    assert FreshPend(e, r1);
    hide FreshPend;
    ActAllFresh(e, r1, rest, o.acts);
    ActAllKeeps(r1, rest, o.acts);
    SettleFresh(e, ActAll(r1, o.acts), rest, T(r.time, rest[0]), o.retire);
  }

  lemma {:induction false} VisitFresh(e: Env, rest: seq<Ptr>, r: Round, os: seq<Outcome>)
    requires FreshPend(e, r) && Separate(r, rest) && Obeys(e, rest, r, os) && FutureVisit(e, rest, r, os)
    ensures FreshPend(e, Visit(e, rest, r, os))
    decreases |rest|
  {
    if rest != [] {
      if Due(e, r.time, rest[0]) {
        hide Separate, Called, AllAllowed, Due, Future, FreshPend;
        CalledFresh(e, r, rest, os[0]);
        CallTimes(e, r, rest, os[0]);
        VisitFresh(e, rest[1..], Called(e, r, rest[0], os[0]), os[1..]);
      } else {
        var r' := r.(kept := r.kept + [rest[0]]);
        assert FreshPend(e, r');
        hide Separate, Called, AllAllowed, Due, Future, FreshPend;
        SkippedSeparate(r, rest);
        VisitFresh(e, rest[1..], r', os);
      }
    }
  }

  /** If callbacks add only future targets, no passed target is listed after the round. */
  lemma FutureRound(e: Env, hooks: seq<Ptr>, time: Times, os: seq<Outcome>)
    requires Distinct(hooks) && Ordered(time, hooks) && Obeys(e, hooks, Begin(time), os) &&
             FutureVisit(e, hooks, Begin(time), os)
    ensures var r := Visit(e, hooks, Begin(time), os); NonePast(r.time, e.picos, ListAfter(r))
  {
    BeginOk(e, hooks, time);
    hide Obeys, Visit, FutureVisit, AddedBy, Ordered, Distinct, ListAfter, Separate;
    VisitFresh(e, hooks, Begin(time), os);
    VisitKeeps(e, hooks, Begin(time), os, time);
    RoundOrdered(e, hooks, time, os);
    var r := Visit(e, hooks, Begin(time), os);
    forall g | g in ListAfter(r)
      ensures Fresh(e, r.time, g)
    {
      if g in r.kept {
        var i :| 0 <= i < |r.kept| && r.kept[i] == g;
        assert T(r.time, r.kept[i]) == 0 || T(r.time, r.kept[i]) > e.picos;
      }
    }
    RoundLeavesNonePast(e, hooks, time, os);
  }
}
