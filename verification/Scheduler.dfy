/**
  The hook lists of struct simulator and the functions of sim/simulator.c that relink them,
  proved against SchedulerSpec.  A callback is a script: what it sets, adds and removes.
 */
module Scheduler {
  import opened Addresses
  import opened BitVec
  import opened UtList
  import opened SchedulerSpec
  import opened SchedulerProof

  /** The forward links alone list s. */
  ghost predicate Chain(d: Dl, head: Ptr, s: seq<Ptr>) {
    && head == (if s == [] then NULL else s[0])
    && forall i {:trigger s[i]} :: 0 <= i < |s| ==> s[i] != NULL && d.Next(s[i]) == NextAt(s, i)
  }

  lemma ListIsChain(d: Dl, head: Ptr, s: seq<Ptr>)
    requires IsList(d, head, s)
    ensures Chain(d, head, s)
  {
  }

  lemma ChainTail(d: Dl, head: Ptr, s: seq<Ptr>)
    requires Chain(d, head, s) && s != []
    ensures head == s[0] != NULL && Chain(d, d.Next(head), s[1..])
  {
  }

  lemma ChainFrame(d: Dl, e: Dl, s: seq<Ptr>, x: Ptr, head: Ptr, t: seq<Ptr>)
    requires Frame(d, e, s, x) && Chain(d, head, t) && forall y :: y in t ==> y !in s && y != x
    ensures Chain(e, head, t)
  {
    forall i | 0 <= i < |t|
      ensures t[i] != NULL && e.Next(t[i]) == NextAt(t, i)
    {
      assert t[i] in t;
    }
  }

  /** Position found by walking: all before it have targets no later than t. */
  lemma {:induction false} PositionAt(time: Times, s: seq<Ptr>, t: nat, k: nat)
    requires k <= |s| && forall i :: 0 <= i < k ==> T(time, s[i]) != 0 && T(time, s[i]) <= t
    requires k < |s| ==> T(time, s[k]) == 0 || T(time, s[k]) > t
    ensures Position(time, s, t) == k
    decreases k
  {
    if k > 0 {
      assert s[0] == s[0] && T(time, s[0]) != 0;
      forall i | 0 <= i < k - 1
        ensures T(time, s[1..][i]) != 0 && T(time, s[1..][i]) <= t
      {
        assert s[1..][i] == s[i + 1];
      }
      PositionAt(time, s[1..], t, k - 1);
    }
  }

  class Simulator {
    var links: Dl
    var time: Times
    var picos: nat
    // the changed signals, and the signals each hook is subscribed to
    var anyEvent: bool
    var events: Vector
    var signals: map<Ptr, Vector>
    var callingHooks: bool
    var hooks: Ptr
    var immediateHooks: Ptr
    // what the two lists hold
    ghost var listed: seq<Ptr>
    ghost var immediate: seq<Ptr>
    // the callbacks called in the round under way, in order
    ghost var calls: seq<Ptr>

    ghost predicate Valid()
      reads this`links, this`hooks, this`listed, this`immediateHooks, this`immediate
    {
      IsList(links, hooks, listed) && IsList(links, immediateHooks, immediate) && Apart(listed, immediate)
    }

    constructor (numSignals: nat)
      ensures Valid() && listed == [] && immediate == [] && picos == 0 && !callingHooks && time == map[]
      ensures numSignals <= 128 ==> Wired() && Environment() == Env(0, {}, map[])
    {
      links, time, picos, anyEvent, signals := Dl(map[], map[]), map[], 0, false, map[];
      events := new Vector(numSignals);
      callingHooks, hooks, immediateHooks := false, NULL, NULL;
      listed, immediate, calls := [], [], [];
    }

    /** The bit vectors are well formed, and the flag stands whenever a bit does. */
    ghost predicate Wired()
      reads this`anyEvent, this`events, this`signals, events, events.vals
      reads set h | h in signals :: signals[h], set h | h in signals :: signals[h].vals
    {
      && events.Valid() && (!anyEvent ==> events.Members() == {})
      && forall h {:trigger signals[h]} :: h in signals ==> signals[h].Valid()
    }

    ghost function Environment(): Env
      reads this`picos, this`events, this`signals, events, events.vals
      reads set h | h in signals :: signals[h], set h | h in signals :: signals[h].vals
    {
      Env(picos, events.Members(), map h | h in signals :: signals[h].Members())
    }

    /** Whether a changed signal is among those of the hook. */
    method Subscribed(h: Ptr) returns (r: bool)
      requires Wired()
      ensures r <==> h in Environment().sub && exists g :: g in Environment().events && g in Environment().sub[h]
    {
      r := false;
      if anyEvent && h in signals {
        r := AndReduce(events, signals[h]);
      }
    }

    /** sim_hook_add: in order of target time, or at the end while callbacks run. */
    method HookAdd(h: Ptr)
      requires Valid() && h != NULL && h !in listed && h !in immediate
      modifies this`links, this`hooks, this`listed
      ensures Valid() && listed == if callingHooks then old(listed) + [h] else Insert(time, old(listed), h)
      ensures Frame(old(links), links, old(listed), h)
    {
      hide IsList, Distinct, Frame, Prepend, Append, InsertBefore;
      ghost var s := listed;
      NonEmpty();
      if !callingHooks && T(time, h) != 0 && hooks != NULL {
        if T(time, hooks) == 0 || T(time, hooks) > T(time, h) {
          PrependLists(links, hooks, s, h);
          KeepImmediate(Prepend(links, hooks, h).0, h);
          var (d, head) := Prepend(links, hooks, h);
          links, hooks := d, head;
          listed := [h] + s;
          PositionAt(time, s, T(time, h), 0);
          assert s[..0] + [h] + s[0..] == [h] + s;
        } else {
          InsertSorted(h);
        }
      } else {
        AppendLists(links, hooks, s, h);
        KeepImmediate(Append(links, hooks, h).0, h);
        var (d, head) := Append(links, hooks, h);
        links, hooks := d, head;
        listed := s + [h];
        if !callingHooks { EmptyInsert(s, h); }
      }
    }

    lemma NonEmpty()
      requires Valid()
      ensures hooks != NULL <==> listed != []
      ensures listed != [] ==> hooks == listed[0]
    {
    }

    lemma KeepImmediate(d: Dl, x: Ptr)
      requires Valid() && Frame(links, d, listed, x) && x !in immediate
      ensures IsList(d, immediateHooks, immediate)
    {
      FrameKeeps(links, d, listed, x, immediateHooks, immediate);
    }

    lemma EmptyInsert(s: seq<Ptr>, h: Ptr)
      requires s == [] || T(time, h) == 0
      ensures Insert(time, s, h) == s + [h]
    {
    }

    /** The walk of sim_hook_add past the head. */
    method InsertSorted(h: Ptr)
      requires Valid() && h != NULL && h !in listed && h !in immediate && listed != [] && T(time, h) != 0
      requires T(time, hooks) != 0 && T(time, hooks) <= T(time, h)
      modifies this`links, this`hooks, this`listed
      ensures Valid() && listed == Insert(time, old(listed), h) && Frame(old(links), links, old(listed), h)
    {
      hide IsList, Distinct, Frame, Append, InsertBefore;
      NonEmpty();
      ghost var s, k := listed, 0;
      var i := hooks;
      while i != NULL
        modifies {}
        invariant 0 <= k <= |s| && i == (if k < |s| then s[k] else NULL)
        invariant forall j :: 0 <= j < k ==> T(time, s[j]) != 0 && T(time, s[j]) <= T(time, h)
        decreases |s| - k
      {
        if T(time, i) == 0 || T(time, i) > T(time, h) {
          break;
        }
        LinksAt(links, hooks, s, k);
        k := k + 1;
        i := links.Next(i);
      }
      if i != NULL {
        PositionAt(time, s, T(time, h), k);
        InsertLists(links, hooks, s, k, h);
        KeepImmediate(InsertBefore(links, i, h), h);
        links := InsertBefore(links, i, h);
        listed := With(s, k, h);
        InsertApart(s, k, h);
        return;
      }
      NoNull(k);
      PositionAt(time, s, T(time, h), |s|);
      AppendLists(links, hooks, s, h);
      KeepImmediate(Append(links, hooks, h).0, h);
      var (d, head) := Append(links, hooks, h);
      links, hooks := d, head;
      listed := s + [h];
      assert s[..|s|] + [h] + s[|s|..] == s + [h];
    }

    lemma NoNull(k: nat)
      requires Valid() && k <= |listed| && (k < |listed| ==> listed[k] == NULL)
      ensures k == |listed|
    {
    }

    lemma InsertApart(s: seq<Ptr>, k: nat, h: Ptr)
      requires k <= |s| && Apart(s, immediate) && h !in immediate
      ensures Apart(With(s, k, h), immediate)
    {
      assert s == s[..k] + s[k..];
    }

    /** sim_hook_remove */
    method HookRemove(h: Ptr)
      requires Valid() && h in listed
      modifies this`links, this`hooks, this`listed
      ensures Valid() && listed == Drop(old(listed), h) && Frame(old(links), links, old(listed), NULL)
    {
      hide IsList, Distinct, Frame, Delete, Drop;
      ghost var k := Index(listed, h);
      DeleteLists(links, hooks, listed, k);
      KeepImmediate(Delete(links, hooks, h).0, NULL) by { NullNotListed(); }
      var (d, head) := Delete(links, hooks, h);
      links, hooks := d, head;
      DropIs(listed, h);
      listed := Without(listed, k);
    }

    lemma NullNotListed()
      requires Valid()
      ensures NULL !in immediate && NULL !in listed
    {
    }

    /** sim_immediate_hook_add */
    method ImmediateAdd(h: Ptr)
      requires Valid() && h != NULL && h !in listed && h !in immediate
      modifies this`links, this`immediateHooks, this`immediate
      ensures Valid() && immediate == old(immediate) + [h] && Frame(old(links), links, old(immediate), h)
    {
      hide IsList, Distinct, Frame, Append;
      AppendLists(links, immediateHooks, immediate, h);
      var (d, head) := Append(links, immediateHooks, h);
      FrameKeeps(links, d, immediate, h, hooks, listed);
      links, immediateHooks := d, head;
      immediate := immediate + [h];
    }

    /** next_hook_delay looks at the head only. */
    method NextHookDelay() returns (d: nat)
      requires Valid()
      ensures d == HeadDelay(time, picos, listed)
    {
      hide IsList;
      NonEmpty();
      if hooks != NULL && T(time, hooks) != 0 && T(time, hooks) > picos {
        d := T(time, hooks) - picos;
      } else {
        d := 0;
      }
    }

    /** The delay of sim_wait_time, without the division by pico_scale, which is one here. */
    method WaitTimeDelay(request: nat) returns (delay: nat)
      requires Valid()
      ensures delay == WaitDelay(time, picos, listed, request)
      ensures Ordered(time, listed) && NonePast(time, picos, listed) ==>
                forall h :: h in listed ==> T(time, h) == 0 || picos + delay <= T(time, h)
    {
      hide IsList, Ordered, NonePast;
      delay := NextHookDelay();
      if delay == 0 || delay > request {
        delay := request;
      }
      if Ordered(time, listed) && NonePast(time, picos, listed) {
        forall h | h in listed
          ensures T(time, h) == 0 || picos + delay <= T(time, h)
        {
          WaitsInTime(time, picos, listed, request, picos + delay, h);
        }
      }
    }

    // ----- one firing round -----

    /** The detached list `local` and the two lists of the simulator while callbacks run. */
    ghost predicate Firing(local: Ptr, r: Round, rest: seq<Ptr>)
      reads this
    {
      && callingHooks && IsList(links, local, r.kept + rest) && Valid() && Separate(r, rest)
      && r.pend == listed && r.imm == immediate && r.time == time && r.called == calls
    }

    /** One action of a callback. */
    method Perform(a: Action, ghost local: Ptr, ghost r: Round, ghost rest: seq<Ptr>)
      requires Firing(local, r, rest) && Allowed(r, rest, a)
      modifies this`links, this`hooks, this`listed, this`immediateHooks, this`immediate, this`time
      ensures Firing(local, Act(r, a), rest)
    {
      hide IsList, Separate, Frame, Drop, Valid;
      ActKeeps(r, rest, a);
      Elsewhere(local, r, rest, a.g);
      match a
      case Add(g, t) =>
        time := time[g := t];
        assert Valid() by { ValidKept(); }
        HookAdd(g);
        assert IsList(links, local, r.kept + rest)
            by { FrameKeeps(old(links), links, r.pend, g, local, r.kept + rest); }
      case Remove(g) =>
        HookRemove(g);
        assert IsList(links, local, r.kept + rest)
            by { FrameKeeps(old(links), links, r.pend, NULL, local, r.kept + rest); }
      case Immediate(g) =>
        ImmediateAdd(g);
        assert IsList(links, local, r.kept + rest) by { FrameKeeps(old(links), links, r.imm, g, local, r.kept + rest); }
      case Retime(g, t) =>
        time := time[g := t];
        assert Valid() by { ValidKept(); }
    }

    lemma ValidKept()
      requires IsList(links, hooks, listed) && IsList(links, immediateHooks, immediate) && Apart(listed, immediate)
      ensures Valid()
    {
    }

    /** Nodes of the detached list are in no other list, and an unlisted hook is in none. */
    lemma Elsewhere(local: Ptr, r: Round, rest: seq<Ptr>, g: Ptr)
      requires Firing(local, r, rest)
      ensures forall y :: y in r.kept + rest ==> y !in r.pend && y !in r.imm && y != NULL
      ensures !Listed(r, rest, g) ==> g !in listed && g !in immediate && g !in r.kept + rest
      ensures IsList(links, hooks, listed) && IsList(links, immediateHooks, immediate) && Apart(listed, immediate)
    {
    }

    method PerformAll(acts: seq<Action>, ghost local: Ptr, ghost r: Round, ghost rest: seq<Ptr>)
      requires Firing(local, r, rest) && AllAllowed(r, rest, acts)
      modifies this`links, this`hooks, this`listed, this`immediateHooks, this`immediate, this`time
      ensures Firing(local, ActAll(r, acts), rest)
    {
      hide Firing, Allowed, Act;
      ghost var r' := r;
      var i := 0;
      assert acts[0..] == acts;
      while i < |acts|
        invariant i <= |acts| && Firing(local, r', rest) && AllAllowed(r', rest, acts[i..])
        invariant ActAll(r', acts[i..]) == ActAll(r, acts)
      {
        assert acts[i..][0] == acts[i] && acts[i..][1..] == acts[i + 1..];
        Perform(acts[i], local, r', rest);
        r' := Act(r', acts[i]);
        i := i + 1;
      }
    }

    /** DL_DELETE of the visited hook from the detached list. */
    method Unlink(local: Ptr, h: Ptr, ghost r: Round, ghost rest: seq<Ptr>) returns (local': Ptr)
      requires callingHooks && IsList(links, local, r.kept + rest) && Valid() && Separate(r, rest)
      requires r.pend == listed && r.imm == immediate && rest != [] && h == rest[0]
      modifies this`links
      ensures IsList(links, local', r.kept + rest[1..]) && Valid()
      ensures h != NULL && h !in listed && h !in immediate
      ensures forall y :: y in r.kept + rest[1..] ==> y !in listed && y != h
    {
      hide IsList, Delete, Frame;
      ghost var all := r.kept + rest;
      Middle(r.kept, rest);
      assert all[|r.kept|] == h && h in all;
      DeleteLists(links, local, all, |r.kept|);
      WithoutDistinct(all, |r.kept|);
      assert h != NULL by { NotNull(all, |r.kept|); }
      var (d, head) := Delete(links, local, h);
      FrameKeeps(links, d, all, NULL, hooks, listed) by { ListHasNoNull(links, hooks, listed); }
      FrameKeeps(links, d, all, NULL, immediateHooks, immediate) by { ListHasNoNull(links, immediateHooks, immediate); }
      links, local' := d, head;
    }

    /** After the callback of h: delete, move to the pending list, or leave in place. */
    method SettleHook(local: Ptr, h: Ptr, orig: nat, retire: bool, ghost e: Env, ghost r: Round, ghost rest: seq<Ptr>)
      returns (local': Ptr)
      requires Firing(local, r, rest) && rest != [] && h == rest[0] && e.picos == picos
      modifies this`links, this`hooks, this`listed, this`time
      ensures Firing(local', Settle(e, r, h, orig, retire), rest[1..])
    {
      hide IsList, Separate, Frame;
      Middle(r.kept, rest);
      SettleSeparate(e, r, rest, orig, retire);
      local' := local;
      if retire {
        time := time[h := 0];
        local' := Unlink(local, h, r, rest);
      } else {
        if T(time, h) <= picos {
          time := time[h := 0];
        } else {
          assert r.time[h := r.time[h]] == r.time;
        }
        if T(time, h) != orig {
          local' := Unlink(local, h, r, rest);
          ghost var d := links;
          HookAdd(h);
          FrameKeeps(d, links, r.pend, h, local', r.kept + rest[1..]);
        }
      }
    }

    /** The visit of a hook that is due: its callback, then what becomes of it. */
    method CallHook(local: Ptr, h: Ptr, o: Outcome, ghost e: Env, ghost r: Round, ghost rest: seq<Ptr>)
      returns (local': Ptr)
      requires Firing(local, r, rest) && rest != [] && h == rest[0] && e.picos == picos
      requires AllAllowed(r.(time := r.time[h := o.newTime], called := r.called + [h]), rest, o.acts)
      modifies this`links, this`hooks, this`listed, this`immediateHooks, this`immediate, this`time, this`calls
      ensures Firing(local', Called(e, r, h, o), rest[1..])
    {
      hide IsList, Separate, AllAllowed, ActAll, Settle;
      var orig := T(time, h);
      ghost var r1 := r.(time := r.time[h := o.newTime], called := r.called + [h]);
      SeparateIgnores(r, r1, rest);
      time := time[h := o.newTime];
      calls := calls + [h];
      PerformAll(o.acts, local, r1, rest);
      local' := SettleHook(local, h, orig, o.retire, e, ActAll(r1, o.acts), rest);
    }

    /** Where the saved next pointer of a visited hook leads. */
    lemma NextVisited(local: Ptr, r: Round, rest: seq<Ptr>)
      requires Firing(local, r, rest) && rest != []
      ensures rest[0] != NULL && links.Next(rest[0]) == if |rest| > 1 then rest[1] else NULL
    {
      var all := r.kept + rest;
      LinksAt(links, local, all, |r.kept|);
    }

    lemma FiringBegins(local: Ptr, rest: seq<Ptr>)
      requires callingHooks && IsList(links, local, rest) && Valid() && listed == [] && immediate == [] && calls == []
      ensures Firing(local, Begin(time), rest)
      ensures local == if rest == [] then NULL else rest[0]
    {
      assert [] + rest == rest;
    }

    /** One visit: the hook is called when it is due, and stays otherwise. */
    method VisitHook(local: Ptr, h: Ptr, os: seq<Outcome>, k: nat, ghost e: Env, ghost r: Round, ghost rest: seq<Ptr>)
        returns (local': Ptr, k': nat, ghost r': Round)
      requires Firing(local, r, rest) && rest != [] && h == rest[0] && e == Environment()
      requires k <= |os| && Obeys(e, rest, r, os[k..]) && Wired()
      modifies this`links, this`hooks, this`listed, this`immediateHooks, this`immediate, this`time, this`calls
      ensures e == Environment() && Wired()
      ensures Firing(local', r', rest[1..]) && k' <= |os|
      ensures Obeys(e, rest[1..], r', os[k'..]) && Visit(e, rest[1..], r', os[k'..]) == Visit(e, rest, r, os[k..])
    {
      hide Firing, Called, Obeys, AllAllowed, Visit, Due, Wired;
      VisitOne(e, rest, r, os[k..]);
      FiringTime(local, r, rest);
      var isTargetTime := T(time, h) != 0 && T(time, h) <= picos;
      var subscribed := Subscribed(h);
      DueMeans(e, r.time, h);
      if isTargetTime || subscribed {
        assert os[k..][0] == os[k] && os[k..][1..] == os[k + 1..];
        local' := CallHook(local, h, os[k], e, r, rest);
        r', k' := Called(e, r, h, os[k]), k + 1;
      } else {
        SkipHook(local, r, rest);
        local', r', k' := local, r.(kept := r.kept + [h]), k;
      }
    }

    /** The callback loop over the detached list. */
    method CallHooks(local: Ptr, os: seq<Outcome>, ghost hooks0: seq<Ptr>) returns (local': Ptr, ghost r: Round)
      requires callingHooks && IsList(links, local, hooks0) && Valid() && listed == [] && immediate == []
      requires Obeys(Environment(), hooks0, Begin(time), os) && Wired()
      requires Distinct(hooks0) && Ordered(time, hooks0)
      modifies this`links, this`hooks, this`listed, this`immediateHooks, this`immediate, this`time, this`calls
      ensures Firing(local', r, []) && r == Visit(old(Environment()), hooks0, Begin(old(time)), os)
      ensures Wired() && Environment() == old(Environment())
      ensures r.called == calls && Within(calls, hooks0)
      ensures var e, t := old(Environment()), old(time);
              forall h :: h in calls <==>
                && h in hooks0
                && ((h in t && 0 < t[h] <= e.picos) || (h in e.sub && exists g :: g in e.events && g in e.sub[h]))
    {
      hide Firing, Obeys, Valid, IsList, Visit, Wired, Distinct, Ordered, Within;
      ghost var e, rest, time0 := Environment(), hooks0, time;
      r, calls := Begin(time), [];
      FiringBegins(local, hooks0);
      var h, k := local, 0;
      local' := local;
      assert os[0..] == os;
      ghost var goal := Visit(e, hooks0, r, os);
      while h != NULL
        invariant Firing(local', r, rest) && h == (if rest == [] then NULL else rest[0])
        invariant 0 <= k <= |os| && Obeys(e, rest, r, os[k..]) && Visit(e, rest, r, os[k..]) == goal
        invariant e == Environment() && Wired()
        decreases |rest|
      {
        NextVisited(local', r, rest);
        var t := links.Next(h);
        local', k, r := VisitHook(local', h, os, k, e, r, rest);
        rest := rest[1..];
        h := t;
      }
      LastVisited(local', r, rest);
      VisitNone(e, r, os[k..]);
      FiringTime(local', r, []);
      RoundCalls(e, hooks0, time0, os);
    }

    lemma LastVisited(local: Ptr, r: Round, rest: seq<Ptr>)
      requires Firing(local, r, rest) && (rest != [] ==> rest[0] == NULL)
      ensures rest == []
    {
      if rest != [] { NextVisited(local, r, rest); }
    }

    lemma FiringTime(local: Ptr, r: Round, rest: seq<Ptr>)
      requires Firing(local, r, rest)
      ensures r.time == time && r.called == calls
    {
    }

    lemma SkipHook(local: Ptr, r: Round, rest: seq<Ptr>)
      requires Firing(local, r, rest) && rest != []
      ensures Firing(local, r.(kept := r.kept + [rest[0]]), rest[1..])
    {
      Middle(r.kept, rest);
      SkippedSeparate(r, rest);
    }

    /** The pending hooks go back into the list, in order of target time. */
    method MergePending(pending: Ptr, ghost pend: seq<Ptr>)
      requires Valid() && !callingHooks && Chain(links, pending, pend) && Distinct(pend)
      requires Apart(pend, listed) && Apart(pend, immediate)
      modifies this`links, this`hooks, this`listed
      ensures Valid() && listed == InsertAll(time, old(listed), pend)
    {
      hide Valid, Chain, Distinct, Frame, Insert;
      var h := pending;
      ghost var rest := pend;
      ChainFirst(links, h, rest);
      while h != NULL
        invariant Valid() && Chain(links, h, rest) && Distinct(rest) && Apart(rest, listed) && Apart(rest, immediate)
        invariant InsertAll(time, listed, rest) == InsertAll(time, old(listed), pend)
        invariant h == NULL <==> rest == []
        decreases |rest|
      {
        ChainTail(links, h, rest);
        TailOf(rest);
        var t := links.Next(h);
        ghost var d, s := links, listed;
        HookAdd(h);
        ChainFrame(d, links, s, h, t, rest[1..]);
        assert forall y :: y in listed ==> y in s || y == h by { InsertFrom(s, h); }
        ChainFirst(links, t, rest[1..]);
        rest := rest[1..];
        h := t;
      }
    }

    lemma InsertFrom(s: seq<Ptr>, h: Ptr)
      ensures forall y :: y in Insert(time, s, h) ==> y in s || y == h
    {
    }

    /** The callbacks of the immediate hooks may add and remove any hook that is not immediate. */
    method CallImmediate(scripts: seq<seq<Action>>)
      requires Valid() && !callingHooks && |scripts| == |immediate|
      requires ImmAllowed(Live(listed, time), immediate, Flat(scripts))
      modifies this`links, this`hooks, this`listed, this`time, this`immediateHooks, this`immediate
      ensures Valid() && immediate == []
      ensures Live(listed, time) == ImmAll(old(Live(listed, time)), Flat(scripts))
    {
      hide Valid, Chain, Frame, ImmAllowed, ImmAll, IsList;
      ghost var rest, l0 := immediate, Live(listed, time);
      assert Chain(links, immediateHooks, rest) by { ImmediateChain(); }
      var h, k := immediateHooks, 0;
      assert scripts[0..] == scripts;
      ChainFirst(links, h, rest);
      while h != NULL
        invariant Valid() && immediate == old(immediate) && Chain(links, h, rest)
        invariant forall y :: y in rest ==> y in immediate
        invariant 0 <= k <= |scripts| && |rest| == |scripts| - k && (h == NULL <==> rest == [])
        invariant ImmAllowed(Live(listed, time), immediate, Flat(scripts[k..]))
        invariant ImmAll(Live(listed, time), Flat(scripts[k..])) == ImmAll(l0, Flat(scripts))
        decreases |rest|
      {
        ChainTail(links, h, rest);
        TailOf(rest);
        assert scripts[k..][0] == scripts[k] && scripts[k..][1..] == scripts[k + 1..];
        ImmSplit(Live(listed, time), immediate, scripts[k], Flat(scripts[k + 1..]));
        ImmediateScript(scripts[k], h, rest);
        ChainTail(links, h, rest);
        h := links.Next(h);
        ChainFirst(links, h, rest[1..]);
        rest, k := rest[1..], k + 1;
      }
      assert Live(listed, time) == ImmAll(l0, Flat(scripts)) by { ImmNone(Live(listed, time), scripts[k..]); }
      ImmediateChain();
      immediateHooks, immediate := NULL, [];
      assert Valid() by { ValidEmptyImmediate(); }
    }

    lemma ImmediateChain()
      requires Valid()
      ensures Chain(links, immediateHooks, immediate) && IsList(links, hooks, listed)
    {
      ListIsChain(links, immediateHooks, immediate);
    }

    lemma ValidEmptyImmediate()
      requires IsList(links, hooks, listed) && immediate == [] && immediateHooks == NULL
      ensures Valid()
    {
    }

    /** One immediate callback. */
    method ImmediateScript(acts: seq<Action>, ghost h: Ptr, ghost rest: seq<Ptr>)
      requires Valid() && !callingHooks && ImmAllowed(Live(listed, time), immediate, acts)
      requires Chain(links, h, rest) && forall y :: y in rest ==> y in immediate
      modifies this`links, this`hooks, this`listed, this`time
      ensures Valid() && Live(listed, time) == ImmAll(old(Live(listed, time)), acts) && Chain(links, h, rest)
    {
      hide Valid, Chain, ImmOk, Imm;
      var i := 0;
      assert acts[0..] == acts;
      while i < |acts|
        invariant 0 <= i <= |acts| && Valid() && ImmAllowed(Live(listed, time), immediate, acts[i..]) &&
                  Chain(links, h, rest)
        invariant ImmAll(Live(listed, time), acts[i..]) == ImmAll(old(Live(listed, time)), acts)
      {
        assert acts[i..][0] == acts[i] && acts[i..][1..] == acts[i + 1..];
        ImmediateAction(acts[i], h, rest);
        i := i + 1;
      }
    }

    method ImmediateAction(a: Action, ghost h: Ptr, ghost rest: seq<Ptr>)
      requires Valid() && !callingHooks && ImmOk(Live(listed, time), immediate, a)
      requires Chain(links, h, rest) && forall y :: y in rest ==> y in immediate
      modifies this`links, this`hooks, this`listed, this`time
      ensures Valid() && Live(listed, time) == Imm(old(Live(listed, time)), a) && Chain(links, h, rest)
    {
      hide IsList, Chain, Frame, Insert, Drop;
      ghost var d, s := links, listed;
      NullNotListed();
      assert forall y :: y in rest ==> y !in s && y != NULL;
      match a
      case Add(g, t) =>
        time := time[g := t];
        HookAdd(g);
        ChainFrame(d, links, s, g, h, rest);
      case Remove(g) =>
        HookRemove(g);
        ChainFrame(d, links, s, NULL, h, rest);
      case Retime(g, t) =>
        time := time[g := t];
      case Immediate(g) =>
    }

    /** sim_fire_events */
    method FireEvents(os: seq<Outcome>, scripts: seq<seq<Action>>)
      requires Valid() && !callingHooks && immediate == [] && Ordered(time, listed) && Wired()
      requires Obeys(Environment(), listed, Begin(time), os)
      requires var r := Visit(Environment(), listed, Begin(time), os);
               |scripts| == |r.imm| && ImmAllowed(Live(ListAfter(r), r.time), r.imm, Flat(scripts))
      modifies this`links, this`hooks, this`listed, this`immediateHooks, this`immediate, this`time, this`callingHooks
      modifies this`calls
      ensures Valid() && !callingHooks && immediate == [] && Wired()
      ensures Within(calls, old(listed))
      ensures var e, t := old(Environment()), old(time);
              forall h :: h in calls <==>
                && h in old(listed)
                && ((h in t && 0 < t[h] <= e.picos) || (h in e.sub && exists g :: g in e.events && g in e.sub[h]))
      ensures var r := Visit(old(Environment()), old(listed), Begin(old(time)), os);
              Live(listed, time) == ImmAll(Live(ListAfter(r), r.time), Flat(scripts))
    {
      hide Obeys, Visit, ImmAllowed, ImmAll, InsertAll, IsList, Ordered, Wired, Within, Environment;
      DistinctList();
      var local := hooks;
      ghost var hooks0 := listed;
      hooks, listed, callingHooks := NULL, [], true;
      assert Valid() by { EmptyIsList(links); }
      ghost var r;
      local, r := CallHooks(local, os, hooks0);
      callingHooks := false;
      var pending := hooks;
      hooks, listed := local, r.kept;
      Swapped(local, pending, r);
      MergePending(pending, r.pend);
      CallImmediate(scripts);
    }

    lemma DistinctList()
      requires Valid()
      ensures Distinct(listed)
    {
    }

    /** After the swap the kept hooks are the list and the pending ones a chain apart from it. */
    lemma Swapped(local: Ptr, pending: Ptr, r: Round)
      requires IsList(links, local, r.kept + []) && IsList(links, pending, r.pend) && Separate(r, [])
      requires IsList(links, immediateHooks, immediate) && r.imm == immediate && hooks == local && listed == r.kept
      ensures Valid() && Chain(links, pending, r.pend) && Distinct(r.pend) && Apart(r.pend, listed) &&
              Apart(r.pend, immediate)
    {
      assert r.kept + [] == r.kept;
      ListIsChain(links, pending, r.pend);
    }
  }

  lemma EmptyIsList(d: Dl)
    ensures IsList(d, NULL, [])
  {
  }

  lemma ChainFirst(d: Dl, head: Ptr, s: seq<Ptr>)
    requires Chain(d, head, s)
    ensures head == NULL <==> s == []
  {
  }

  // ----- the immediate phase on sequences -----

  /** The list and the targets between rounds. */
  datatype Live = Live(listed: seq<Ptr>, time: Times)

  function Imm(l: Live, a: Action): Live {
    match a
    case Add(g, t) => Live(Insert(l.time[g := t], l.listed, g), l.time[g := t])
    case Remove(g) => l.(listed := Drop(l.listed, g))
    case Retime(g, t) => l.(time := l.time[g := t])
    case Immediate(g) => l
  }

  function ImmAll(l: Live, acts: seq<Action>): Live
    decreases |acts|
  {
    if acts == [] then l else ImmAll(Imm(l, acts[0]), acts[1..])
  }

  ghost predicate ImmOk(l: Live, imm: seq<Ptr>, a: Action) {
    match a
    case Remove(g) => g in l.listed
    case Immediate(g) => false
    case _ => a.g != NULL && a.g !in l.listed && a.g !in imm
  }

  ghost predicate ImmAllowed(l: Live, imm: seq<Ptr>, acts: seq<Action>)
    decreases |acts|
  {
    acts == [] || (ImmOk(l, imm, acts[0]) && ImmAllowed(Imm(l, acts[0]), imm, acts[1..]))
  }

  function Flat(ss: seq<seq<Action>>): seq<Action> {
    if ss == [] then [] else ss[0] + Flat(ss[1..])
  }

  lemma {:induction false} ImmSplit(l: Live, imm: seq<Ptr>, a: seq<Action>, b: seq<Action>)
    requires ImmAllowed(l, imm, a + b)
    ensures ImmAllowed(l, imm, a) && ImmAllowed(ImmAll(l, a), imm, b) && ImmAll(l, a + b) == ImmAll(ImmAll(l, a), b)
    decreases |a|
  {
    hide Imm, ImmOk;
    if a == [] {
      assert a + b == b;
    } else {
      assert (a + b)[0] == a[0] && (a + b)[1..] == a[1..] + b;
      ImmSplit(Imm(l, a[0]), imm, a[1..], b);
    }
  }

  lemma ImmNone(l: Live, ss: seq<seq<Action>>)
    requires ss == []
    ensures ImmAll(l, Flat(ss)) == l
  {
  }

  /** Immediate callbacks keep the list in order. */
  lemma {:induction false} ImmOrdered(l: Live, imm: seq<Ptr>, acts: seq<Action>)
    requires Ordered(l.time, l.listed) && Distinct(l.listed) && ImmAllowed(l, imm, acts)
    ensures Ordered(ImmAll(l, acts).time, ImmAll(l, acts).listed) && Distinct(ImmAll(l, acts).listed)
    decreases |acts|
  {
    if acts != [] {
      ImmOneOrdered(l, imm, acts[0]);
      ImmOrdered(Imm(l, acts[0]), imm, acts[1..]);
    }
  }

  lemma ImmOneOrdered(l: Live, imm: seq<Ptr>, a: Action)
    requires Ordered(l.time, l.listed) && Distinct(l.listed) && ImmOk(l, imm, a)
    ensures Ordered(Imm(l, a).time, Imm(l, a).listed) && Distinct(Imm(l, a).listed)
  {
    hide Ordered, Distinct, Insert;
    match a
    case Add(g, t) =>
      SameTimesOrdered(l.time, l.time[g := t], l.listed);
      InsertOrdered(l.time[g := t], l.listed, g);
      InsertMembers(l.time[g := t], l.listed, g);
    case Remove(g) =>
      DropIs(l.listed, g);
      DropMembers(l.listed, g);
      WithoutOrdered(l.time, l.listed, Index(l.listed, g));
    case Retime(g, t) => SameTimesOrdered(l.time, l.time[g := t], l.listed);
    case Immediate(g) =>
  }

  /** The order holds after every round, whatever its callbacks and immediate callbacks do. */
  lemma RoundKeepsOrder(e: Env, hooks: seq<Ptr>, time: Times, os: seq<Outcome>, imms: seq<Action>)
    requires Distinct(hooks) && Ordered(time, hooks) && Obeys(e, hooks, Begin(time), os)
    requires var r := Visit(e, hooks, Begin(time), os); ImmAllowed(Live(ListAfter(r), r.time), r.imm, imms)
    ensures var r := Visit(e, hooks, Begin(time), os);
            var l := ImmAll(Live(ListAfter(r), r.time), imms);
            Ordered(l.time, l.listed) && Distinct(l.listed)
  {
    hide Visit, Obeys, ImmAll, ImmAllowed, Ordered, Distinct, InsertAll;
    RoundOrdered(e, hooks, time, os);
    var r := Visit(e, hooks, Begin(time), os);
    ImmOrdered(Live(ListAfter(r), r.time), r.imm, imms);
  }

  lemma VisitNone(e: Env, r: Round, os: seq<Outcome>)
    ensures Visit(e, [], r, os) == r
  {
  }

  lemma VisitOne(e: Env, rest: seq<Ptr>, r: Round, os: seq<Outcome>)
    requires rest != [] && Obeys(e, rest, r, os)
    ensures Due(e, r.time, rest[0]) ==>
              && os != []
              && AllAllowed(r.(time := r.time[rest[0] := os[0].newTime], called := r.called + [rest[0]]), rest,
                            os[0].acts)
              && Obeys(e, rest[1..], Called(e, r, rest[0], os[0]), os[1..])
              && Visit(e, rest, r, os) == Visit(e, rest[1..], Called(e, r, rest[0], os[0]), os[1..])
    ensures !Due(e, r.time, rest[0]) ==>
              && Obeys(e, rest[1..], r.(kept := r.kept + [rest[0]]), os)
              && Visit(e, rest, r, os) == Visit(e, rest[1..], r.(kept := r.kept + [rest[0]]), os)
  {
    hide Called, AllAllowed;
  }

  lemma ListHasNoNull(d: Dl, head: Ptr, s: seq<Ptr>)
    requires IsList(d, head, s)
    ensures NULL !in s
  {
  }

  lemma DropIs(s: seq<Ptr>, g: Ptr)
    requires g in s
    ensures Drop(s, g) == Without(s, Index(s, g))
    ensures forall x :: x in Drop(s, g) ==> x in s
  {
  }

  /** Immediate callbacks and actions between rounds that add only future targets leave none past. */
  lemma {:induction false} ImmFuture(l: Live, imm: seq<Ptr>, acts: seq<Action>, picos: nat)
    requires Distinct(l.listed) && Ordered(l.time, l.listed) && NonePast(l.time, picos, l.listed)
    requires ImmAllowed(l, imm, acts) && Future(picos, acts)
    ensures NonePast(ImmAll(l, acts).time, picos, ImmAll(l, acts).listed)
    decreases |acts|
  {
    if acts != [] {
      hide Distinct, Ordered, NonePast, ImmOk, Imm, Future;
      FutureTail(picos, acts);
      ImmOneFuture(l, imm, acts[0], picos);
      ImmOneOrdered(l, imm, acts[0]);
      ImmFuture(Imm(l, acts[0]), imm, acts[1..], picos);
    }
  }

  lemma ImmOneFuture(l: Live, imm: seq<Ptr>, a: Action, picos: nat)
    requires Distinct(l.listed) && NonePast(l.time, picos, l.listed) && ImmOk(l, imm, a) &&
             (a.Add? ==> a.t == 0 || a.t > picos)
    ensures NonePast(Imm(l, a).time, picos, Imm(l, a).listed)
  {
    hide Insert, Drop, Distinct;
    if a.Add? {
      InsertMembers(l.time[a.g := a.t], l.listed, a.g);
    } else if a.Remove? {
      DropMembers(l.listed, a.g);
    }
    var l' := Imm(l, a);
    forall i {:trigger l'.listed[i]} | 0 <= i < |l'.listed|
      ensures T(l'.time, l'.listed[i]) == 0 || T(l'.time, l'.listed[i]) > picos
    {
      var h := l'.listed[i];
      assert h in l'.listed;
      if h in l.listed {
        var j :| 0 <= j < |l.listed| && l.listed[j] == h;
        assert T(l.time, l.listed[j]) == 0 || T(l.time, l.listed[j]) > picos;
      }
    }
  }
}
