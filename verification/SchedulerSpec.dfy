/**
  What the event scheduler of sim/simulator.c does with its hooks, on sequences: insertion in
  order of target time, one firing round, and the delay to the next target.
 */
module SchedulerSpec {
  import opened Addresses
  import opened UtList

  /** Target times; zero means no target. */
  type Times = map<Ptr, nat>

  function T(time: Times, h: Ptr): nat { if h in time then time[h] else 0 }

  /** A target may stand before another one, or before a hook without target. */
  predicate Le(a: nat, b: nat) { b == 0 || (a != 0 && a <= b) }

  /** Timed hooks first, in ascending order, then the untimed ones. */
  ghost predicate Ordered(time: Times, s: seq<Ptr>) {
    forall i, j :: 0 <= i < j < |s| ==> Le(T(time, s[i]), T(time, s[j]))
  }

  // ----- sim_hook_add outside a round -----

  /** How many hooks stay before a new hook with target t: those with a target no later than t. */
  function Position(time: Times, s: seq<Ptr>, t: nat): (k: nat)
    ensures k <= |s|
  {
    if s == [] || T(time, s[0]) == 0 || T(time, s[0]) > t then 0 else 1 + Position(time, s[1..], t)
  }

  function Insert(time: Times, s: seq<Ptr>, h: Ptr): seq<Ptr> {
    if T(time, h) == 0 then s + [h]
    else var k := Position(time, s, T(time, h)); s[..k] + [h] + s[k..]
  }

  function InsertAll(time: Times, s: seq<Ptr>, hs: seq<Ptr>): seq<Ptr>
    decreases |hs|
  {
    if hs == [] then s else InsertAll(time, Insert(time, s, hs[0]), hs[1..])
  }

  // ----- one firing round -----

  /** What stays fixed during a round: the time, the changed signals and the subscriptions. */
  datatype Env = Env(picos: nat, events: set<nat>, sub: map<Ptr, set<nat>>)

  predicate Due(e: Env, time: Times, h: Ptr) {
    || (T(time, h) != 0 && T(time, h) <= e.picos)
    || (h in e.sub && e.events * e.sub[h] != {})
  }

  /** What a callback may do besides setting its own hook's target time. */
  datatype Action = Add(g: Ptr, t: nat)      // set the target of an unlisted hook and add it
                  | Remove(g: Ptr)           // remove a hook added earlier in the round
                  | Immediate(g: Ptr)        // add an immediate hook
                  | Retime(g: Ptr, t: nat)   // set the target of an unlisted hook

  /** One call: whether it returns non-zero, its own target afterwards, and its actions. */
  datatype Outcome = Outcome(retire: bool, newTime: nat, acts: seq<Action>)

  datatype Round = Round(kept: seq<Ptr>, pend: seq<Ptr>, imm: seq<Ptr>, time: Times, called: seq<Ptr>)

  function Index(s: seq<Ptr>, g: Ptr): (k: nat)
    ensures k <= |s|
    ensures g in s ==> k < |s| && s[k] == g
  {
    if s == [] || s[0] == g then 0 else 1 + Index(s[1..], g)
  }

  function Drop(s: seq<Ptr>, g: Ptr): seq<Ptr> {
    var k := Index(s, g); if k < |s| then s[..k] + s[k + 1..] else s
  }

  function Act(r: Round, a: Action): Round {
    match a
    case Add(g, t) => r.(pend := r.pend + [g], time := r.time[g := t])
    case Remove(g) => r.(pend := Drop(r.pend, g))
    case Immediate(g) => r.(imm := r.imm + [g])
    case Retime(g, t) => r.(time := r.time[g := t])
  }

  function ActAll(r: Round, acts: seq<Action>): Round
    decreases |acts|
  {
    if acts == [] then r else ActAll(Act(r, acts[0]), acts[1..])
  }

  /** After the callback: retire, reschedule if the target changed, or leave in place. */
  function Settle(e: Env, r: Round, h: Ptr, orig: nat, retire: bool): Round {
    if retire then r.(time := r.time[h := 0])
    else
      var t := if T(r.time, h) <= e.picos then 0 else T(r.time, h);
      var r' := r.(time := r.time[h := t]);
      if t != orig then r'.(pend := r.pend + [h]) else r'.(kept := r.kept + [h])
  }

  function Called(e: Env, r: Round, h: Ptr, o: Outcome): Round {
    var r1 := r.(time := r.time[h := o.newTime], called := r.called + [h]);
    Settle(e, ActAll(r1, o.acts), h, T(r.time, h), o.retire)
  }

  /** The round over the hooks still to visit; the k-th call of the round behaves like os[k]. */
  function Visit(e: Env, rest: seq<Ptr>, r: Round, os: seq<Outcome>): Round
    decreases |rest|
  {
    if rest == [] then r
    else if Due(e, r.time, rest[0]) && os != [] then Visit(e, rest[1..], Called(e, r, rest[0], os[0]), os[1..])
    else Visit(e, rest[1..], r.(kept := r.kept + [rest[0]]), os)
  }

  /** The hooks that are in one of the lists. */
  ghost predicate Listed(r: Round, rest: seq<Ptr>, g: Ptr) {
    g in r.kept || g in r.pend || g in r.imm || g in rest
  }

  /** The rules for callbacks: they add, set and re-time only hooks that are in no list. */
  ghost predicate Allowed(r: Round, rest: seq<Ptr>, a: Action) {
    match a
    case Remove(g) => g in r.pend
    case _ => a.g != NULL && !Listed(r, rest, a.g)
  }

  ghost predicate AllAllowed(r: Round, rest: seq<Ptr>, acts: seq<Action>)
    decreases |acts|
  {
    acts == [] || (Allowed(r, rest, acts[0]) && AllAllowed(Act(r, acts[0]), rest, acts[1..]))
  }

  /** There is an outcome for every call, and every callback keeps the rules. */
  ghost predicate Obeys(e: Env, rest: seq<Ptr>, r: Round, os: seq<Outcome>)
    decreases |rest|
  {
    if rest == [] then true
    else if Due(e, r.time, rest[0]) then
      && os != []
      && AllAllowed(r.(time := r.time[rest[0] := os[0].newTime], called := r.called + [rest[0]]), rest, os[0].acts)
      && Obeys(e, rest[1..], Called(e, r, rest[0], os[0]), os[1..])
    else Obeys(e, rest[1..], r.(kept := r.kept + [rest[0]]), os)
  }

  function Begin(time: Times): Round { Round([], [], [], time, []) }

  // ----- next_hook_delay -----

  /** The head alone decides. */
  function HeadDelay(time: Times, picos: nat, s: seq<Ptr>): nat {
    if s != [] && T(time, s[0]) != 0 && T(time, s[0]) > picos then T(time, s[0]) - picos else 0
  }

  /** No hook has a target that has already passed. */
  ghost predicate NonePast(time: Times, picos: nat, s: seq<Ptr>) {
    forall i {:trigger s[i]} :: 0 <= i < |s| ==> T(time, s[i]) == 0 || T(time, s[i]) > picos
  }

  /** d is the distance to the nearest target, or zero when there is no target. */
  ghost predicate NearestDelay(time: Times, picos: nat, s: seq<Ptr>, d: nat) {
    && (forall i {:trigger s[i]} :: 0 <= i < |s| && T(time, s[i]) != 0 ==> d != 0 && picos + d <= T(time, s[i]))
    && (d != 0 ==> exists i :: 0 <= i < |s| && T(time, s[i]) == picos + d)
  }

  /**
    In an ordered list the head's delay is the minimum over all timed hooks exactly when no
    target has passed: a passed target at the head hides the targets behind it.
   */
  lemma HeadIsNearest(time: Times, picos: nat, s: seq<Ptr>)
    requires Ordered(time, s)
    ensures NearestDelay(time, picos, s, HeadDelay(time, picos, s)) <==> NonePast(time, picos, s)
  {
    if s != [] {
      assert forall j :: 0 < j < |s| ==> Le(T(time, s[0]), T(time, s[j]));
      var d := HeadDelay(time, picos, s);
      if d != 0 {
        assert T(time, s[0]) == picos + d;
      }
      if NonePast(time, picos, s) {
        assert T(time, s[0]) == 0 || T(time, s[0]) > picos;
      } else {
        var i :| 0 <= i < |s| && T(time, s[i]) != 0 && T(time, s[i]) <= picos;
        assert T(time, s[0]) != 0 && T(time, s[0]) <= picos;
      }
    }
  }

  // ----- sim_wait_time -----

  /** The delay that is sent to the child: the requested one, or the way to the head's target. */
  function WaitDelay(time: Times, picos: nat, s: seq<Ptr>, request: nat): nat {
    var d := HeadDelay(time, picos, s);
    if d == 0 || d > request then request else d
  }

  /** A wait that ends no later than it was asked to never passes a target. */
  lemma WaitsInTime(time: Times, picos: nat, s: seq<Ptr>, request: nat, arrival: nat, h: Ptr)
    requires Ordered(time, s) && NonePast(time, picos, s) && h in s
    requires arrival <= picos + WaitDelay(time, picos, s, request)
    ensures T(time, h) == 0 || arrival <= T(time, h)
  {
    var i :| 0 <= i < |s| && s[i] == h;
    HeadIsNearest(time, picos, s);
    assert T(time, s[i]) != 0 ==> picos + HeadDelay(time, picos, s) <= T(time, s[i]);
  }

  /** It is not shorter than it has to be: the one asked for, or up to the target of some hook. */
  lemma WaitIsTight(time: Times, picos: nat, s: seq<Ptr>, request: nat)
    requires Ordered(time, s) && NonePast(time, picos, s)
    ensures var d := WaitDelay(time, picos, s, request);
            d <= request && (d == request || exists h :: h in s && h in time && time[h] == picos + d)
  {
    HeadIsNearest(time, picos, s);
    var d := HeadDelay(time, picos, s);
    if d != 0 {
      var i :| 0 <= i < |s| && T(time, s[i]) == picos + d;
      assert s[i] in s && s[i] in time;
    }
  }

  /**
    With a passed target at the head the same wait can run past a later target: the head hides
    it.  The example has a hook for time 5 left over at time 10 and one due at time 20.
   */
  lemma PastHeadHidesTarget()
    ensures var time, s := map[1 := 5, 2 := 20], [1, 2];
            Ordered(time, s) && !NonePast(time, 10, s) && 10 + WaitDelay(time, 10, s, 100) > T(time, 2)
  {
    var time: Times, s: seq<Ptr> := map[1 := 5, 2 := 20], [1, 2];
    assert T(time, s[0]) == 5;
  }
}
