/**
  Infinite schedules of two CPUs: at every instant one of them makes an access; true stands for cpu1.
 */
module Schedules {

  type Schedule = nat -> bool

  ghost predicate Later(who: Schedule, n: nat, b: bool) {
    exists m: nat {:trigger who(m)} :: n <= m && who(m) == b
  }

  /** Each CPU gets a turn again and again. */
  ghost predicate Fair(who: Schedule) {
    forall n: nat, b: bool :: Later(who, n, b)
  }

  /** The turns from instant n up to instant m. */
  ghost function Between(who: Schedule, n: nat, m: nat): (r: seq<bool>)
    requires n <= m
    ensures |r| == m - n && forall i :: 0 <= i < m - n ==> r[i] == who(n + i)
  {
    seq(m - n, i requires 0 <= i < m - n => who(n + i))
  }

  lemma BetweenJoins(who: Schedule, n: nat, k: nat, m: nat)
    requires n <= k <= m
    ensures Between(who, n, m) == Between(who, n, k) + Between(who, k, m)
  {
    var a, b := Between(who, n, m), Between(who, n, k) + Between(who, k, m);
    forall i | 0 <= i < m - n
      ensures a[i] == b[i]
    {
      if i >= k - n { assert b[i] == Between(who, k, m)[i - (k - n)]; }
    }
  }

  /** A finite schedule, and after it the CPUs by turns. */
  ghost function ByTurns(w: seq<bool>): Schedule {
    (n: nat) => if n < |w| then w[n] else n % 2 == 0
  }

  lemma ByTurnsFair(w: seq<bool>)
    ensures Fair(ByTurns(w)) && Between(ByTurns(w), 0, |w|) == w
  {
    var who := ByTurns(w);
    forall n: nat, b: bool
      ensures Later(who, n, b)
    {
      var m := 2 * (n + |w|) + if b then 0 else 1;
      assert m >= n && who(m) == b;
    }
  }
}
