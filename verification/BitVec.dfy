/**
  The bit vectors of sim/bitvec.c, which hold the changed signals and the subscriptions of a
  hook: the test of a firing round looks at 32 signals at a time.  A word is its 32 bits, lowest
  first.
 */
module BitVec {

  const SIZE: nat := 4

  ghost predicate IsWord(w: seq<bool>) { |w| == 32 }

  /** 1 << j */
  function Mask(j: nat): (m: seq<bool>)
    ensures IsWord(m)
  { seq(32, i => i == j) }

  function And(a: seq<bool>, b: seq<bool>): (c: seq<bool>)
    requires IsWord(a) && IsWord(b)
    ensures IsWord(c)
  { seq(32, i requires 0 <= i < 32 => a[i] && b[i]) }

  function Or(a: seq<bool>, b: seq<bool>): (c: seq<bool>)
    requires IsWord(a) && IsWord(b)
    ensures IsWord(c)
  { seq(32, i requires 0 <= i < 32 => a[i] || b[i]) }

  function Not(a: seq<bool>): (c: seq<bool>)
    requires IsWord(a)
    ensures IsWord(c)
  { seq(32, i requires 0 <= i < 32 => !a[i]) }

  function Zero(): (c: seq<bool>)
    ensures IsWord(c)
  { seq(32, i => false) }

  /** A word is zero exactly when it has no bit. */
  lemma ZeroIff(w: seq<bool>)
    requires IsWord(w)
    ensures w == Zero() <==> forall j :: 0 <= j < 32 ==> !w[j]
  {
  }

  class Vector {
    var n: nat
    var maxI: nat
    const vals: array<seq<bool>>

    predicate At(i: nat)
      reads vals
    {
      i / 32 < vals.Length && |vals[i / 32]| == 32 && vals[i / 32][i % 32]
    }

    /** Bits from n on are never set. */
    ghost predicate Valid()
      reads this, vals
    {
      && vals.Length == SIZE && maxI == (n + 31) / 32 && maxI <= SIZE
      && (forall k {:trigger vals[k]} :: 0 <= k < SIZE ==> IsWord(vals[k]))
      && forall i: nat {:trigger At(i)} :: n <= i ==> !At(i)
    }

    /** The members of the set. */
    ghost predicate Has(i: nat)
      reads this, vals
    {
      i < n && At(i)
    }

    /** The set that the vector stands for. */
    ghost function Members(): (s: set<nat>)
      reads this, vals
      ensures forall i: nat :: i in s <==> Has(i)
    {
      set i: nat | 0 <= i < n && At(i)
    }

    /** bv_init; a vector that is too long is refused. */
    static method Init(n: nat) returns (ok: bool, v: Vector)
      ensures ok == (n <= 32 * SIZE)
      ensures ok ==> v.Valid() && v.n == n && forall i: nat :: !v.Has(i)
    {
      v := new Vector(n);
      ok := (n + 31) / 32 <= SIZE;
    }

    constructor (n: nat)
      ensures this.n == n && maxI == (n + 31) / 32 && vals.Length == SIZE && fresh(vals)
      ensures forall k :: 0 <= k < SIZE ==> vals[k] == Zero()
    {
      this.n := n;
      maxI := (n + 31) / 32;
      vals := new seq<bool>[SIZE](_ => Zero());
    }

    /** bv_set */
    method Set(i: nat, v: bool)
      requires Valid()
      modifies vals
      ensures Valid() && forall j: nat {:trigger Has(j)} :: Has(j) == if j == i && i < n then v else old(Has(j))
    {
      if i >= n {
        return;
      }
      var k, b := i / 32, i % 32;
      vals[k] := if v then Or(vals[k], Mask(b)) else And(vals[k], Not(Mask(b)));
      forall j: nat
        ensures At(j) == if j == i then v else old(At(j))
      {
      }
    }

    /** bv_get */
    method Get(i: nat) returns (r: bool)
      requires Valid()
      ensures r == Has(i)
    {
      if i >= n {
        return false;
      }
      var w := And(vals[i / 32], Mask(i % 32));
      ZeroIff(w);
      assert w[i % 32] == vals[i / 32][i % 32];
      r := w != Zero();
    }
  }

  /** bv_and_reduce: whether the two sets have a common member. */
  method AndReduce(a: Vector, b: Vector) returns (r: bool)
    requires a.Valid() && b.Valid()
    ensures r <==> exists i: nat {:trigger a.Has(i)} :: a.Has(i) && b.Has(i)
    ensures r <==> exists i: nat :: i in a.Members() && i in b.Members()
  {
    hide Zero;
    var n := if a.maxI < b.maxI then a.maxI else b.maxI;
    var k := 0;
    while k < n
      invariant 0 <= k <= n && forall i: nat {:trigger a.Has(i)} :: i < 32 * k ==> !(a.Has(i) && b.Has(i))
    {
      var w := And(a.vals[k], b.vals[k]);
      ZeroIff(w);
      if w != Zero() {
        ghost var j :| 0 <= j < 32 && w[j];
        ghost var i := 32 * k + j;
        assert i / 32 == k && i % 32 == j;
        assert a.At(i) && b.At(i);
        assert a.Has(i) && b.Has(i);
        assert i in a.Members() && i in b.Members();
        return true;
      }
      forall i: nat | 32 * k <= i < 32 * k + 32
        ensures !(a.Has(i) && b.Has(i))
      {
        assert i / 32 == k;
        assert !w[i % 32];
      }
      k := k + 1;
    }
    r := false;
  }
}
