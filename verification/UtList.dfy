/**
  The doubly linked list macros of sim/utlist.h.  A node is an address and its two link
  fields are maps from addresses, so that a store through a pointer is a map update.  In this
  layout the next link of the tail is null and the prev link of the head is the tail.  A macro
  takes the links and the head variable and returns their new values.
 */
module UtList {
  import opened Addresses

  datatype Dl = Dl(next: map<Ptr, Ptr>, prev: map<Ptr, Ptr>) {
    function Next(x: Ptr): Ptr { if x in next then next[x] else NULL }
    function Prev(x: Ptr): Ptr { if x in prev then prev[x] else NULL }
    function SetNext(x: Ptr, v: Ptr): Dl { this.(next := next[x := v]) }
    function SetPrev(x: Ptr, v: Ptr): Dl { this.(prev := prev[x := v]) }
  }

  // ----- the macros -----

  function Prepend(d: Dl, head: Ptr, add: Ptr): (Dl, Ptr) {
    var d1 := d.SetNext(add, head);
    var d2 := if head != NULL then d1.SetPrev(add, d1.Prev(head)).SetPrev(head, add) else d1.SetPrev(add, add);
    (d2, add)
  }

  function Append(d: Dl, head: Ptr, add: Ptr): (Dl, Ptr) {
    if head != NULL then
      var d1 := d.SetPrev(add, d.Prev(head));
      var d2 := d1.SetNext(d1.Prev(head), add);
      (d2.SetPrev(head, add).SetNext(add, NULL), head)
    else
      (d.SetPrev(add, add).SetNext(add, NULL), add)
  }

  function Delete(d: Dl, head: Ptr, del: Ptr): (Dl, Ptr) {
    if d.Prev(del) == del then (d, NULL)
    else if del == head then (d.SetPrev(d.Next(del), d.Prev(del)), d.Next(del))
    else
      var d1 := d.SetNext(d.Prev(del), d.Next(del));
      (if d1.Next(del) != NULL then d1.SetPrev(d1.Next(del), d1.Prev(del)) else d1.SetPrev(head, d1.Prev(del)), head)
  }

  /** The relinking in the middle of sim_hook_add: h goes before i, which is not the head. */
  function InsertBefore(d: Dl, i: Ptr, h: Ptr): Dl {
    var d1 := d.SetNext(h, i).SetPrev(h, d.Prev(i));
    d1.SetNext(d1.Prev(i), h).SetPrev(i, h)
  }

  // ----- what the links list -----

  ghost function NextAt(s: seq<Ptr>, i: int): Ptr { if 0 <= i + 1 < |s| then s[i + 1] else NULL }
  ghost function PrevAt(s: seq<Ptr>, i: int): Ptr {
    if i == 0 && |s| > 0 then s[|s| - 1] else if 0 < i <= |s| then s[i - 1] else NULL
  }

  /** From `head` the links list exactly s, each node once. */
  ghost predicate IsList(d: Dl, head: Ptr, s: seq<Ptr>) {
    && Distinct(s)
    && head == (if s == [] then NULL else s[0])
    && (forall i {:trigger s[i]} :: 0 <= i < |s| ==> d.Next(s[i]) == NextAt(s, i) && d.Prev(s[i]) == PrevAt(s, i))
  }

  ghost function Without(s: seq<Ptr>, k: nat): seq<Ptr>
    requires k < |s|
  { s[..k] + s[k + 1..] }

  ghost function With(s: seq<Ptr>, k: nat, h: Ptr): seq<Ptr>
    requires k <= |s|
  { s[..k] + [h] + s[k..] }

  /** Only the links of nodes in s and of x may differ. */
  ghost predicate Frame(d: Dl, e: Dl, s: seq<Ptr>, x: Ptr) {
    forall y {:trigger e.Next(y)} {:trigger e.Prev(y)} :: y !in s && y != x ==>
      e.Next(y) == d.Next(y) && e.Prev(y) == d.Prev(y)
  }

  lemma AppendLink(d: Dl, head: Ptr, s: seq<Ptr>, add: Ptr, j: nat)
    requires IsList(d, head, s) && add != NULL && add !in s && j < |s|
    ensures var e := Append(d, head, add).0;
            && e.Next(s[j]) == (if j + 1 == |s| then add else NextAt(s, j))
            && e.Prev(s[j]) == (if j == 0 then add else PrevAt(s, j))
            && e.Next(add) == NULL && e.Prev(add) == s[|s| - 1]
  {
    hide IsList, Distinct;
    LinksAt(d, head, s, j);
    LinksAt(d, head, s, 0);
    Same(d, head, s, j, |s| - 1);
    Same(d, head, s, j, 0);
    assert add != s[j] && add != s[0] && add != s[|s| - 1];
  }

  lemma AppendFrame(d: Dl, head: Ptr, s: seq<Ptr>, add: Ptr)
    requires IsList(d, head, s) && s != []
    ensures Frame(d, Append(d, head, add).0, s, add) && Append(d, head, add).1 == s[0]
    ensures Frame(d, Prepend(d, head, add).0, s, add) && Prepend(d, head, add).1 == add
  {
    hide IsList, Distinct;
    LinksAt(d, head, s, 0);
    Same(d, head, s, 0, 0);
  }

  lemma AppendDistinct(s: seq<Ptr>, add: Ptr)
    requires Distinct(s) && add != NULL && add !in s
    ensures Distinct(s + [add]) && Distinct([add] + s)
  {
  }

  lemma AppendAt(s: seq<Ptr>, add: Ptr, i: nat)
    requires s != [] && i <= |s|
    ensures var t := s + [add];
            && (i == |s| ==> t[i] == add && NextAt(t, i) == NULL && PrevAt(t, i) == s[|s| - 1])
            && (i < |s| ==> t[i] == s[i] && NextAt(t, i) == (if i + 1 == |s| then add else NextAt(s, i)) &&
                            PrevAt(t, i) == if i == 0 then add else PrevAt(s, i))
  {
  }

  lemma PrependAt(s: seq<Ptr>, add: Ptr, i: nat)
    requires s != [] && i <= |s|
    ensures var t := [add] + s;
            && (i == 0 ==> t[i] == add && NextAt(t, i) == s[0] && PrevAt(t, i) == s[|s| - 1])
            && (i > 0 ==> t[i] == s[i - 1] && NextAt(t, i) == NextAt(s, i - 1) &&
                          PrevAt(t, i) == if i == 1 then add else PrevAt(s, i - 1))
  {
  }

  lemma AppendLists(d: Dl, head: Ptr, s: seq<Ptr>, add: Ptr)
    requires IsList(d, head, s) && add != NULL && add !in s
    ensures var (e, h) := Append(d, head, add); IsList(e, h, s + [add]) && Frame(d, e, s, add)
  {
    var e := Append(d, head, add).0;
    var t := s + [add];
    if s != [] {
      hide Append, NextAt, PrevAt, Distinct;
      AppendFrame(d, head, s, add);
      AppendDistinct(s, add);
      forall i | 0 <= i < |t|
        ensures e.Next(t[i]) == NextAt(t, i) && e.Prev(t[i]) == PrevAt(t, i)
      {
        AppendLink(d, head, s, add, if i < |s| then i else 0);
        AppendAt(s, add, i);
      }
    }
  }

  lemma PrependLink(d: Dl, head: Ptr, s: seq<Ptr>, add: Ptr, j: nat)
    requires IsList(d, head, s) && add != NULL && add !in s && j < |s|
    ensures var e := Prepend(d, head, add).0;
            && e.Next(s[j]) == NextAt(s, j)
            && e.Prev(s[j]) == (if j == 0 then add else PrevAt(s, j))
            && e.Next(add) == s[0] && e.Prev(add) == s[|s| - 1]
  {
    hide IsList, Distinct;
    LinksAt(d, head, s, j);
    LinksAt(d, head, s, 0);
    Same(d, head, s, j, 0);
    assert add != s[j] && add != s[0];
  }

  lemma PrependLists(d: Dl, head: Ptr, s: seq<Ptr>, add: Ptr)
    requires IsList(d, head, s) && add != NULL && add !in s
    ensures var (e, h) := Prepend(d, head, add); IsList(e, h, [add] + s) && Frame(d, e, s, add)
  {
    var e := Prepend(d, head, add).0;
    var t := [add] + s;
    if s != [] {
      hide Prepend, NextAt, PrevAt, Distinct;
      AppendFrame(d, head, s, add);
      AppendDistinct(s, add);
      forall i | 0 <= i < |t|
        ensures e.Next(t[i]) == NextAt(t, i) && e.Prev(t[i]) == PrevAt(t, i)
      {
        PrependLink(d, head, s, add, if i > 0 then i - 1 else 0);
        PrependAt(s, add, i);
      }
    }
  }

  lemma WithoutDistinct(s: seq<Ptr>, k: nat)
    requires Distinct(s) && k < |s|
    ensures Distinct(Without(s, k)) && s[k] !in Without(s, k)
    ensures forall x :: x in Without(s, k) <==> x in s && x != s[k]
  {
    var t := Without(s, k);
    assert forall i :: 0 <= i < |t| ==> t[i] == s[if i < k then i else i + 1];
    forall x | x in s && x != s[k]
      ensures x in t
    {
      var j :| 0 <= j < |s| && s[j] == x;
      assert t[if j < k then j else j - 1] == x;
    }
  }

  lemma WithDistinct(s: seq<Ptr>, k: nat, h: Ptr)
    requires Distinct(s) && k <= |s| && h != NULL && h !in s
    ensures Distinct(With(s, k, h))
    ensures forall x :: x in With(s, k, h) <==> x in s || x == h
  {
    var t := With(s, k, h);
    assert forall i :: 0 <= i < |t| ==> t[i] == if i < k then s[i] else if i == k then h else s[i - 1];
    assert s == s[..k] + s[k..];
  }

  lemma Same(d: Dl, head: Ptr, s: seq<Ptr>, i: nat, j: nat)
    requires IsList(d, head, s) && i < |s| && j < |s|
    ensures s[i] != NULL && s[j] != NULL && (s[i] == s[j] <==> i == j)
  {
  }

  lemma LinksAt(d: Dl, head: Ptr, s: seq<Ptr>, i: nat)
    requires IsList(d, head, s) && i < |s|
    ensures head == s[0] && d.Next(s[i]) == NextAt(s, i) && d.Prev(s[i]) == PrevAt(s, i)
  {
  }

  /** The links of the other nodes after DL_DELETE of s[k]. */
  lemma DeleteLink(d: Dl, head: Ptr, s: seq<Ptr>, k: nat, j: nat)
    requires IsList(d, head, s) && k < |s| && j < |s| && j != k
    ensures var e := Delete(d, head, s[k]).0;
            && e.Next(s[j]) == (if j + 1 == k then NextAt(s, k) else NextAt(s, j))
            && e.Prev(s[j]) == if j == k + 1 || (k + 1 == |s| && j == 0) then PrevAt(s, k) else PrevAt(s, j)
  {
    hide IsList, Distinct;
    LinksAt(d, head, s, k);
    LinksAt(d, head, s, j);
    Same(d, head, s, j, k);
    Same(d, head, s, k, 0);
    Same(d, head, s, j, 0);
    Same(d, head, s, k, |s| - 1);
    if k > 0 { Same(d, head, s, j, k - 1); Same(d, head, s, k, k - 1); }
    if k + 1 < |s| { Same(d, head, s, j, k + 1); Same(d, head, s, k, k + 1); }
  }

  lemma DeleteSelf(d: Dl, head: Ptr, s: seq<Ptr>, k: nat)
    requires IsList(d, head, s) && k < |s|
    ensures var (e, h) := Delete(d, head, s[k]);
            && Frame(d, e, s, NULL) && e.Next(s[k]) == d.Next(s[k]) && e.Prev(s[k]) == d.Prev(s[k])
            && h == if Without(s, k) == [] then NULL else Without(s, k)[0]
  {
    hide IsList, Distinct;
    LinksAt(d, head, s, k);
    Same(d, head, s, k, 0);
    Same(d, head, s, k, |s| - 1);
    if k > 0 { Same(d, head, s, k, k - 1); }
    if k + 1 < |s| { Same(d, head, s, k, k + 1); }
  }

  lemma WithoutAt(s: seq<Ptr>, k: nat, i: nat)
    requires k < |s| && i + 1 < |s|
    ensures var t, j := Without(s, k), if i < k then i else i + 1;
            && j != k && t[i] == s[j]
            && NextAt(t, i) == (if j + 1 == k then NextAt(s, k) else NextAt(s, j))
            && PrevAt(t, i) == if j == k + 1 || (k + 1 == |s| && j == 0) then PrevAt(s, k) else PrevAt(s, j)
  {
  }

  /** DL_DELETE removes exactly one node; the removed node keeps its own links. */
  lemma DeleteLists(d: Dl, head: Ptr, s: seq<Ptr>, k: nat)
    requires IsList(d, head, s) && k < |s|
    ensures var (e, h) := Delete(d, head, s[k]);
            && IsList(e, h, Without(s, k)) && Frame(d, e, s, NULL)
            && e.Next(s[k]) == d.Next(s[k]) && e.Prev(s[k]) == d.Prev(s[k])
  {
    hide Delete, Distinct, NextAt, PrevAt;
    var t := Without(s, k);
    WithoutDistinct(s, k);
    DeleteSelf(d, head, s, k);
    var e := Delete(d, head, s[k]).0;
    forall i | 0 <= i < |t|
      ensures e.Next(t[i]) == NextAt(t, i) && e.Prev(t[i]) == PrevAt(t, i)
    {
      WithoutAt(s, k, i);
      DeleteLink(d, head, s, k, if i < k then i else i + 1);
    }
  }

  lemma InsertLink(d: Dl, head: Ptr, s: seq<Ptr>, k: nat, h: Ptr, j: nat)
    requires IsList(d, head, s) && 0 < k < |s| && h != NULL && h !in s && j < |s|
    ensures var e := InsertBefore(d, s[k], h);
            && e.Next(s[j]) == (if j + 1 == k then h else NextAt(s, j))
            && e.Prev(s[j]) == (if j == k then h else PrevAt(s, j))
            && e.Next(h) == s[k] && e.Prev(h) == s[k - 1]
  {
    hide IsList, Distinct;
    LinksAt(d, head, s, k);
    LinksAt(d, head, s, j);
    Same(d, head, s, j, k);
    Same(d, head, s, j, k - 1);
    Same(d, head, s, k, k - 1);
    assert h != s[j] && h != s[k] && h != s[k - 1];
  }

  lemma InsertFrame(d: Dl, head: Ptr, s: seq<Ptr>, k: nat, h: Ptr)
    requires IsList(d, head, s) && 0 < k < |s| && h != NULL && h !in s
    ensures Frame(d, InsertBefore(d, s[k], h), s, h)
  {
    hide IsList, Distinct;
    LinksAt(d, head, s, k);
    assert h != s[k];
  }

  lemma WithAt(s: seq<Ptr>, k: nat, h: Ptr, i: nat)
    requires 0 < k < |s| && i <= |s|
    ensures var t, j := With(s, k, h), if i < k then i else i - 1;
            && (i == k ==> t[i] == h && NextAt(t, i) == s[k] && PrevAt(t, i) == s[k - 1])
            && (i != k ==>
                  && 0 <= j < |s| && t[i] == s[j]
                  && NextAt(t, i) == (if j + 1 == k then h else NextAt(s, j))
                  && PrevAt(t, i) == if j == k then h else PrevAt(s, j))
  {
  }

  lemma InsertLists(d: Dl, head: Ptr, s: seq<Ptr>, k: nat, h: Ptr)
    requires IsList(d, head, s) && 0 < k < |s| && h != NULL && h !in s
    ensures var e := InsertBefore(d, s[k], h); IsList(e, head, With(s, k, h)) && Frame(d, e, s, h)
  {
    hide InsertBefore, Distinct, NextAt, PrevAt;
    var e := InsertBefore(d, s[k], h);
    var t := With(s, k, h);
    WithDistinct(s, k, h);
    InsertFrame(d, head, s, k, h);
    forall i | 0 <= i < |t|
      ensures e.Next(t[i]) == NextAt(t, i) && e.Prev(t[i]) == PrevAt(t, i)
    {
      WithAt(s, k, h, i);
      InsertLink(d, head, s, k, h, if i < k then i else i - 1);
    }
  }

  /** Links of nodes outside a list do not matter to it. */
  lemma FrameKeeps(d: Dl, e: Dl, s: seq<Ptr>, x: Ptr, head: Ptr, t: seq<Ptr>)
    requires Frame(d, e, s, x) && IsList(d, head, t)
    requires forall y :: y in t ==> y !in s && y != x
    ensures IsList(e, head, t)
  {
    forall i | 0 <= i < |t|
      ensures e.Next(t[i]) == NextAt(t, i) && e.Prev(t[i]) == PrevAt(t, i)
    {
      assert t[i] in t;
    }
  }
}
