/**
  Addresses of linked structures, as the list macros and the hash table use them.
 */
module Addresses {

  type Ptr = nat
  const NULL: Ptr := 0

  /** Different addresses, none of them null. */
  ghost predicate Distinct(s: seq<Ptr>) {
    && (forall i :: 0 <= i < |s| ==> s[i] != NULL)
    && forall i, j :: 0 <= i < j < |s| ==> s[i] != s[j]
  }
}
