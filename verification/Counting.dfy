/** Counting up, and walking a finite set in some order. */
module Counting {
  /** The sequence 0, 1, ..., n - 1: the channels that loops numbered in order close in order. */
  function Count(n: nat): seq<nat> {
    seq(n, i => i)
  }

  lemma CountMembers(n: nat)
    ensures forall x: nat :: x in Count(n) <==> x < n
    ensures forall i, j :: 0 <= i < j < n ==> Count(n)[i] != Count(n)[j]
  {
    forall x: nat | x < n ensures x in Count(n) {
      assert Count(n)[x] == x;
    }
  }

  /** A walk over `keys`: every one of them, once. */
  predicate Enumerates(order: seq<string>, keys: set<string>) {
    && (forall k :: k in order ==> k in keys)
    && (forall k :: k in keys ==> k in order)
    && (forall i, j :: 0 <= i < j < |order| ==> order[i] != order[j])
  }

  lemma {:induction false} EnumerateSet(keys: set<string>) returns (order: seq<string>)
    ensures Enumerates(order, keys)
    decreases keys
  {
    if keys == {} {
      order := [];
    } else {
      var k :| k in keys;
      var front := EnumerateSet(keys - {k});
      order := front + [k];
    }
  }
}
