// Result shapes and collection facts shared by the other modules.
module Wrappers {

  datatype Option<+T> = None | Some(value: T)

  datatype Result<+T, +E> = Ok(value: T) | Err(error: E)

  /** Every entry of m is in n, unchanged. */
  predicate Extends<K(==), V(==)>(m: map<K, V>, n: map<K, V>) {
    forall k :: k in m ==> k in n && n[k] == m[k]
  }

  lemma SomeMember(s: set<int>)
    ensures s != {} ==> exists x :: x in s
  {
    if forall x :: x !in s {
      assert s == {};
    }
  }

  /** The items that are picked, in the order of all. */
  function Picked<T>(all: seq<T>, pick: T -> bool): seq<T> {
    if all == [] then []
    else Picked(all[..|all| - 1], pick) + if pick(all[|all| - 1]) then [all[|all| - 1]] else []
  }

  lemma {:induction false} PickedAre<T>(all: seq<T>, pick: T -> bool, x: T)
    ensures x in Picked(all, pick) <==> x in all && pick(x)
  {
    if all != [] {
      var last := |all| - 1;
      assert all == all[..last] + [all[last]];
      PickedAre(all[..last], pick, x);
    }
  }

  lemma {:induction false} PickedAlike<T>(all: seq<T>, p: T -> bool, q: T -> bool)
    requires forall x :: x in all ==> (p(x) <==> q(x))
    ensures Picked(all, p) == Picked(all, q)
  {
    if all != [] {
      PickedAlike(all[..|all| - 1], p, q);
    }
  }
}
