/** Which positions of a list a filter keeps, and in which order. */
module Selections {
  // idx lists the positions in keep, in ascending order.
  ghost predicate Lists(idx: seq<nat>, keep: set<nat>) {
    && (forall i, j | 0 <= i < j < |idx| :: idx[i] < idx[j])
    && (forall i :: i in idx <==> i in keep)
  }

  // Keeping one more position, beyond all others, appends it.
  lemma ListsSnoc(idx: seq<nat>, keep: set<nat>, n: nat)
    requires Lists(idx, keep) && forall i | i in keep :: i < n
    ensures Lists(idx + [n], keep + {n})
  {
    assert forall i | 0 <= i < |idx| :: idx[i] in idx;
  }
}
