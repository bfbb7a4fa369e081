/** Options, used where the source has a value that may be None or an absent dictionary key. */
module Wrappers {

  datatype Option<+T> = None | Some(value: T) {

    function GetOr(default: T): T {
      match this
      case Some(v) => v
      case None => default
    }
  }

  /** `at` are the positions below n that are chosen, each once, in increasing order. */
  ghost predicate Picks(at: seq<nat>, n: nat, chosen: nat -> bool) {
    && (forall a, b :: 0 <= a < b < |at| ==> at[a] < at[b])
    && (forall i: nat :: i in at <==> i < n && chosen(i))
  }

  lemma PicksNext(at: seq<nat>, n: nat, chosen: nat -> bool)
    requires Picks(at, n, chosen)
    ensures Picks(if chosen(n) then at + [n] else at, n + 1, chosen)
  {
    assert forall a :: 0 <= a < |at| ==> at[a] in at;
  }
}
