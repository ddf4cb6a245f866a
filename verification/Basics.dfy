// What several components have in common.
module Basics {
  // Threads, by number
  type Tid = nat

  datatype Option<T> = None | Some(value: T)

  // What holds at first and is kept by each step holds at every place.
  lemma {:induction false} Throughout(holds: seq<bool>, n: nat)
    requires n < |holds| && holds[0] && forall i | 0 <= i < |holds| - 1 :: holds[i] ==> holds[i + 1]
    ensures holds[n]
  {
    if n > 0 {
      Throughout(holds, n - 1);
      assert holds[n - 1] ==> holds[n - 1 + 1];
    }
  }
}
