/** Small shared vocabulary: options, task identities and facts about finite sets. */
module Prelude {

  datatype Option<+T> = None | Some(value: T)

  /** A task of the firmware (FreeRTOS task handle). The number of tasks is unbounded. */
  type TaskId = nat

  /** Counters the source caps at UINT32_MAX before it increments them. */
  const UINT32_MAX: nat := 0xFFFF_FFFF

  /** A finite set of indices that misses one index below n is smaller than n. */
  lemma {:induction false} Pigeonhole(s: set<int>, n: nat, missing: int)
    requires forall i :: i in s ==> 0 <= i < n
    requires 0 <= missing < n && missing !in s
    ensures |s| < n
  {
    if n == 1 {
      assert forall i :: i !in s;
      assert s == {};
    } else if n - 1 == missing {
      Bounded(s, n - 1);
    } else {
      assert |s - {n - 1}| < n - 1 by { Pigeonhole(s - {n - 1}, n - 1, missing); }
    }
  }

  lemma {:induction false} Bounded(s: set<int>, n: nat)
    requires forall i :: i in s ==> 0 <= i < n
    ensures |s| <= n
  {
    if n == 0 {
      assert forall i :: i !in s;
      assert s == {};
    } else {
      Bounded(s - {n - 1}, n - 1);
    }
  }
}
