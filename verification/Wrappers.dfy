/** Shared value types: options, and the identifiers the modules agree on. */
module Wrappers {

  datatype Option<+T> = None | Some(value: T)

  /** Task ids are compared only for equality and order; a number stands for the id's rank in string order. */
  type TaskId = nat

  /** A clock reading or a point in time, in whole ticks. */
  type Instant = int

  /** A subset is no larger than the set it lies in. */
  lemma SubsetSize<T>(small: set<T>, big: set<T>)
    requires small <= big
    ensures |small| <= |big|
  {
    assert big == small + (big - small);
  }
}
