/** Failure-compatible result types shared by every module. */
module Wrappers {

  datatype Option<+T> = None | Some(value: T)

  datatype Result<+T, +E> = Ok(value: T) | Err(error: E) {
    predicate IsFailure() {
      Err?
    }

    function PropagateFailure<U>(): Result<U, E>
      requires Err?
    {
      Err(error)
    }

    function Extract(): T
      requires Ok?
    {
      value
    }
  }

  /** JavaScript's `slice(i, j)` for bounds that are not negative: it ends at the
      end, and is empty when there is nothing from i to j. */
  function Slice<T>(s: seq<T>, i: nat, j: nat): seq<T> {
    var to := if j < |s| then j else |s|;
    if i < to then s[i..to] else []
  }
}
