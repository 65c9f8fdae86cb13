/** What the other modules share. */
module Outcomes {

  /** An optional value: a Go pointer, map entry or zero time that may be absent. */
  datatype Option<+T> = None | Some(value: T)

  /** A Go `(value, error)` pair: exactly one of the two is meaningful. */
  datatype Result<+T> = Ok(value: T) | Err(msg: string)

  /** What has happened so far, newest event outermost. */
  datatype Trace<+E> = Start | Then(before: Trace<E>, last: E)

  /** Go's `time.Duration` counts nanoseconds. */
  const SECOND := 1_000_000_000

  lemma {:induction false} SubsetSize<T>(a: set<T>, b: set<T>)
    requires a <= b
    ensures |a| <= |b| && (|a| == |b| ==> a == b)
  {
    if a == {} {
    } else {
      var x :| x in a;
      SubsetSize(a - {x}, b - {x});
    }
  }
}
