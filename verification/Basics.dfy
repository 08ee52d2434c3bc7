/**
  What several modules share.
 */
module Basics {
  datatype Option<T> = None | Some(value: T)

  /** Appending is associative; the solver is told where it matters. */
  lemma Regroup<T>(x: seq<T>, y: seq<T>, z: seq<T>)
    ensures (x + y) + z == x + (y + z)
  {
  }
}
