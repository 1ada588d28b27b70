/** Option and Result values standing for Java's nullable references and
    for the external grammar's "parsed or error message" answers. */
module Wrappers {

  datatype Option<+T> = None | Some(value: T)

  datatype Result<+T, +E> = Ok(value: T) | Err(error: E)

  /** The elements of a sequence of optional values that are present, in order
      (the "skip nulls" filter used by the block and top-level loops). */
  function Present<T>(xs: seq<Option<T>>): (r: seq<T>)
    ensures |r| <= |xs|
    ensures forall x :: x in r ==> Some(x) in xs
  {
    if xs == [] then []
    else (match xs[0] case Some(v) => [v] case None => []) + Present(xs[1..])
  }
}
