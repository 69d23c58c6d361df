/** Value wrappers: Option stands for Ruby's nil-or-value, Result for
    a computation that either yields a value or ends the script with an error. */
module Wrappers {

  datatype Option<+T> = None | Some(value: T)

  datatype Result<+R, +E> = Success(value: R) | Failure(error: E)

  /** Ruby's `Array#last`: the final element, or nil for an empty array. */
  function Last<T>(xs: seq<T>): (r: Option<T>)
    ensures r.None? <==> xs == []
    ensures r.Some? ==> r.value == xs[|xs| - 1]
  {
    if xs == [] then None else Some(xs[|xs| - 1])
  }
}
