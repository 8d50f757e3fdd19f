/** Option and Result values standing in for JavaScript's `undefined` and thrown errors. */
module Results {

  datatype Option<+T> = None | Some(value: T)

  datatype Result<+T, +E> = Success(value: T) | Failure(error: E)

  /** The completion of an operation that returns nothing or throws. */
  datatype Outcome<+E> = Pass | Fail(error: E)
}

/** Octets, as carried by a Node.js `Buffer`. */
module Bytes {

  type byte = x: int | 0 <= x < 256
}
