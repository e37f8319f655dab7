/** Option and Result, the two failure-carrying shapes the rest of the model uses:
    `None` stands for JavaScript's `null`/`undefined`/`NaN` where a value may be absent,
    `Failure` for a thrown `Error`. */
module Wrappers {

  datatype Option<+T> = None | Some(value: T)

  datatype Result<+R, +E> = Success(value: R) | Failure(error: E)
}
