/** Option and Result, the failure-carrying values used throughout the model.
    A Kotlin `require(...)` or a thrown exception becomes a `Failure`. */
module Wrappers {

  datatype Option<+T> = None | Some(value: T)

  datatype Result<+T> = Success(value: T) | Failure(error: string)
}
