/** Option, Result and Outcome: the model's stand-ins for Java's null,
    for a Single that delivers a value or an error, and for a Completable. */
module Wrappers {

  datatype Option<+T> = None | Some(value: T)

  datatype Result<+R, +E> = Success(value: R) | Failure(error: E)

  datatype Outcome<+E> = Pass | Fail(error: E)
}
