/** An optional value and a value-or-error result, shared by the model; a
    `Failure` stands for a thrown exception. */
module Wrappers {

  datatype Option<+T> = None | Some(value: T)

  datatype Result<+T, +E> = Success(value: T) | Failure(error: E)
}
