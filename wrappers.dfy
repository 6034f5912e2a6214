/** The optional-value and outcome wrappers used throughout the model: Java's `null` becomes `None`,
    a thrown exception becomes `Failure`. */
module Wrappers {

  datatype Option<+T> = None | Some(value: T)

  datatype Result<+R, +E> = Success(value: R) | Failure(error: E)
}
