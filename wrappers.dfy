/** Failure-carrying values shared by the modules of this project: Go's
    `(value, error)` pairs become a Result, and a value that may be absent
    (an index past the end, an unparsable parameter) becomes an Option. */
module Wrappers {

  datatype Option<+T> = None | Some(value: T)

  datatype Result<+R, +E> = Success(value: R) | Failure(error: E)
}
