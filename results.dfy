/** Failure-carrying values: an exception raised by the Python code becomes
    `None` or `Failure` here. */
module Results {

  datatype Option<+T> = None | Some(value: T)

  datatype Result<+T, +E> = Success(value: T) | Failure(error: E)
}
