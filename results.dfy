/** Option and Result, the two failure-carrying wrappers the model uses for the
    places where the analyser raises an exception or keeps an empty field. */
module Results {

  datatype Option<+T> = None | Some(value: T)

  datatype Result<+T, +E> = Success(value: T) | Failure(error: E)
}
