/** Small value types shared by the order modules. */
module Fields {

  /** A field of the request body that may have been left out: `None` when it was not sent. */
  datatype Option<T> = None | Some(value: T)

  /** What a step of request handling produces: the value it computed, or the error that ends the request. */
  datatype Result<R, E> = Success(value: R) | Failure(error: E)
}
