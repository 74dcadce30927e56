/** Optional values and success/failure results used by the forward pass. */
module Results {

  /** A local variable that is either bound to a value or still unbound. */
  datatype Option<+T> = None | Some(value: T)

  /** The outcome of a computation that may raise an error. */
  datatype Result<+R, +E> = Success(value: R) | Failure(error: E)
}
