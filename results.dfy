/** Option and Result, the shapes in which the codec reports an absent value or an error. */
module Results {

  datatype Option<+T> = None | Some(value: T)

  /** Either a value or the first error that stopped the computation. */
  datatype Result<+R, +E> = Success(value: R) | Failure(error: E)
}
