/** Success/failure values, standing in for the exceptions the job throws. */
module Results {

  /** Either the value an operation produced or the error it raised. */
  datatype Result<+T, +E> = Success(value: T) | Failure(error: E)
}
