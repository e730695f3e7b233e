/** Error reporting shared by the synthesiser and the vector types.
    Every `throw std::runtime_error(...)` of the source becomes a `Fail`
    or `Failure` carrying the fixed part of the exception message. */
module Outcomes {

  /** Result of an operation that either completes or throws. */
  datatype Outcome = Pass | Fail(message: string)

  /** Result of an operation that either returns a value or throws. */
  datatype Result<T> = Success(value: T) | Failure(message: string)
}
