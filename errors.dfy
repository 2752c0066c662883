/**
 * The exceptions the C++ library raises, and a result type that carries
 * either a value or one of them.
 */
module Errors {
  /** `tomload::parse_error`, `tomload::type_error` and `std::out_of_range`, with their message. */
  datatype Error =
    | ParseError(msg: string)
    | TypeError(msg: string)
    | OutOfRange(msg: string)

  datatype Result<T> = Ok(value: T) | Err(error: Error)
  {
    predicate IsFailure() { Err? }
    function PropagateFailure<U>(): Result<U> requires Err? { Err(error) }
    function Extract(): T requires Ok? { value }
  }
}
