/**
 * The gRPC status codes the services return, and the two result shapes the
 * Go code uses: `(value, error)` pairs and bare `error` returns.
 */
module Grpc {
  /** The `codes.Code` values that occur in the modelled services. */
  datatype Code = InvalidArgument | NotFound | Internal

  /** A `status.Error(code, message)`. */
  datatype Status = Status(code: Code, message: string)

  /** A `(*T, error)` return: either a value or a status error. */
  datatype Result<+T> = Ok(value: T) | Err(status: Status)

  /** A bare `error` return: `nil` (Pass) or a status error. */
  datatype Outcome = Pass | Fail(status: Status)

  /** What a client call gives back, and whether it reached the remote server. */
  datatype Reply<+T> = Reply(result: Result<T>, contacted: bool)
}
