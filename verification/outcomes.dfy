/** Failure-carrying results shared by the atlas and the GP engine.
    The C++ code signals errors by throwing; here a throw becomes an `Err`. */
module Outcomes {

  /** A possibly-null shared pointer, or an optional value. */
  datatype Option<+T> = None | Some(value: T)

  /** The two exception families the core throws,
      `gp_regression::GPRegressionException` and `std::invalid_argument`,
      and two Eigen failures: a block access past the end of a matrix, and
      an operation whose sizes do not agree (a product of mismatched
      operands, or a resize a fixed dimension forbids). Each Eigen failure
      is an assertion failure in a debug build and undefined behaviour
      otherwise: it is a failure of the call, never a success. */
  datatype Error =
    | RegressionError(message: string)
    | InvalidArgument(message: string)
    | OutOfBounds(message: string)
    | ShapeMismatch(message: string)

  datatype Result<+T> = Ok(value: T) | Err(error: Error)
}
