/// Failure-carrying result types shared by the model: the Swift source
/// reports failures by throwing; here a throwing call returns one of these.
module Outcomes {

  datatype Option<+T> = None | Some(value: T)

  /// Result of a throwing call that produces a value.
  datatype Result<+R, +E> = Success(value: R) | Failure(error: E)

  /// Result of a throwing call that produces no value.
  datatype Outcome<+E> = Pass | Fail(error: E)
}
