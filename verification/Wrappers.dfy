/** Option and Result values shared by every module. */
module Wrappers {

  datatype Option<+T> = None | Some(value: T)

  /** The HTTP exceptions the services throw. */
  datatype Error = NotFound | BadRequest | Forbidden | Conflict

  datatype Result<+T> = Ok(value: T) | Err(error: Error)

  /** What a state-changing request answers to its caller. */
  datatype Outcome = Done | Failed(error: Error)
}
