/** Shared vocabulary: optional values, results, and how calls to a server end. */
module Basics {

  datatype Option<+T> = None | Some(value: T)

  datatype Result<+T> = Ok(value: T) | Err

  // as asked, in an error without effect, or in an error after the effect
  datatype Call = Works | Fails | FailsLate
}
