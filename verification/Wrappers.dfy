/** Values that may be missing, outcomes that may be errors, and the values of conditions. */
module Wrappers {

  datatype Option<+T> = None | Some(value: T)

  datatype Result<+T> = Ok(value: T) | Err

  /** The value of a condition: a boolean, or an error or non-boolean value. */
  datatype Verdict = True | False | Invalid
}
