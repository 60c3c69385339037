/** Failure-carrying results used across the model: an optional value and a
    value-or-error, standing for JavaScript's `undefined`/`null` and for a
    thrown `Error` whose message the caller sees. */
module Wrappers {

  datatype Option<+T> = None | Some(value: T)

  datatype Result<+T> = Ok(value: T) | Err(message: string)
}
