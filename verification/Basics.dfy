/** Shared datatypes: failure-compatible results, and responses as the state machines see them. */
module Basics {

  datatype Option<+T> = None | Some(value: T)

  /** A parse either yields a value or is rejected; the text of the Go error is not modelled. */
  datatype Result<+T> = Ok(value: T) | Err

  /** A response: its status code, and everything else about it folded into `content`. */
  datatype Response = Response(status: int, content: nat)

  predicate IsProvisional(code: int) { 100 <= code < 200 }

  predicate IsSuccess(code: int) { 200 <= code < 300 }

  predicate IsFinalCode(code: int) { 200 <= code <= 699 }
}
