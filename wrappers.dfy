/** Failure-carrying datatypes shared by every module of the model. */
module Wrappers {

  datatype Option<+T> = None | Some(value: T) {
    function GetOr(default: T): T {
      match this
      case Some(v) => v
      case None => default
    }
  }

  datatype Result<+T, +E> = Ok(value: T) | Err(error: E)

  /** The result of a call that either returns normally or aborts the
      process (a Rust `panic!`, `unwrap`/`expect` on a failure, or
      `unimplemented!`). */
  datatype Outcome<+T> = Value(value: T) | Panic(reason: string)
}
