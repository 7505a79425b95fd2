/** Failure-carrying values shared by the other modules. */
module Wrappers {

  datatype Option<+T> = None | Some(value: T)

  /** A value, or the panic (with its message) that aborts the computation. */
  datatype Result<+T> = Ok(value: T) | Panic(msg: string)
}
