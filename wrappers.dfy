/** Option and Result values used for the engine's absent values and its String errors. */
module Wrappers {

  datatype Option<+T> = None | Some(value: T) {

    predicate IsFailure() {
      None?
    }

    function PropagateFailure<U>(): Option<U>
      requires None?
    {
      None
    }

    function Extract(): T
      requires Some?
    {
      value
    }
  }

  /** A Rust `Result<T, String>`: the engine reports every recoverable error as a plain string. */
  datatype Result<+T> = Ok(value: T) | Err(msg: string)
}
