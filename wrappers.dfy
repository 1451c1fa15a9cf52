/** Option and Result, used for Java's nullable references and thrown exceptions. */
module Wrappers {

  datatype Option<T> = None | Some(value: T) {
    /** The value if present, `default` otherwise. */
    function GetOr(default: T): T {
      if Some? then value else default
    }
  }

  datatype Result<T, E> = Ok(value: T) | Err(error: E)
}
