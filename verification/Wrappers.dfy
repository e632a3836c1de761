// The optional value and the fallible result the other modules share.
module Wrappers {
  datatype Option<+T> = None | Some(value: T) {
    function OrElse(other: T): T {
      if Some? then value else other
    }
  }

  datatype Result<+T, +E> = Ok(value: T) | Err(error: E)
}
