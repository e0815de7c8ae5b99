/** Small types and functions the other modules share. */
module Wrappers {

  datatype Option<+T> = None | Some(value: T)

  /** An error if the condition holds. */
  function If<E>(b: bool, e: E): seq<E> {
    if b then [e] else []
  }
}
