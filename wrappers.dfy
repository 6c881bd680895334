/** The optional-value wrapper shared by the player and the buffer store. */
module Wrappers {

  /** A JavaScript value that may be null or undefined. */
  datatype Option<+T> = None | Some(value: T)
}
