/** Optional values, shared by the back-end and the front-end models.
    `None` stands for C#'s `null` / a thrown lookup, and for JavaScript's `undefined`. */
module Wrappers {

  datatype Option<+T> = None | Some(value: T)

  /** The unit value carried by handlers that return a bare `Result` in C#. */
  datatype Unit = Unit
}
