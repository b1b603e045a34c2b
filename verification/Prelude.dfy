/** Vocabulary shared by the whole project. */
module Prelude {

  /** A value that may be absent: a JavaScript `null` or `undefined`. */
  datatype Option<+T> = None | Some(value: T)
}
