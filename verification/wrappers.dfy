/** The optional value shared by the models. */
module Wrappers {

  /** A value that may be absent: JavaScript's `undefined` from `find`, or a `null` selection. */
  datatype Option<+T> = None | Some(value: T)
}
