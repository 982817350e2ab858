/** The optional value used wherever the source returns None or raises a handled error. */
module Wrappers {

  datatype Option<+T> = None | Some(value: T)
}
