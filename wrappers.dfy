/** The optional result returned by the accessors of the box. */
module Wrappers {
  datatype Option<+T> = None | Some(value: T)
}
