/** A value that may be absent: a DOM attribute that is not set, a gesture
    that triggers nothing. */
module Wrappers {
  datatype Option<T> = None | Some(value: T)
}
