/** A value that may be absent: the outcome of a parse that can fail. */
module Wrappers {

  datatype Option<+T> = None | Some(value: T)
}
