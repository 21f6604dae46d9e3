/** A value that may be absent: JavaScript's `null` for the state cells that start unset. */
module Wrappers {

  datatype Option<+T> = None | Some(value: T)
}
