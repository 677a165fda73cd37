/** A value that may be absent: JavaScript's `undefined` (or a missing field) is `None`. */
module Wrappers {

  datatype Option<+T> = None | Some(value: T)

}
