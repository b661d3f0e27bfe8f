/** The optional value used for the pointer position and for `Array.prototype.find`. */
module Wrappers {
  datatype Option<+T> = None | Some(value: T)
}
