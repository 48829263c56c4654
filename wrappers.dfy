/** The optional value used for `T | null` and for the result of `Array.prototype.find`. */
module Wrappers {

  datatype Option<+T> = None | Some(value: T)
}
