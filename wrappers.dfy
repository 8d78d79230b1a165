/** An optional value: a field that a JavaScript record may leave `undefined` or `null`. */
module Wrappers {

  datatype Option<+T> = None | Some(value: T)

}
