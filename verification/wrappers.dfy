/** The optional value used where the component works with `null` or `undefined`. */
module Wrappers {

  datatype Option<+T> = None | Some(value: T)
}
