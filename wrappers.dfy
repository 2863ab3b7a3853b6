/** The optional value used where the server leaves a field `undefined`. */
module Wrappers {

  datatype Option<+T> = None | Some(value: T)
}
