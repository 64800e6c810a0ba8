/** The Option datatype used for values JavaScript represents as `undefined`. */
module Wrappers {

  datatype Option<+T> = None | Some(value: T)
}
