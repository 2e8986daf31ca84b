/** The optional value used wherever the game reads `null` or `undefined`. */
module Wrappers {

  datatype Option<+T> = None | Some(value: T)

}
