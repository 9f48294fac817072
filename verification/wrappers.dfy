/** The optional value used where the source writes `null` or `undefined`. */
module Wrappers {

  datatype Option<+T> = None | Some(value: T)

}
