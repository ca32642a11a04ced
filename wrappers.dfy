/** The optional value used for "no qualifying record yet". */
module Wrappers {

  datatype Option<+T> = None | Some(value: T)
}
