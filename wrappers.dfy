/** The optional value the model uses where the script would see `undefined`. */
module Wrappers {
  datatype Option<+T> = None | Some(value: T)
}
