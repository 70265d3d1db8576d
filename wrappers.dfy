/** An optional value, for the places where the program's own values are optional. */
module Wrappers {
  datatype Option<+T> = None | Some(value: T)
}
