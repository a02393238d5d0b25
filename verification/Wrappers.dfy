/** The optional value used where the source returns a value and a found flag. */
module Wrappers {
  datatype Option<+T> = None | Some(value: T)
}
