/** The optional value used for lookups that can fail and for errors the source raises. */
module Wrappers {

  datatype Option<+T> = None | Some(value: T)
}
