/** The optional value used for caller information and parse results. */
module Wrappers {

  datatype Option<+T> = None | Some(value: T)
}
