/** Small shared datatypes. */
module Wrappers {

  /** A value that may be absent: a missing option, an unknown registry entry, a `null` result. */
  datatype Option<+T> = None | Some(value: T)
}
