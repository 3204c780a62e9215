/** Small shared vocabulary. */
module Basics {

  /** A value that may be absent: a missing JSON field, an unset variable. */
  datatype Option<+T> = None | Some(value: T)
}
