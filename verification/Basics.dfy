/** Shared vocabulary. */
module Basics {
  datatype Option<+T> = None | Some(value: T)
}
