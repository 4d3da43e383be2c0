/** An optional value: the model's stand-in for a pointer that may be null
    when it points at immutable data. */
module Wrappers {
  datatype Option<+T> = None | Some(value: T)
}
