/** Failure-free optional values, used wherever the source has a missing map entry, a nil pointer or a
    row that no statement matched. */
module Wrappers {
  datatype Option<+T> = None | Some(value: T)
}
