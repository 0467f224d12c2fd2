// The one failure-carrying type of the project. Go's error result is an Option of
// its message: None is nil.
module Wrappers {
  datatype Option<+T> = None | Some(value: T)

  type Error = Option<string>
}
