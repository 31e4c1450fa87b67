/** The optional value the Go code expresses with a nil pointer or a second return value. */
module Wrappers {

  datatype Option<+T> = None | Some(value: T)
}
