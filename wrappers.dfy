/** The C# `null` of a nullable reference, as a value. */
module Wrappers {

  datatype Option<+T> = None | Some(value: T)
}
