/** A value that may be absent: a nullable reference or a failed parse on the C# side. */
module Wrappers {

  datatype Option<+T> = None | Some(value: T)
}
