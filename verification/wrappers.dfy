/** The optional value used wherever the Java code returns a nullable reference. */
module Wrappers {

  datatype Option<+T> = None | Some(value: T)
}
