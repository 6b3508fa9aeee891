/** A Java reference that may be null, seen as a value: None stands for null. */
module Wrappers {

  datatype Option<+T> = None | Some(value: T)
}
