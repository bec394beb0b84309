/** The optional value used wherever the source uses a nullable reference or a
    sentinel such as -1. */
module Wrappers {

  datatype Option<+T> = None | Some(value: T)
}
