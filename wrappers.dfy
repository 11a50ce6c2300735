/** The optional-value type used wherever the C code returns NULL or a status code. */
module Wrappers {

  datatype Option<+T> = None | Some(value: T)
}
