/** The optional value used wherever the Python code returns or stores `None`. */
module Opt {
  datatype Option<+T> = None | Some(value: T)
}
