/** The optional value the models use where the server has `None`. */
module Wrappers {
  datatype Option<+T> = None | Some(value: T)
}
