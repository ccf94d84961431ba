/** The optional value that the model uses for "parses to a number or not". */
module Wrappers {

  datatype Option<+T> = None | Some(value: T)
}
