/** The optional value returned by the parsers and the loader of the model. */
module Wrappers {

  datatype Option<+T> = None | Some(value: T)

}
