/** The optional value used for nullable fields and props of the model. */
module Wrappers {

  datatype Option<+T> = None | Some(value: T)
}
