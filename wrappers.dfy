/** The optional value used for Java's nullable references throughout the model. */
module Wrappers {

  datatype Option<+T> = None | Some(value: T)

}
