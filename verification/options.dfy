/** The optional value used throughout the model for fields the program may leave undefined. */
module Options {
  datatype Option<+T> = None | Some(value: T)
}
