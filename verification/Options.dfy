/** The optional value the models use where the source has `undefined`. */
module Options {
  datatype Option<+T> = None | Some(value: T)
}
