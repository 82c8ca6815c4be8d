/** The optional value used where the program returns `null` or `undefined`. */
module Options {
  datatype Option<+T> = None | Some(value: T)
}
