/** The optional value used for the source's `undefined`. */
module Options {

  datatype Option<+T> = None | Some(value: T)
}
