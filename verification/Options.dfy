/** The optional values of the other modules. */
module Options {
  datatype Option<T> = None | Some(value: T)
}
