/** The optional value that the source spells `Option<T>`. */
module Options {
  datatype Option<+T> = None | Some(value: T)
}
