/** An optional value, as in `Option`. */
module Options {
  datatype Option<T> = None | Some(value: T)
}
