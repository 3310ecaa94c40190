/** An optional value: a JavaScript `undefined` or `null` is `None`. */
module Options {
  datatype Option<T> = None | Some(value: T)
}
