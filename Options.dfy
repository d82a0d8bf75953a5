/** An optional value: a TypeScript property declared with `?`, or the result of `find`. */
module Options {
  datatype Option<+T> = None | Some(value: T)
}
