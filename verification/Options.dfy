/** The absent-or-present value the other modules use for `null` and `undefined`. */
module Options {
  datatype Option<+T> = None | Some(value: T)
}
