/** The "value or nothing" type used wherever the source works with `null` or `undefined`. */
module Optional {
  datatype Option<+T> = None | Some(value: T)
}
