/** A value that may be absent: `undefined`, `null` or a missing row. */
module Optional {
  datatype Option<+T> = None | Some(value: T)
}
