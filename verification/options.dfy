/** The "value or nothing" wrapper used for the source's `null` results. */
module Options {
  datatype Option<+T> = None | Some(value: T)
}
