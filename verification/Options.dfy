/** A value that may be missing: JavaScript's `null`, Python's `None`, C#'s null string. */
module Options {
  datatype Option<+T> = None | Some(value: T)
}
