/** A value that may be absent: JavaScript's null and undefined, and thrown errors without a payload. */
module Options {
  datatype Option<+T> = None | Some(value: T)
}
