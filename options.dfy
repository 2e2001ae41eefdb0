/** The optional value that stands for JavaScript's `null` in the view state. */
module Options {
  datatype Option<+T> = None | Some(value: T)
}
