/** The optional value used wherever the Python code passes `None`. */
module Options {
  datatype Option<+T> = None | Some(value: T)
}
