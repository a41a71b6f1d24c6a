/** The stock optional value, used wherever the program has `None`. */
module Options {
  datatype Option<+T> = None | Some(value: T)
}
