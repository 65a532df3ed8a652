/** The optional value used wherever JavaScript has `null`, `undefined` or
    "not found". */
module Options {
  datatype Option<+T> = None | Some(value: T)
}
