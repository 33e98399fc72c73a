/** The absent-or-present value used wherever the model needs "maybe". */
module Optional {
  datatype Option<+T> = None | Some(value: T)
}
