module Options {

  /** A nullable value of the original program. */
  datatype Option<+T> = None | Some(value: T)
}
