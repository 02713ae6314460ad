/** Small shared datatypes. */
module Common {

  /** A value that may be absent; `None` also stands for a Promise that has not settled. */
  datatype Option<+T> = None | Some(value: T)
}
