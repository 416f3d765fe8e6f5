/** A value that may be absent: Python's `Optional[...]` / `None`. */
module Optional {

  datatype Option<+T> = None | Some(value: T)
}
