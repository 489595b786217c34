/** A value that may be absent: the result of a call that raised, or a Python
    `None`. */
module Optional {

  datatype Option<+T> = None | Some(value: T)
}
