// A value that may be absent: Go's nil pointer, missing map key or second `ok` result.
module Options {
  datatype Option<T> = None | Some(value: T)
}
