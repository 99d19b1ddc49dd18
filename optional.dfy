/** A value that may be absent: Go's `nil` pointer, a failed type assertion or an error return. */
module Optional {
  datatype Option<+T> = None | Some(value: T)
}
