// The optional value used for nullable columns, nil pointers and error-or-value results.
module Options {
  datatype Option<+T> = None | Some(value: T)
}
