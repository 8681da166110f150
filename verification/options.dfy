/** The optional value used where the Go code holds a possibly-nil pointer. */
module Options {

  datatype Option<+T> = None | Some(value: T)
}
