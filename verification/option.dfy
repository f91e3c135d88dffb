/** An optional value: Go's "value or nil" and the comma-ok idiom. */
module Optional {

  datatype Option<+T> = None | Some(value: T)
}
