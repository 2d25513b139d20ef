/** An optional value: a JavaScript value that may be absent. */
module Optional {
  datatype Option<T> = None | Some(value: T)
}
