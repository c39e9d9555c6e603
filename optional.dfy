/** JavaScript's `undefined`/`null` for optional values (an author name, a reply target, a stored time). */
module Optional {
  datatype Option<+T> = None | Some(value: T)
}
