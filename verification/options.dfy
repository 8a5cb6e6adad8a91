/** An optional value: JavaScript's `undefined` for a missing field, or the
    result of `Array.prototype.find` when nothing matches. */
module Options {
  datatype Option<+T> = None | Some(value: T)
}
