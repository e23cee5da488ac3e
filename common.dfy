/** Option and Result wrappers shared by the document modules. */
module Common {

  /** Ruby's `nil`-or-value, as returned by `Hash#[]` and by the parsers. */
  datatype Option<+T> = None | Some(value: T)

  /** The outcome of an edit: the new document, or the reason nothing is written. */
  datatype Result<+T, +E> = Ok(value: T) | Err(error: E)
}
