/** The stock optional value, used for SQL NULL and for Go's comma-ok results. */
module Options {
  datatype Option<+T> = None | Some(value: T)
}
