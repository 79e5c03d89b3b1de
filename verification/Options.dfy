/** The optional value used throughout for SQL NULL, Python None and JavaScript null. */
module Options {

  datatype Option<+T> = None | Some(value: T)
}
