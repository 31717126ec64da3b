/** The optional value returned by the user cache's lookup (Python's None or a record). */
module Options {

  datatype Option<+T> = None | Some(value: T)

}
