/** The optional value used for parse results and for the master video, which may not exist yet. */
module Optional {
  datatype Option<T> = None | Some(value: T)
}
