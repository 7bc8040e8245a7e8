/** The optional value used throughout the model (a missing element, no index found, no delay class). */
module Optional {
  datatype Option<+T> = None | Some(value: T)
}
