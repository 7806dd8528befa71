/** An optional value, for the places where the platform's code returns or stores `None`. */
module Options {
  datatype Option<+T> = None | Some(value: T)
}
