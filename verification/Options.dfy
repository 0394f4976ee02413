/** A value, or none: the sources return a null pointer or an error code instead. */
module Options {

  datatype Option<+T> = None | Some(value: T)
}
