/** A value that may be absent: a nullable reference or an optional field. */
module Optional {

  datatype Option<T> = None | Some(value: T)

}
