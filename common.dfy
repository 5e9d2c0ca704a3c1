/** Failure-compatible wrappers shared by every module of the model. */
module Common {

  /** A value that may be absent: a Java `null`, an unset JDBC parameter, an unreadable file. */
  datatype Option<+T> = None | Some(value: T)
}
