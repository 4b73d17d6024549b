/** Small value types shared by the modules of this model. */
module Common {

  /** An optional value, the model of boost::optional and of a Ruby nil. */
  datatype Option<+T> = None | Some(value: T)

  /** A value or the message of the exception the source would throw. */
  datatype Result<+T> = Success(value: T) | Failure(error: string)
}
