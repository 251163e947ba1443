/** Small wrapper types shared by every module of the model. */
module Common {

  /** A value that may be absent: TypeScript's optional field or `undefined`. */
  datatype Option<+T> = None | Some(value: T)

  /** The result of an operation that may throw an `Error` carrying a message. */
  datatype Outcome = Pass | Fail(message: string)
}
