/** Outcome types standing in for the exceptions that the image library raises. */
module Results {

  /** A value, or the text of the exception that prevented computing it. */
  datatype Result<T> = Ok(value: T) | Err(message: string)

  /** Success of an action that returns nothing, or the text of its exception. */
  datatype Outcome = Pass | Fail(message: string)
}
