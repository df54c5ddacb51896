/** What a service call hands back: a value, or the exception it raises. */
module Results {

  /** The two exception classes the services raise, with their messages. */
  datatype Error = PermissionError(message: string) | ValueError(message: string)

  datatype Outcome<T> = Returned(value: T) | Raised(error: Error)
}
