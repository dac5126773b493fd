/** Small wrapper types shared by every module: an optional value (a C# reference that
    may be null) and the way an awaited task ends (with a value, or with an exception
    that escapes to the caller). */
module Wrappers {

  datatype Option<+T> = None | Some(value: T)

  /** The exceptions the modelled code lets escape. */
  datatype Exception =
    | InvalidOperationException(message: string)
    | HubSendException
    | HttpRequestException(statusCode: int)

  /** How an awaited task ends: it runs to completion with a value, or it is faulted by
      an exception that nobody on the path catches. */
  datatype TaskResult<+T> = Completed(value: T) | Faulted(exception: Exception)
}
