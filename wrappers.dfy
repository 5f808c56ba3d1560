/** Option and Result types shared by the backend services and the frontend
    components, and the exception kinds the backend throws. */
module Wrappers {

  /** A value that may be absent: Java's null, an empty `Optional`, or a
      missing JavaScript field. */
  datatype Option<+T> = None | Some(value: T)
  {
    function GetOr(default: T): T
    {
      match this
      case Some(v) => v
      case None => default
    }
  }

  /** The exceptions thrown by the services. Messages that embed an id keep the
      id as a number instead of its decimal text. */
  datatype Error =
    | ResourceNotFound(resource: string, id: int)  // ResourceNotFoundException(resource, id)
    | BadRequest(message: string)                  // BadRequestException(message)
    | NotFoundWithId(resource: string, id: int)    // RuntimeException(resource + " not found with id: " + id)
    | Runtime(message: string)                     // any other RuntimeException with a fixed text

  /** Either the value an operation returns or the exception it throws. */
  datatype Result<+T> = Ok(value: T) | Err(error: Error)
}
