/**
 * The exceptions the user service and its controller can raise, by kind.
 * Each carries the text `getMessage()` returns; a data-integrity violation
 * carries the message of its most specific cause.
 */
module Exceptions {
  datatype ServiceException =
    | ResourceNotFound(message: string)
    | BadRequest(message: string)
    | UserAlreadyExists(message: string)
    | InvalidCredentials(message: string)
    | DataIntegrityViolation(causeMessage: string)
    | Unexpected(message: string)
}
