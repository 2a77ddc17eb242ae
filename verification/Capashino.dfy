/** How the client of the notification service turns an answer into an error. */
module Capashino {
  import opened Wrappers

  /** What the network gives back for one POST: a response whose body is or is not a
      notification, or no response at all. */
  datatype Reply =
    | Response(code: nat, text: string, wellFormed: bool)
    | NoResponse(text: string)

  datatype ApiError =
    | PermanentError(message: string, status: Option<nat>)
    | ClientError(message: string, status: Option<nat>)

  const BAD_REQUEST := 400
  const UNAUTHORIZED := 401
  const FORBIDDEN := 403
  const CONFLICT := 409
  const UNPROCESSABLE_ENTITY := 422

  function ErrorFromResponse(code: nat, text: string): ApiError {
    if code in {BAD_REQUEST, UNAUTHORIZED, FORBIDDEN, UNPROCESSABLE_ENTITY} then
      PermanentError("Capashino rejected request: " + text, Some(code))
    else if code == CONFLICT then
      ClientError("Capashino idempotency conflict: " + text, Some(code))
    else
      ClientError("Capashino temporary error: " + text, Some(code))
  }

  /** The outcome of `send_notification` for the caller. */
  function SendNotification(reply: Reply): Result<(), ApiError> {
    match reply
    case NoResponse(text) => Err(ClientError(text, None))
    case Response(code, text, wellFormed) =>
      if code >= 400 then Err(ErrorFromResponse(code, text))
      else if !wellFormed then Err(ClientError(text, None))
      else Ok(())
  }
}
