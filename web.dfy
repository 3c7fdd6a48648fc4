/**
 * The small pieces of the web layer that the handlers return: identifiers,
 * responses, errors mapped to status codes, and flash messages.
 */
module Web {

  /** A UUID, seen only as an identity; its bit layout plays no role here. */
  type Uuid = nat

  const StatusSeeOther: nat := 303
  const StatusBadRequest: nat := 400
  const StatusInternalServerError: nat := 500

  /** The successful responses the modelled handlers produce. */
  datatype HttpResponse =
    | SeeOther(location: string)
    | OkPage(title: string, body: string)

  /** An error that the web framework turns into a response with this status. */
  datatype HttpError = HttpError(status: nat, message: string)

  /** Wraps an error message as a 400 Bad Request. */
  function E400(message: string): HttpError
  {
    HttpError(StatusBadRequest, message)
  }

  /** Wraps an error message as a 500 Internal Server Error. */
  function E500(message: string): HttpError
  {
    HttpError(StatusInternalServerError, message)
  }

  datatype Level = Info | Error

  /** A one-shot message shown on the next page the browser loads. */
  datatype FlashMessage = FlashMessage(level: Level, content: string)
}
