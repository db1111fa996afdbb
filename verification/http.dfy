/** What an Express handler does with a request: answer with a JSON body under an HTTP
    status (with the body's `success` flag), or pass an error to the error middleware
    with `next(error)`. */
module Http {
  datatype Reply<+B> = Json(status: nat, success: bool, body: B) | ToErrorHandler(error: string)
}
