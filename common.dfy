/** The optional value used wherever a lookup or a parse can come back empty. */
module Optional {
  datatype Option<T> = None | Some(value: T)
}

/** What a request handler answers: the HTTP status and, where there is one, the message body. */
module Replies {
  datatype Reply =
    | Ok(msg: string)            // 200
    | OkList                     // 200 whose body is the list returned beside the reply
    | Created(msg: string)       // 201
    | BadRequest(msg: string)    // 400
    | Forbidden(msg: string)     // 403
    | NotFound(msg: string)      // 404
    | NotFoundPage               // 404 with the web framework's default body
    | ServerError                // 500: an exception the handler does not catch
}
