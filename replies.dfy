/**
 * What a request handler answers. Each constructor is one of the HTTP results
 * the handlers build with `Results.*`, plus the two ways a handler fails
 * without building one.
 */
module Replies {

  datatype Reply<+T> =
    | Ok(value: T)                 // 200 with a body
    | Created(value: T)            // 201 with a body
    | NoContent                    // 204
    | BadRequest(message: string)  // 400 with an error message
    | Unauthorized                 // 401
    | NotFound                     // 404
    | StoreRejected                // the database refused the write (a constraint); surfaces as 500
    | Fault                        // an unhandled exception other than a constraint; surfaces as 500
}
