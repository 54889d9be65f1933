/** The HTTP responses the Express route handlers send.  The record a
    successful response carries is the type parameter `T`, so that this
    module does not depend on the schemas. */
module Http {

  datatype Body<+T> = Message(text: string) | Record(value: T) | Records(values: seq<T>)

  datatype Response<+T> = Response(status: int, body: Body<T>)

  function BadRequest<T>(text: string): Response<T> { Response(400, Message(text)) }
  function Unauthorized<T>(text: string): Response<T> { Response(401, Message(text)) }
  function Forbidden<T>(text: string): Response<T> { Response(403, Message(text)) }
  function NotFound<T>(text: string): Response<T> { Response(404, Message(text)) }
}
