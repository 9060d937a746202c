/** Values exchanged by the request handler of server.js: bytes, optional
    headers, and the single (status, Content-Type, body) response that every
    request receives. */
module Http {

  /** A byte of the request body, as a Node Buffer holds it. */
  newtype Byte = x: int | 0 <= x < 256

  datatype Option<+T> = None | Some(value: T)

  /** What `res.writeHead(status, { 'Content-Type': contentType })` followed by
      `res.end(body)` sends. */
  datatype Response = Response(status: nat, contentType: string, body: string)

  /** `MAX_PAYLOAD_SIZE`, 1e6 bytes. */
  const MaxPayloadSize: nat := 1_000_000

  /** The cumulative per-client cap of the rate limiter. */
  const MaxRequests: nat := 100

  const TextPlain: string := "text/plain"

  const TooManyRequests: Response :=
    Response(429, TextPlain, "Too Many Requests: Please slow down.")

  const MethodNotAllowed: Response :=
    Response(405, TextPlain, "Method Not Allowed")

  const PayloadTooLarge: Response :=
    Response(413, TextPlain, "Payload Too Large: Maximum size is 1MB")

  const NotImplemented: Response :=
    Response(500, TextPlain, "Internal Server Error: Content type handling not implemented")

  /** A 400 response with the given reason, always sent as text/plain. */
  function BadRequest(reason: string): (r: Response)
    ensures r.status == 400 && r.contentType == TextPlain && r.body == reason
  {
    Response(400, TextPlain, reason)
  }
}
