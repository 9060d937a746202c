/** The request handler of server.js: the rate-limit update, then the method,
    content-type and declared-length gates, the body loop and the dispatch,
    each rejection answering at once. */
module Pipeline {
  import opened Http
  import opened Handlers
  import opened RateLimit
  import opened BodyReader

  /** What the handler reads from `req`. */
  datatype Request = Request(
    client: ClientId,                 // req.connection.remoteAddress
    verb: string,                     // req.method
    contentType: Option<string>,      // req.headers['content-type']
    contentLength: Option<nat>,       // Number(req.headers['content-length']), when present and numeric
    chunks: seq<Chunk>)               // the 'data' events, in order

  /** `contentLength && Number(contentLength) > MAX_PAYLOAD_SIZE`. */
  predicate DeclaredTooLarge(req: Request) {
    req.contentLength.Some? && req.contentLength.value > MaxPayloadSize
  }

  /** The request passes the four gates that precede the body loop, given the
      client's count including this request. */
  predicate Admitted(requests: nat, req: Request) {
    requests <= MaxRequests && req.verb == "POST" && IsSupported(req.contentType)
    && !DeclaredTooLarge(req)
  }

  /** The response to `req`, when this is the client's `requests`-th request. */
  function Decide(requests: nat, req: Request, p: Parsers): Response {
    if requests > MaxRequests then TooManyRequests
    else if req.verb != "POST" then MethodNotAllowed
    else if !IsSupported(req.contentType) then UnsupportedMediaType()
    else if DeclaredTooLarge(req) then PayloadTooLarge
    else if |Concat(req.chunks)| > MaxPayloadSize then PayloadTooLarge
    else HandleContentType(req.contentType.value, p.decode(Concat(req.chunks)), p)
  }

  /** The server object: the libraries it calls and the counter map it owns. */
  class Server {
    const parsers: Parsers
    var requestCount: Counts

    constructor (parsers: Parsers)
      ensures this.parsers == parsers && requestCount == map[]
    {
      this.parsers := parsers;
      requestCount := map[];
    }

    /** Handles one request: the counter is bumped first, whatever happens
        next, and exactly one response comes back. */
    method Handle(req: Request) returns (res: Response)
      modifies this
      ensures requestCount == Bump(old(requestCount), req.client)
      ensures res == Decide(Count(requestCount, req.client), req, parsers)
      ensures res == Decide(Count(old(requestCount), req.client) + 1, req, parsers)
    {
      var requests := Count(requestCount, req.client) + 1;
      requestCount := requestCount[req.client := requests];

      if requests > MaxRequests {
        return TooManyRequests;
      }
      if req.verb != "POST" {
        return MethodNotAllowed;
      }
      if !IsSupported(req.contentType) {
        return UnsupportedMediaType();
      }
      if DeclaredTooLarge(req) {
        return PayloadTooLarge;
      }
      var read := Accumulate(req.chunks);
      match read
      case Aborted(_) =>
        return PayloadTooLarge;
      case Complete(body) =>
        return HandleContentType(req.contentType.value, parsers.decode(body), parsers);
    }
  }
}
