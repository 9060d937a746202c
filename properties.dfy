/** What the handler of server.js promises about one request: the status
    codes are decided in the order 429, 405, 415, 413, each rejection is the
    only outcome, and an admitted body reaches the handler of its type. */
module PipelineProperties {
  import opened Http
  import opened Handlers
  import opened BodyReader
  import HtmlTag
  import opened Pipeline

  function Status(requests: nat, req: Request, p: Parsers): nat {
    Decide(requests, req, p).status
  }

  /** Every response carries one of the six statuses; the 500 fallback of the
      dispatch is never reached. */
  lemma ClosedStatusSet(requests: nat, req: Request, p: Parsers)
    ensures Status(requests, req, p) in {200, 400, 405, 413, 415, 429}
  {
    if Admitted(requests, req) && |Concat(req.chunks)| <= MaxPayloadSize {
      DispatchedBody(requests, req, p);
    }
  }

  /** 429 exactly when the count, this request included, passes 100, whatever
      the method, type or body. */
  lemma TooManyIff(requests: nat, req: Request, p: Parsers)
    ensures Status(requests, req, p) == 429 <==> requests > MaxRequests
    ensures requests > MaxRequests ==> Decide(requests, req, p) == TooManyRequests
  {
  }

  /** 405 exactly for a non-POST request under the cap. */
  lemma MethodNotAllowedIff(requests: nat, req: Request, p: Parsers)
    ensures Status(requests, req, p) == 405 <==> requests <= MaxRequests && req.verb != "POST"
    ensures Status(requests, req, p) == 405 ==> Decide(requests, req, p) == MethodNotAllowed
  {
  }

  /** 415 exactly for a POST under the cap whose Content-Type is absent or not
      literally one of the six; the body lists the supported types. */
  lemma UnsupportedIff(requests: nat, req: Request, p: Parsers)
    ensures Status(requests, req, p) == 415 <==>
      requests <= MaxRequests && req.verb == "POST" && !IsSupported(req.contentType)
    ensures Status(requests, req, p) == 415 ==> Decide(requests, req, p) == UnsupportedMediaType()
  {
  }

  /** 413 exactly when the earlier gates pass and either the declared length
      or the received body exceeds 1,000,000 bytes. */
  lemma PayloadTooLargeIff(requests: nat, req: Request, p: Parsers)
    ensures Status(requests, req, p) == 413 <==>
      requests <= MaxRequests && req.verb == "POST" && IsSupported(req.contentType)
      && (DeclaredTooLarge(req) || |Concat(req.chunks)| > MaxPayloadSize)
    ensures Status(requests, req, p) == 413 ==> Decide(requests, req, p) == PayloadTooLarge
  {
  }

  /** An admitted request whose body fits is dispatched: its response comes
      from the handler of its content type, with 200 or 400. */
  lemma DispatchedBody(requests: nat, req: Request, p: Parsers)
    requires Admitted(requests, req) && |Concat(req.chunks)| <= MaxPayloadSize
    ensures Decide(requests, req, p) ==
      HandleContentType(req.contentType.value, p.decode(Concat(req.chunks)), p)
    ensures Status(requests, req, p) == 200 || Status(requests, req, p) == 400
  {
  }

  /** A request turned away by a gate is answered without looking at its body:
      any other chunk sequence gets the same response. */
  lemma RejectedBeforeBody(requests: nat, req: Request, chunks: seq<Chunk>, p: Parsers)
    requires !Admitted(requests, req)
    ensures Decide(requests, req, p) == Decide(requests, req.(chunks := chunks), p)
  {
  }

  /** The decoded body the handlers see. */
  function Text(req: Request, p: Parsers): string {
    p.decode(Concat(req.chunks))
  }

  predicate Dispatched(requests: nat, req: Request) {
    Admitted(requests, req) && |Concat(req.chunks)| <= MaxPayloadSize
  }

  /** text/plain and application/javascript are echoed with 200 and the
      request's own content type. */
  lemma EchoTypes(requests: nat, req: Request, p: Parsers)
    requires Dispatched(requests, req)
    requires req.contentType == Some(TextPlain) || req.contentType == Some(JavaScript)
    ensures Decide(requests, req, p) == Response(200, req.contentType.value, Text(req, p))
  {
  }

  /** JSON: 200 with the canonical serialisation when the parser accepts,
      the fixed 400 otherwise. */
  lemma JsonOutcome(requests: nat, req: Request, p: Parsers)
    requires Dispatched(requests, req) && req.contentType == Some(Json)
    ensures p.jsonParses(Text(req, p)) ==>
      Decide(requests, req, p) == Response(200, Json, p.jsonCanonical(Text(req, p)))
    ensures !p.jsonParses(Text(req, p)) ==>
      Decide(requests, req, p) == Response(400, TextPlain, JsonError)
  {
  }

  /** Forms always succeed with the canonical serialisation. */
  lemma FormOutcome(requests: nat, req: Request, p: Parsers)
    requires Dispatched(requests, req) && req.contentType == Some(Form)
    ensures Decide(requests, req, p) == Response(200, Form, p.formCanonical(Text(req, p)))
  {
  }

  /** XML: the original body when the parser accepts, the fixed 400 otherwise;
      the parse result is never sent. */
  lemma XmlOutcome(requests: nat, req: Request, p: Parsers)
    requires Dispatched(requests, req) && req.contentType == Some(Xml)
    ensures p.xmlParses(Text(req, p)) ==>
      Decide(requests, req, p) == Response(200, Xml, Text(req, p))
    ensures !p.xmlParses(Text(req, p)) ==>
      Decide(requests, req, p) == Response(400, TextPlain, XmlError)
  {
  }

  /** HTML: no tag gives the "at least one HTML tag" 400; a tag and a parser
      that accepts give the original body; a tag and a parser that throws give
      the "well-formed HTML" 400. */
  lemma HtmlOutcome(requests: nat, req: Request, p: Parsers)
    requires Dispatched(requests, req) && req.contentType == Some(Html)
    ensures !HtmlTag.ContainsTag(Text(req, p)) ==>
      Decide(requests, req, p) == Response(400, TextPlain, HtmlNoTagError)
    ensures HtmlTag.ContainsTag(Text(req, p)) && p.htmlParses(Text(req, p)) ==>
      Decide(requests, req, p) == Response(200, Html, Text(req, p))
    ensures HtmlTag.ContainsTag(Text(req, p)) && !p.htmlParses(Text(req, p)) ==>
      Decide(requests, req, p) == Response(400, TextPlain, HtmlParseError)
  {
  }
}
