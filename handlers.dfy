/** The content-type allow-list and the per-type handlers of server.js
    (`handleContentType`, `handleJson`, `handleForm`, `handleXml`,
    `handleTextTypes`). The third-party parsers are oracles: the model fixes
    what the server does with each verdict, not what the libraries decide. */
module Handlers {
  import opened Http
  import HtmlTag

  /** Library behaviour the server relies on but does not define. */
  datatype Parsers = Parsers(
    /** `Buffer.concat(body).toString()`: UTF-8 decoding of the body bytes. */
    decode: seq<Byte> -> string,
    /** `JSON.parse(body)` returns instead of throwing. */
    jsonParses: string -> bool,
    /** `JSON.stringify(JSON.parse(body))`. */
    jsonCanonical: string -> string,
    /** `new URLSearchParams(body).toString()`. */
    formCanonical: string -> string,
    /** xml2js `parseString` calls back without an error. */
    xmlParses: string -> bool,
    /** `new JSDOM(body)` returns instead of throwing. */
    htmlParses: string -> bool)

  const Json: string := "application/json"
  const Form: string := "application/x-www-form-urlencoded"
  const Xml: string := "application/xml"
  const Html: string := "text/html"
  const JavaScript: string := "application/javascript"

  /** `supportedContentTypes`, in the order of the source. */
  const SupportedContentTypes: seq<string> := [Json, TextPlain, Form, Xml, Html, JavaScript]

  const JsonError: string := "Bad Request: Body could not be parsed as JSON"
  const XmlError: string := "Bad Request: Body could not be parsed as XML"
  const HtmlParseError: string := "Bad Request: Body could not be parsed as well-formed HTML"
  const HtmlNoTagError: string := "Bad Request: HTML content must contain at least one HTML tag."

  /** `Array.prototype.join`: the elements with `sep` between neighbours. */
  function Join(xs: seq<string>, sep: string): string {
    if xs == [] then ""
    else if |xs| == 1 then xs[0]
    else xs[0] + sep + Join(xs[1..], sep)
  }

  /** `supportedContentTypes.includes(contentType)`; an absent header is
      `undefined`, which is not included. */
  predicate IsSupported(contentType: Option<string>) {
    contentType.Some? && contentType.value in SupportedContentTypes
  }

  /** The 415 response, listing the supported types joined by ", ". */
  function UnsupportedMediaType(): (r: Response)
    ensures r.status == 415 && r.contentType == TextPlain
    ensures r.body == "Unsupported Media Type, supported types are: "
                      + Json + ", " + TextPlain + ", " + Form + ", " + Xml + ", " + Html + ", " + JavaScript
  {
    var sep, s := ", ", SupportedContentTypes;
    assert s[1..][1..][1..][1..][1..] == [JavaScript];
    assert Join(s[1..][1..][1..][1..], sep) == Html + sep + JavaScript;
    assert Join(s[1..][1..][1..], sep) == Xml + sep + (Html + sep + JavaScript);
    assert Join(s[1..][1..], sep) == Form + sep + (Xml + sep + (Html + sep + JavaScript));
    assert Join(s[1..], sep) == TextPlain + sep + (Form + sep + (Xml + sep + (Html + sep + JavaScript)));
    Response(415, TextPlain, "Unsupported Media Type, supported types are: " + Join(s, sep))
  }

  /** `handleJson`: the canonical re-serialisation, or 400. */
  function HandleJson(body: string, p: Parsers): (r: Response)
    ensures r.status == 200 <==> p.jsonParses(body)
    ensures r.status == 200 ==> r.contentType == Json && r.body == p.jsonCanonical(body)
    ensures r.status != 200 ==> r == BadRequest(JsonError)
  {
    if p.jsonParses(body) then Response(200, Json, p.jsonCanonical(body))
    else BadRequest(JsonError)
  }

  /** `handleForm`: form parsing never fails, so the answer is always 200. */
  function HandleForm(body: string, p: Parsers): (r: Response)
    ensures r.status == 200 && r.contentType == Form
    ensures r.body == p.formCanonical(body)
  {
    Response(200, Form, p.formCanonical(body))
  }

  /** `handleXml`: parsing is only a gate; the original body is echoed. */
  function HandleXml(body: string, p: Parsers): (r: Response)
    ensures r.status == 200 <==> p.xmlParses(body)
    ensures r.status == 200 ==> r.contentType == Xml && r.body == body
    ensures r.status != 200 ==> r == BadRequest(XmlError)
  {
    if p.xmlParses(body) then Response(200, Xml, body)
    else BadRequest(XmlError)
  }

  /** `handleTextTypes`: HTML must contain a tag and be accepted by the HTML
      parser; every other type is echoed with its own content type. */
  function HandleTextTypes(contentType: string, body: string, p: Parsers): (r: Response)
    ensures contentType != Html ==> r == Response(200, contentType, body)
    ensures contentType == Html ==>
      (r.status == 200 <==> HtmlTag.ContainsTag(body) && p.htmlParses(body))
    ensures contentType == Html && r.status == 200 ==> r.contentType == Html && r.body == body
    ensures contentType == Html && !HtmlTag.ContainsTag(body) ==> r == BadRequest(HtmlNoTagError)
    ensures contentType == Html && HtmlTag.ContainsTag(body) && !p.htmlParses(body) ==>
      r == BadRequest(HtmlParseError)
  {
    if contentType == Html then
      if HtmlTag.HasTag(body) then
        if p.htmlParses(body) then Response(200, contentType, body)
        else BadRequest(HtmlParseError)
      else BadRequest(HtmlNoTagError)
    else Response(200, contentType, body)
  }

  /** `handleContentType`: the switch over the content-type string, with its
      500 default branch. */
  function HandleContentType(contentType: string, body: string, p: Parsers): (r: Response)
    ensures r.status == 500 <==> contentType !in SupportedContentTypes
    ensures r.status == 500 ==> r == NotImplemented
    ensures r.status == 200 || r.status == 400 || r.status == 500
  {
    if contentType == Json then HandleJson(body, p)
    else if contentType == Form then HandleForm(body, p)
    else if contentType == Xml then HandleXml(body, p)
    else if contentType == JavaScript || contentType == TextPlain || contentType == Html then
      HandleTextTypes(contentType, body, p)
    else NotImplemented
  }

  /** Once the gate has admitted the type, the dispatch gives the outcome
      promised for that type, in terms of the parser verdicts: JSON is 200
      exactly when it parses, forms always succeed, XML is echoed exactly when
      it parses, HTML is echoed exactly when it has a tag and parses, and the
      other text types are echoed. */
  lemma DispatchReachesHandler(contentType: string, body: string, p: Parsers)
    requires contentType in SupportedContentTypes
    ensures var r := HandleContentType(contentType, body, p);
      && (contentType == Json ==> (r.status == 200 <==> p.jsonParses(body))
                                  && (r.status == 200 ==> r.body == p.jsonCanonical(body)))
      && (contentType == Form ==> r == Response(200, Form, p.formCanonical(body)))
      && (contentType == Xml ==> (r.status == 200 <==> p.xmlParses(body))
                                 && (r.status == 200 ==> r.body == body))
      && (contentType == Html ==> (r.status == 200 <==> HtmlTag.ContainsTag(body) && p.htmlParses(body))
                                  && (r.status == 200 ==> r.body == body))
      && (contentType == TextPlain || contentType == JavaScript ==> r == Response(200, contentType, body))
      && r.status != 500
  {
  }
}
