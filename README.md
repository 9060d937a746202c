# MessageBouncingServer: the request-decision pipeline

This Dafny project models the request handler of `server.js`. The server accepts a POST and checks its Content-Type against six allowed values. It validates the body with the parser for that type and echoes back either the body or a canonical form of it. The model covers:

- the per-client request counter (`requestCount`), kept as a `map` field of the `Server` class;
- the gates, in their order: a cumulative cap of 100 requests per client (429), POST only (405), an exact-match allow-list of six content types (415), and a declared Content-Length above 1,000,000 bytes (413);
- the loop that collects body chunks, which stops at the first chunk that takes the running total past 1,000,000 bytes (413);
- the dispatch over the content-type string and the per-type handlers for JSON, forms, XML, HTML, plain text and JavaScript;
- the HTML tag test `/\<(.*?)\>/`, modelled exactly. It holds when some `<` is followed later by a `>` with no line terminator (`\n`, `\r`, U+2028, U+2029) between them.

The third-party libraries become oracle functions in the `Parsers` datatype:

- `decode` stands for Buffer's UTF-8 `toString`;
- `jsonParses` and `jsonCanonical` stand for `JSON.parse` and `JSON.stringify`;
- `formCanonical` stands for `URLSearchParams` and its `toString`;
- `xmlParses` stands for xml2js `parseString`;
- `htmlParses` stands for `new JSDOM`.

So the model fixes what the server does with each verdict, not what the libraries decide.

Modules, one per component:

- `Http`: bytes, `Option`, `Response` and the fixed rejection responses.
- `HtmlTag`: the tag test `HasTag`, an executable scan. It is proved equal to the existential reading of the regular expression, `ContainsTag`.
- `Handlers`: the allow-list, the 415 message, `handleContentType` and the four handlers.
- `RateLimit`: the read-increment-write of the counter map.
- `BodyReader`: the chunk-accumulation loop.
- `Pipeline`: the `Request` record, the pure decision `Decide`, and the `Server` class. `Server.Handle` is proved to update the counter map by `Bump` and to answer with `Decide`.
- `PipelineProperties`: when each status code is given, written as if-and-only-if lemmas, plus the outcome for each content type.
- `Traces`: runs of several requests (`Serve`) and the rate-limit properties across requests. `HandleAll` proves that successive `Server.Handle` calls on one object produce exactly these runs.

Inputs:

- the client id (`req.connection.remoteAddress`);
- the method;
- the Content-Type header, as `Option<string>`, where `None` means the header is absent;
- the declared Content-Length, as `Option<nat>`;
- the body chunks, each a `seq<Byte>`.

## Model

| member | source | states |
|---|---|---|
| `HtmlTag.HasTag` | server.js:137 | the tag test holds iff some `<` is followed later by a `>` with no line terminator in between (both directions) |
| `HtmlTag.ScanFinds` | server.js:137 | a left-to-right pass started at position k with the correct "a `<` is open" flag finds exactly the matches that end at k or later |
| `HtmlTag.OpenStep` | server.js:137 | a `<` is open after position k iff s[k] is `<`, or one was open before and s[k] is not a line terminator |
| `HtmlTag.TestPageHasTag` | spec/server.spec.js:97-107 | the HTML page in the test suite passes the tag test |
| `HtmlTag.LineBreakExamples` | server.js:137 | a `\n`, `\r` or U+2028 between `<` and `>` defeats the test, while a later `<...>` on its own line passes it |
| `HtmlTag.NoTagExamples` | server.js:146-148 | text without `<` before `>` fails the tag test |
| `Handlers.UnsupportedMediaType` | server.js:35-40 | the 415 response is text/plain, with "Unsupported Media Type, supported types are: " followed by the six types in source order, joined by ", " |
| `Handlers.HandleJson` | server.js:95-104 | 200 iff the JSON parser accepts; then the content type is application/json and the body is the canonical re-serialisation; otherwise the fixed JSON 400 |
| `Handlers.HandleForm` | server.js:106-110 | always 200 with application/x-www-form-urlencoded and the re-serialised form |
| `Handlers.HandleXml` | server.js:112-132 | 200 iff the XML parser accepts; then application/xml with the original body, not the parse result; otherwise the fixed XML 400 |
| `Handlers.HandleTextTypes` | server.js:134-155 | a non-HTML type is echoed with 200 and its own content type; HTML gets 200 iff it contains a tag and the HTML parser accepts, then with the original body; no tag gives the "at least one HTML tag" 400; a tag with a throwing parser gives the "well-formed HTML" 400 |
| `Handlers.HandleContentType` | server.js:73-93 | the 500 default is taken iff the type is not one of the six; every other outcome is 200 or 400 |
| `Handlers.DispatchReachesHandler` | server.js:74-88 | for an admitted type, the dispatch never gives 500: JSON gets 200 iff it parses, with the canonical form; a form always gets 200 with its re-serialisation; XML gets 200 iff it parses, echoing the body; HTML gets 200 iff it has a tag and parses, echoing the body; text/plain and application/javascript are echoed with their own type |
| `RateLimit.Bump` | server.js:19-21 | the client's count goes up by exactly one, a client never seen starts from 0, every other client's count is unchanged, and no entry is removed |
| `BodyReader.ConcatAppend` | server.js:52 | concatenating two chunk lists is concatenating their bytes |
| `BodyReader.PrefixLength` | server.js:52 | a prefix of the chunks never holds more bytes than the whole body |
| `BodyReader.PushChunk` | server.js:51-52 | pushing a chunk extends the running buffer by exactly that chunk |
| `BodyReader.Accumulate` | server.js:49-62 | the body is complete iff its total length is at most 1,000,000, and then it is the concatenation of all chunks; otherwise reading stops at the first chunk that takes the running total past the ceiling, with the buffer over the ceiling by at most that chunk |
| `Pipeline.Server.constructor` | server.js:16 | a new server starts with an empty counter map |
| `Pipeline.Server.Handle` | server.js:18-63 | the counter map becomes `Bump(old map, client)` before any check, and the single response is `Decide` applied to the client's new count |
| `PipelineProperties.ClosedStatusSet` | server.js:18-93 | every response has status 200, 400, 405, 413, 415 or 429; the 500 fallback is unreachable |
| `PipelineProperties.TooManyIff` | server.js:19-27 | 429 iff the count, this request included, exceeds 100, whatever the method, type or body |
| `PipelineProperties.MethodNotAllowedIff` | server.js:29-33 | 405 iff the client is under the cap and the method is not exactly "POST" |
| `PipelineProperties.UnsupportedIff` | server.js:35-40 | 415 iff under the cap, a POST, and the Content-Type is absent or not literally one of the six; the body lists the supported types |
| `PipelineProperties.PayloadTooLargeIff` | server.js:42-56 | 413 iff the earlier gates pass and the declared length or the received total exceeds 1,000,000 bytes |
| `PipelineProperties.DispatchedBody` | server.js:57-62 | an admitted request whose body fits the ceiling goes to the dispatch with its decoded body and gets 200 or 400 |
| `PipelineProperties.RejectedBeforeBody` | server.js:23-47 | a request rejected by a gate gets the same response whatever its body chunks |
| `PipelineProperties.EchoTypes` | server.js:150-154 | text/plain and application/javascript get 200 with their own content type and the body unchanged |
| `PipelineProperties.JsonOutcome` | server.js:95-104 | an admitted JSON body gets 200 application/json with the canonical form when it parses, otherwise the fixed JSON 400 |
| `PipelineProperties.FormOutcome` | server.js:106-110 | an admitted form body always gets 200 with the re-serialised form |
| `PipelineProperties.XmlOutcome` | server.js:122-131 | an admitted XML body gets 200 application/xml with the original body when it parses, otherwise the fixed XML 400 |
| `PipelineProperties.HtmlOutcome` | server.js:135-149 | an admitted HTML body gets the no-tag 400 without a tag, 200 text/html with the original body when it has a tag and parses, and the well-formed 400 when it has a tag and fails to parse |
| `Traces.Serve` | server.js:18-27 | a run answers every request with exactly one response |
| `Traces.CountsEveryRequest` | server.js:19-21 | after a run, a client's count is its count before plus the number of its requests, rejected ones included; no entry disappears |
| `Traces.OccurrencesPrefix` | server.js:20-21 | a client's request count over a prefix of a run never exceeds its count over a longer prefix |
| `Traces.ServedAt` | server.js:19-27 | the i-th response of a run is `Decide` at the client's count at that point: its starting count plus its requests so far, this one included |
| `Traces.RateLimitedIff` | server.js:20-27 | from a fresh server, request i gets 429 iff more than 100 requests so far, this one included, came from its client |
| `Traces.StaysLimited` | server.js:23-27 | once a client gets 429, every later request from it gets 429 too |
| `Traces.OthersUnaffected` | server.js:20-21 | requests from other clients leave a client's count unchanged |
| `Traces.NoOccurrences` | server.js:20-21 | a run with no request from a client contributes nothing to that client's count |
| `Traces.CountsAfterAppend` | server.js:16-21 | the counters after two runs in a row are the counters after their concatenation |
| `Traces.ServeAppend` | server.js:16-27 | the responses to two runs in a row are the responses to their concatenation, the second starting from the counters the first left |
| `Traces.ServeOneMore` | server.js:19-21 | one more request bumps the counters once and adds exactly its own response to the run |
| `Traces.HandleAll` | server.js:16-27 | handing requests one by one to the same `Server` object returns exactly the responses `Serve` gives and leaves exactly the counters `CountsAfter` gives, so the run properties hold of the object |

Three details of the code decide behaviour that is easy to miss:

- The Content-Type comparison is an exact string match. For example, `application/json; charset=utf-8` gets 415.
- An absent Content-Type header gets 415, because `includes(undefined)` is false.
- For a non-POST request the 405 check comes before the Content-Type check, so a GET without a Content-Type gets 405.

## Left out

- HTTP plumbing: `http.createServer`, `server.listen`, the port, `console.log` and the event emitter. The `'data'`/`'end'` callbacks become a loop over a given chunk sequence.
- `req.connection.destroy()`: the model assumes that destroying the connection delivers no further `'data'` or `'end'` event, so reading stops at the overflowing chunk. The `'data'` handler itself sets no flag. A further event would write the response a second time, which this model does not represent.
- Foreign parsers: the behaviour of `JSON.parse`/`JSON.stringify`, xml2js with its options, jsdom and `URLSearchParams` is not modelled. They are the oracle fields of `Parsers`.
- Examples that depend on library behaviour are not proved, because the oracles promise nothing. These are the JSON round-trip (the re-serialised body parses back to the same value) and the form example `key=value` echoing as `key=value`.
- `Number(contentLength)`: the declared length is an optional natural number. An absent, empty or non-numeric header is `None`, which never triggers the early 413. Fractional or negative values are not modelled; Node's HTTP parser admits only digit strings as Content-Length.
- Buffer UTF-8 decoding (`toString()`): an oracle (`Parsers.decode`). "The original body" in the echo properties means this decoded text.
- The remote-address lookup is an input. Concurrent requests are not modelled; the runtime handles one event at a time, so the read-increment-write of the counter is atomic.
- `RateLimit.Bump`: counts are unbounded naturals. JavaScript numbers stop incrementing exactly after 2^53 requests from one client, which is far beyond the cap of 100.
- The test harness `spec/server.spec.js` makes real HTTP calls. It serves only as evidence for the properties above.
