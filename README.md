# HttpClient of gravitee-common-elasticsearch, modelled in Dafny

This project models `HttpClient`, the HTTP adapter through which the Gravitee platform talks to an
Elasticsearch cluster, and proves properties of the model. The parts it covers are:

- **Initialization.** `initialize` and `initializePaths` use only the first configured endpoint. They set
  the seven request paths, which are static fields shared by every instance. They build the web-client
  options: host, default port, SSL and trust-all, the keystore flag and the proxy. They also precompute
  the Basic authorization header.
- **The calls.** These are `getInfo`, `getClusterHealth`, `bulk`, `putTemplate`, both overloads of
  `count`, `search` and `putPipeline`. For each, the model gives the request the client sends: the verb,
  the URL built from the shared paths, the headers after the interceptor, and the body. It also gives
  the result the client makes of the server's answer.
- **The helpers behind them.** These are Java's `replaceAll("/$", "")`, Java's rendering of `null`
  in string concatenation and in `StringBuilder`, `equalsIgnoreCase`, decimal printing, UTF-8
  (RFC 3629) and padded Base64 (section 4 of RFC 4648).

How the modules are laid out:

| module | file | what it holds |
|---|---|---|
| `Wrappers` | Wrappers.dfy | `Option`, `Result`, `Outcome` |
| `Bytes` | Bytes.dfy | `byte`, and the concatenation of a list of buffers |
| `JavaText` | JavaText.dfy | `null` printed as `"null"`, ASCII `equalsIgnoreCase`, decimal `int` printing, and a character search used only by the readers of URLs and headers |
| `Utf8` | Utf8.dfy | UTF-8 encoding of strings and its decoder |
| `Base64` | Base64.dfy | padded Base64 encoding and its decoder |
| `Paths` | Paths.dfy | the regex strip, the seven derived paths, the count/search/template/pipeline URLs |
| `BasicAuth` | BasicAuth.dfy | `initEncodedAuthorization` and a reader of the header it builds |
| `Responses` | Responses.dfy | the status decisions of each call, the putPipeline message and log level |
| `Bulk` | Bulk.dfy | the parsed bulk answer, the logged item errors, the bulk result |
| `Options` | Options.dfy | URI, configuration, web-client and proxy options, and how initialize derives them |
| `Requests` | Requests.dfy | requests and the header interceptor |
| `Client` | Client.dfy | the classes `PathTable` (the static paths) and `HttpClient` |

The Java fields become fields of two classes:

- `URL_ROOT` … `URL_COUNT` are fields of one `PathTable` object. Every `HttpClient` built on it holds a
  reference to it, so initializing one client changes the URLs every other client uses.
- `httpClient` and `authorizationHeader` become `HttpClient.client` and `HttpClient.authorizationHeader`.

A Java `null` is `None` throughout. A call that would dereference a null fails with `NullPointer`:

- the web client before initialization;
- an endpoint without a path;
- a bulk item without an index result while errors are being logged.

Each call method takes two inputs:

- `answer`: the server's answer to the request it sends, or `None` when no answer arrives.
- `parsed`: the answer's body mapped to the result type, or `None` when it does not map.

Each call method returns `sent`, the request, together with the result.

Two consequences of the code worth knowing:

- Trust-all is set for every https endpoint, whether or not a keystore is configured (HttpClient.java
  lines 115-123). `Options.SslOnlyForHttps` states it.
- The header of user `alice` with password `secret` is `Basic YWxpY2U6c2VjcmV0`. Its twelve bytes are
  four whole groups of three, so there is no padding. `BasicAuth.AliceSecretHeader` proves it.

## Model

Paths in the source column are relative to the repository root. `HttpClient.java` stands for
`gravitee-common-elasticsearch/src/main/java/io/gravitee/elasticsearch/client/http/HttpClient.java`.

| member | source | states |
|---|---|---|
| Paths.DollarAt | gravitee-common-elasticsearch/src/main/java/io/gravitee/elasticsearch/client/http/HttpClient.java:168 | the regular expression `$` without MULTILINE matches only at the end, before a final line terminator, or before a final "\r\n" (never inside it), so only in the last three positions |
| Paths.DollarBeforeFinalCrLf | gravitee-common-elasticsearch/src/main/java/io/gravitee/elasticsearch/client/http/HttpClient.java:168 | before a final "\r\n" `$` matches at the '\r' and not between the '\r' and the '\n' |
| Paths.SlashMatchAt | gravitee-common-elasticsearch/src/main/java/io/gravitee/elasticsearch/client/http/HttpClient.java:168 | "/$" matches only at a '/' in the last three positions of a path |
| Paths.StripTrailingSlash | gravitee-common-elasticsearch/src/main/java/io/gravitee/elasticsearch/client/http/HttpClient.java:168 | replaceAll("/$", "") leaves the path unchanged or removes exactly one slash at a position where "/$" matches |
| Paths.SlashMatchUnique | gravitee-common-elasticsearch/src/main/java/io/gravitee/elasticsearch/client/http/HttpClient.java:168 | the pattern "/$" matches at most one position of a path, so replaceAll removes at most one slash |
| Paths.StripRemovesMatch | gravitee-common-elasticsearch/src/main/java/io/gravitee/elasticsearch/client/http/HttpClient.java:168 | where "/$" matches (a final slash, or a slash before a final line terminator), exactly that slash is removed and everything else is kept |
| Paths.StripWithoutMatch | gravitee-common-elasticsearch/src/main/java/io/gravitee/elasticsearch/client/http/HttpClient.java:168 | a path where "/$" matches nowhere is left as it is |
| Paths.StripOnlyOneSlash | gravitee-common-elasticsearch/src/main/java/io/gravitee/elasticsearch/client/http/HttpClient.java:168 | of two trailing slashes only the last is removed |
| Paths.StripBeforeNewline | gravitee-common-elasticsearch/src/main/java/io/gravitee/elasticsearch/client/http/HttpClient.java:168 | a slash before a final newline is removed and the newline stays |
| Paths.TrailingSlashNormalized | gravitee-common-elasticsearch/src/main/java/io/gravitee/elasticsearch/client/http/HttpClient.java:168-176 | a path that loses nothing to the strip and the same path plus "/" give identical derived paths |
| Paths.RootPathOfEmptyBase | gravitee-common-elasticsearch/src/main/java/io/gravitee/elasticsearch/client/http/HttpClient.java:168-170 | the base paths "" and "/" both give the root path "/" |
| Paths.Derive | gravitee-common-elasticsearch/src/main/java/io/gravitee/elasticsearch/client/http/HttpClient.java:167-177 | each of the seven paths is the stripped base path followed by '/' and the rest of its suffix |
| Paths.OnlyQueryPathsCarryParameters | gravitee-common-elasticsearch/src/main/java/io/gravitee/elasticsearch/client/http/HttpClient.java:170-176 | the search and count paths end with "?ignore_unavailable=true" and the other five do not |
| Paths.IndexedUrl | gravitee-common-elasticsearch/src/main/java/io/gravitee/elasticsearch/client/http/HttpClient.java:259-267 | a count/search URL is '/', then the indexes text (null as "null") and the type segment, then the endpoint path |
| Paths.SplitIndexedUrlInverts | gravitee-common-elasticsearch/src/main/java/io/gravitee/elasticsearch/client/http/HttpClient.java:259-267 | indexes without '/' and the optional type are recovered from the URL, so a type segment is present exactly when a type is given |
| Paths.NullIndexesPrintAsText | gravitee-common-elasticsearch/src/main/java/io/gravitee/elasticsearch/client/http/HttpClient.java:259-261 | null indexes give the same URL as the index named "null" |
| Paths.IndexedUrlOfDerived | gravitee-common-elasticsearch/src/main/java/io/gravitee/elasticsearch/client/http/HttpClient.java:259-267 | the stripped base path comes after the index and type segments of count and search URLs |
| Paths.NamedUrl | gravitee-common-elasticsearch/src/main/java/io/gravitee/elasticsearch/client/http/HttpClient.java:236 | a template or pipeline URL splits into the derived path, '/', and the name (null printed as "null") |
| JavaText.Text | gravitee-common-elasticsearch/src/main/java/io/gravitee/elasticsearch/client/http/HttpClient.java:373 | a null string is rendered "null" and any other string as itself |
| JavaText.EqualsIgnoreCase | gravitee-common-elasticsearch/src/main/java/io/gravitee/elasticsearch/client/http/HttpClient.java:113 | a string equals itself ignoring case; a null never does, and a match has the same length |
| JavaText.Digits | gravitee-common-elasticsearch/src/main/java/io/gravitee/elasticsearch/client/http/HttpClient.java:358-359 | a status code prints as a non-empty string of digits without a leading zero |
| JavaText.Decimal | gravitee-common-elasticsearch/src/main/java/io/gravitee/elasticsearch/client/http/HttpClient.java:357-359 | an int prints as a non-empty string that starts with '-' exactly when it is negative |
| JavaText.DecimalInjective | gravitee-common-elasticsearch/src/main/java/io/gravitee/elasticsearch/client/http/HttpClient.java:358-359 | distinct status codes print differently |
| Utf8.Encode | gravitee-common-elasticsearch/src/main/java/io/gravitee/elasticsearch/client/http/HttpClient.java:374 | a text of n characters encodes as between n and 4n bytes |
| Utf8.EncodeChar | gravitee-common-elasticsearch/src/main/java/io/gravitee/elasticsearch/client/http/HttpClient.java:374 | a character encodes in the shortest form: one byte below 0x80, two below 0x800, three below 0x10000, else four; the lead byte announces the length and the rest are continuation bytes |
| Utf8.EncodeAscii | gravitee-common-elasticsearch/src/main/java/io/gravitee/elasticsearch/client/http/HttpClient.java:374 | an ASCII text encodes as one byte per character, each equal to its code |
| Utf8.EncodeAppend | gravitee-common-elasticsearch/src/main/java/io/gravitee/elasticsearch/client/http/HttpClient.java:374 | the encoding of a concatenation is the concatenation of the encodings |
| Utf8.DecodeEncode | gravitee-common-elasticsearch/src/main/java/io/gravitee/elasticsearch/client/http/HttpClient.java:374 | decoding the UTF-8 encoding of any text gives the text back |
| Base64.Encode | gravitee-common-elasticsearch/src/main/java/io/gravitee/elasticsearch/client/http/HttpClient.java:374 | '=' occurs only among the last two characters, and the unused bits of the last data character are zero: four of them after one final byte, two after two |
| Base64.EncodeOfA | gravitee-common-elasticsearch/src/main/java/io/gravitee/elasticsearch/client/http/HttpClient.java:374 | the single byte "A" encodes as "QQ==" |
| Base64.Symbol | gravitee-common-elasticsearch/src/main/java/io/gravitee/elasticsearch/client/http/HttpClient.java:374 | no alphabet character is the padding character '=' |
| Base64.ValueOfSymbol | gravitee-common-elasticsearch/src/main/java/io/gravitee/elasticsearch/client/http/HttpClient.java:374 | each alphabet character reads back as the six bits it encodes |
| Base64.QuantumRoundTrip | gravitee-common-elasticsearch/src/main/java/io/gravitee/elasticsearch/client/http/HttpClient.java:374 | a group of four characters decodes to its three bytes, and to its first one or two bytes when padded |
| Base64.EncodeLength | gravitee-common-elasticsearch/src/main/java/io/gravitee/elasticsearch/client/http/HttpClient.java:374 | n bytes encode as 4 * ceil(n / 3) characters |
| Base64.DecodeEncode | gravitee-common-elasticsearch/src/main/java/io/gravitee/elasticsearch/client/http/HttpClient.java:374 | decoding the padded encoding of any bytes gives the bytes back |
| BasicAuth.UserPass | gravitee-common-elasticsearch/src/main/java/io/gravitee/elasticsearch/client/http/HttpClient.java:373 | the user-pass text is the user name, ':' and the password text, with a null password as "null" |
| BasicAuth.EncodedAuthorization | gravitee-common-elasticsearch/src/main/java/io/gravitee/elasticsearch/client/http/HttpClient.java:372-376 | the header is "Basic " followed by the Base64 of the UTF-8 bytes of the user-pass text |
| BasicAuth.DecodeAuthorization | gravitee-common-elasticsearch/src/main/java/io/gravitee/elasticsearch/client/http/HttpClient.java:372-376 | the part after "Basic " decodes, through Base64 and UTF-8, to exactly the user-pass text |
| BasicAuth.CredentialsRoundTrip | gravitee-common-elasticsearch/src/main/java/io/gravitee/elasticsearch/client/http/HttpClient.java:372-376 | from the header, a user name without ':' and the password text are both recovered |
| BasicAuth.EncodedAuthorizationInjective | gravitee-common-elasticsearch/src/main/java/io/gravitee/elasticsearch/client/http/HttpClient.java:372-376 | for user names without ':' different credentials give different headers |
| BasicAuth.ColonInUsernameIsAmbiguous | gravitee-common-elasticsearch/src/main/java/io/gravitee/elasticsearch/client/http/HttpClient.java:373 | a ':' moved from the user name into the password gives the same header |
| BasicAuth.NullPasswordIsText | gravitee-common-elasticsearch/src/main/java/io/gravitee/elasticsearch/client/http/HttpClient.java:373 | a null password gives the same header as the password "null" |
| BasicAuth.AliceSecretHeader | gravitee-common-elasticsearch/src/main/java/io/gravitee/elasticsearch/client/http/HttpClient.java:372-376 | user alice with password secret gives "Basic YWxpY2U6c2VjcmV0" |
| Responses.Parse | gravitee-common-elasticsearch/src/main/java/io/gravitee/elasticsearch/client/http/HttpClient.java:181-185 | getInfo and getClusterHealth: no answer is a transport failure; an answer succeeds exactly when its body parses, with that value |
| Responses.ParseAcceptsAnyStatus | gravitee-common-elasticsearch/src/main/java/io/gravitee/elasticsearch/client/http/HttpClient.java:195-199 | a non-200 answer whose body parses is accepted by getInfo and getClusterHealth but rejected by the status-checking calls |
| Responses.ExpectOk | gravitee-common-elasticsearch/src/main/java/io/gravitee/elasticsearch/client/http/HttpClient.java:273-279 | count and search succeed exactly on 200 with a body that parses, returning that value; any other status fails with the call's message |
| Responses.ExpectOkCompletion | gravitee-common-elasticsearch/src/main/java/io/gravitee/elasticsearch/client/http/HttpClient.java:240-246 | putTemplate completes exactly on 200 and otherwise fails with its message |
| Responses.RejectionIgnoresBody | gravitee-common-elasticsearch/src/main/java/io/gravitee/elasticsearch/client/http/HttpClient.java:306-310 | a rejected answer gives the same error whatever its body and whatever it would parse to |
| Responses.ExpectOkAgreesWithParseOn200 | gravitee-common-elasticsearch/src/main/java/io/gravitee/elasticsearch/client/http/HttpClient.java:328-334 | on 200 the status-checking handler returns what plain parsing returns |
| Responses.PipelineOutcome | gravitee-common-elasticsearch/src/main/java/io/gravitee/elasticsearch/client/http/HttpClient.java:345-359 | putPipeline completes exactly on 200; 400 and every other status fail with the formatted message of name, status and body |
| Responses.PipelineLogLevel | gravitee-common-elasticsearch/src/main/java/io/gravitee/elasticsearch/client/http/HttpClient.java:345-355 | nothing is logged exactly on 200 and a warning exactly on 400; every other status is an error |
| Responses.PipelineMessage | gravitee-common-elasticsearch/src/main/java/io/gravitee/elasticsearch/client/http/HttpClient.java:357-359 | the message is the fixed text with the name, then the decimal status, then the fixed text with the body |
| Responses.PipelineMessageShowsStatus | gravitee-common-elasticsearch/src/main/java/io/gravitee/elasticsearch/client/http/HttpClient.java:357-359 | with the same name and body, equal pipeline messages imply equal statuses |
| Responses.PipelineRejectionsAlike | gravitee-common-elasticsearch/src/main/java/io/gravitee/elasticsearch/client/http/HttpClient.java:345-359 | 400 and other failing statuses both fail and are logged at different levels |
| Bulk.Logged | gravitee-common-elasticsearch/src/main/java/io/gravitee/elasticsearch/client/http/HttpClient.java:222-226 | one item adds at most one log entry |
| Bulk.Reported | gravitee-common-elasticsearch/src/main/java/io/gravitee/elasticsearch/client/http/HttpClient.java:221-226 | no more errors are logged than there are items |
| Bulk.ReportedAppend | gravitee-common-elasticsearch/src/main/java/io/gravitee/elasticsearch/client/http/HttpClient.java:221-226 | errors are logged in item order: over indexed items the log of a concatenation is the concatenation of the logs |
| Bulk.ReportedStopsAtNull | gravitee-common-elasticsearch/src/main/java/io/gravitee/elasticsearch/client/http/HttpClient.java:222 | nothing after an item without an index result is logged, since the filter dereferences null there |
| Bulk.ReportedExactlyErrors | gravitee-common-elasticsearch/src/main/java/io/gravitee/elasticsearch/client/http/HttpClient.java:220-226 | over indexed items, an entry is logged if and only if it comes from an item whose index error is non-null |
| Bulk.BulkResult | gravitee-common-elasticsearch/src/main/java/io/gravitee/elasticsearch/client/http/HttpClient.java:212-230 | success only on 200 with the parsed response unchanged; non-200 fails with "Unable to bulk index data"; on 200 a response with errors still succeeds unless an item lacks an index result |
| Bulk.ErrorsDoNotFailTheCall | gravitee-common-elasticsearch/src/main/java/io/gravitee/elasticsearch/client/http/HttpClient.java:219-229 | a 200 answer with errors and indexed items is returned as it is, and exactly its item errors are logged |
| Bulk.BulkReported | gravitee-common-elasticsearch/src/main/java/io/gravitee/elasticsearch/client/http/HttpClient.java:219-227 | errors are logged only for a 200 answer whose parsed response reports errors and has an item list, and no more of them than there are items |
| Options.IsHttps | gravitee-common-elasticsearch/src/main/java/io/gravitee/elasticsearch/client/http/HttpClient.java:113 | "https" itself is https, and any scheme that counts as https is five characters long; a null scheme is not |
| Options.PortOf | gravitee-common-elasticsearch/src/main/java/io/gravitee/elasticsearch/client/http/HttpClient.java:112-113 | the explicit port when it is not -1; otherwise 443 exactly for https (ignoring case) and 80 exactly for anything else |
| Options.ProxyTypeOf | gravitee-common-elasticsearch/src/main/java/io/gravitee/elasticsearch/client/http/HttpClient.java:127 | a proxy type is found exactly for the names HTTP, SOCKS4 and SOCKS5; a null name is dereferenced |
| Options.SslOnlyForHttps | gravitee-common-elasticsearch/src/main/java/io/gravitee/elasticsearch/client/http/HttpClient.java:115-123 | SSL and trust-all are on exactly for https; the keystore flag is on exactly for https with an SSL configuration |
| Options.HostAndPortFromEndpoint | gravitee-common-elasticsearch/src/main/java/io/gravitee/elasticsearch/client/http/HttpClient.java:110-113 | the default host is the endpoint host and the default port is PortOf of the endpoint |
| Options.ProxyMatchesScheme | gravitee-common-elasticsearch/src/main/java/io/gravitee/elasticsearch/client/http/HttpClient.java:125-140 | a proxy is set exactly when configured, with all four settings from the HTTPS proxy for https and all from the HTTP proxy otherwise |
| Options.OptionsFor | gravitee-common-elasticsearch/src/main/java/io/gravitee/elasticsearch/client/http/HttpClient.java:110-140 | building the options fails exactly when a proxy is configured with a type that is not a constant name, with that error |
| Options.UpperCaseSchemeIsHttps | gravitee-common-elasticsearch/src/main/java/io/gravitee/elasticsearch/client/http/HttpClient.java:113 | "HTTPS" and "Https" count as https; "http" and a null scheme do not |
| Bytes.Flatten | gravitee-common-elasticsearch/src/main/java/io/gravitee/elasticsearch/client/http/HttpClient.java:205-206 | the payload is empty exactly when every buffer is empty: nothing is inserted between buffers |
| Bytes.TotalLength | gravitee-common-elasticsearch/src/main/java/io/gravitee/elasticsearch/client/http/HttpClient.java:205-206 | the sum of the lengths is at least the length of each buffer |
| Bytes.FlattenLength | gravitee-common-elasticsearch/src/main/java/io/gravitee/elasticsearch/client/http/HttpClient.java:205-206 | the payload has exactly as many bytes as the buffers together |
| Bytes.FlattenContains | gravitee-common-elasticsearch/src/main/java/io/gravitee/elasticsearch/client/http/HttpClient.java:205-206 | every buffer appears in the payload, at the offset given by the lengths of the buffers before it |
| Requests.Intercept | gravitee-common-elasticsearch/src/main/java/io/gravitee/elasticsearch/client/http/HttpClient.java:150-162 | Accept and Accept-Charset are always set; Authorization is set to the header when it exists and left alone otherwise; no other header is added or changed |
| Requests.InterceptIdempotent | gravitee-common-elasticsearch/src/main/java/io/gravitee/elasticsearch/client/http/HttpClient.java:150-162 | running the interceptor twice gives the headers of running it once |
| Requests.Build | gravitee-common-elasticsearch/src/main/java/io/gravitee/elasticsearch/client/http/HttpClient.java:208-211 | a built request carries the verb, URI and body, and only a Content-Type header when one is given |
| Requests.Sent | gravitee-common-elasticsearch/src/main/java/io/gravitee/elasticsearch/client/http/HttpClient.java:150-162 | the interceptor changes only the headers of a request |
| Requests.JsonBody | gravitee-common-elasticsearch/src/main/java/io/gravitee/elasticsearch/client/http/HttpClient.java:238 | a JSON text body is UTF-8 bytes that decode back to the text |
| Requests.ContentTypeKept | gravitee-common-elasticsearch/src/main/java/io/gravitee/elasticsearch/client/http/HttpClient.java:237 | the Content-Type set on a request survives the interceptor |
| Client.PathTable.constructor | gravitee-common-elasticsearch/src/main/java/io/gravitee/elasticsearch/client/http/HttpClient.java:67-73 | before any initialization every path is null |
| Client.PathTable.Current | gravitee-common-elasticsearch/src/main/java/io/gravitee/elasticsearch/client/http/HttpClient.java:67-73 | the table yields a set of paths exactly when all seven are set, listed in the order of the fields |
| Client.PathTable.InitializePaths | gravitee-common-elasticsearch/src/main/java/io/gravitee/elasticsearch/client/http/HttpClient.java:167-177 | afterwards all seven paths are set to the paths derived from the base path |
| Client.HttpClient.constructor | gravitee-common-elasticsearch/src/main/java/io/gravitee/elasticsearch/client/http/HttpClient.java:99-101 | a new client holds its configuration, with no web client and no authorization header |
| Client.HttpClient.SetConfiguration | gravitee-common-elasticsearch/src/main/java/io/gravitee/elasticsearch/client/http/HttpClient.java:378-380 | only the configuration changes |
| Client.HttpClient.Initialize | gravitee-common-elasticsearch/src/main/java/io/gravitee/elasticsearch/client/http/HttpClient.java:104-165 | no endpoint changes nothing; a null path fails before anything changes; otherwise the paths come from endpoints[0], then the options are built or the proxy-type error is returned, and the header is replaced only when a user name is configured |
| Client.HttpClient.Dispatch | gravitee-common-elasticsearch/src/main/java/io/gravitee/elasticsearch/client/http/HttpClient.java:150-162 | every request carries Accept and Accept-Charset, carries Authorization exactly when the client holds a header, and keeps its Content-Type |
| Client.HttpClient.GetInfo | gravitee-common-elasticsearch/src/main/java/io/gravitee/elasticsearch/client/http/HttpClient.java:180-186 | GET of the root path with the result of Parse; before initialization nothing is sent and the call fails on null |
| Client.HttpClient.GetClusterHealth | gravitee-common-elasticsearch/src/main/java/io/gravitee/elasticsearch/client/http/HttpClient.java:195-200 | GET of the cluster health path with the result of Parse |
| Client.HttpClient.Bulk | gravitee-common-elasticsearch/src/main/java/io/gravitee/elasticsearch/client/http/HttpClient.java:203-231 | POST of the in-order concatenation of the buffers as NDJSON to the bulk path; its length is the sum of theirs; the result is BulkResult and the log is the reported item errors |
| Client.HttpClient.PutTemplate | gravitee-common-elasticsearch/src/main/java/io/gravitee/elasticsearch/client/http/HttpClient.java:234-248 | PUT of the template as JSON to the template path plus '/' and the name, completing exactly on 200 |
| Client.HttpClient.IndexedUrlOf | gravitee-common-elasticsearch/src/main/java/io/gravitee/elasticsearch/client/http/HttpClient.java:259-267 | the URL built step by step is '/', the indexes, "/type" when a type is given, and the endpoint path |
| Client.HttpClient.Count | gravitee-common-elasticsearch/src/main/java/io/gravitee/elasticsearch/client/http/HttpClient.java:257-281 | POST of the query as JSON to the indexed count URL, succeeding exactly on 200 |
| Client.HttpClient.Search | gravitee-common-elasticsearch/src/main/java/io/gravitee/elasticsearch/client/http/HttpClient.java:290-314 | POST of the query as JSON to the indexed search URL, succeeding exactly on 200 |
| Client.HttpClient.CountAt | gravitee-common-elasticsearch/src/main/java/io/gravitee/elasticsearch/client/http/HttpClient.java:322-336 | POST of the query to the caller's URL unchanged, succeeding exactly on 200 |
| Client.HttpClient.PutPipeline | gravitee-common-elasticsearch/src/main/java/io/gravitee/elasticsearch/client/http/HttpClient.java:339-361 | PUT of the pipeline as JSON to the ingest path plus '/' and the name, with the outcome of PipelineOutcome and its log level |
| Client.InitializeRedirectsOthers | gravitee-common-elasticsearch/src/main/java/io/gravitee/elasticsearch/client/http/HttpClient.java:67-73 | initializing one client sets the paths another client on the same table uses, with nothing else of that client changed |
| Client.NewInitialized | gravitee-common-elasticsearch/src/main/java/io/gravitee/elasticsearch/client/http/HttpClient.java:145-148 | for a new client, once initialization passes with an endpoint, the authorization header exists exactly when a user name is configured |

## Left out

- Vert.x and RxJava are not modelled: `WebClient.create`, `rxSend` and `rxSendBuffer`, `Single` and `Completable`. A call is synchronous. The server's answer, or its absence, is an input.
- Jackson deserialization is not modelled. The parsed value of a body is an input (`parsed`), and the parsed types other than the bulk answer are type parameters.
- Logging is not modelled as output. There are two exceptions: the item errors bulk logs (`reported`) and the putPipeline log level. The transport-error log of getInfo is left out.
- `URI.create` is not modelled. The endpoint is taken as already split into scheme, host, port and path. An endpoint URL that does not parse is not modelled.
- The request timeout the interceptor sets (`getRequestTimeout`) is not modelled, because it concerns time. The interceptor is modelled by the headers it sets.
- The keystore content is not modelled. `ClientOptions.keyCertOptions` only records whether keystore options were set.
- The range checks Vert.x makes on proxy options are not modelled: a null proxy host and a port outside 0..65535.
- The bodies of putTemplate, count, search and putPipeline are non-null texts. A null `template`, `query` or `pipeline` would fail inside Vert.x's `Buffer.buffer`, and that failure is not modelled.
- Header names are compared exactly. Vert.x compares them ignoring case.
- `equalsIgnoreCase` folds ASCII letters only. Java also folds other Unicode letters, but a URI scheme is ASCII.
- Unpaired UTF-16 surrogates cannot occur. A Dafny `char` is a Unicode scalar value, so Java's replacement of unpaired surrogates in `getBytes` is not modelled.
- Client.HttpClient.Initialize: the interceptor is not registered as a closure. `Dispatch` reads the current `authorizationHeader` at the time of sending, as the interceptor does.
- Client.HttpClient.GetInfo, GetClusterHealth, Bulk, PutTemplate, Count, Search, PutPipeline: these require the class invariant `Valid()`: a created web client implies the shared paths are set. The Java code guarantees this because its static paths are never reset to null.
- Responses.Parse, Responses.ExpectOk, Bulk.BulkResult: the parsed value is an input that is not tied to the body. A null body with a parsed value is accepted, whereas Jackson's `readValue` fails on a null `bodyAsString()`.
- The UTF-8 and Base64 decoders exist only to state the round trips. They are not validating decoders: they accept overlong UTF-8 forms and non-zero pad bits. Encode never yields either: `Utf8.EncodeChar` fixes the shortest length and `Base64.Encode` fixes the pad bits at zero.
- Null list elements are not modelled: `seq<seq<byte>>` and `seq<BulkItem>` cannot hold null. A null buffer in bulk's `data` fails when it is appended (HttpClient.java line 206), and a null element of the bulk item list fails in the filter (line 222).
- Spring wiring is not modelled: `@Autowired` and `@PostConstruct`, and the no-argument constructor with its default configuration.
