/** The requests the client sends and the headers every request gets from the interceptor
    installed at initialization (HttpClient.java: initialize, bulk, putTemplate, count,
    search, putPipeline). */
module Requests {
  import opened Wrappers
  import opened Bytes
  import Utf8

  datatype Verb = GET | POST | PUT

  /** A request as it leaves the client: verb, request URI, headers and body bytes. */
  datatype Request = Request(verb: Verb, uri: string, headers: map<string, string>, body: seq<byte>)

  const AcceptHeader := "Accept"
  const AcceptCharsetHeader := "Accept-Charset"
  const AuthorizationHeader := "Authorization"
  const ContentTypeHeader := "Content-Type"

  const Json := "application/json"
  const JsonUtf8 := Json + ";charset=UTF-8"
  const NdJson := "application/x-ndjson"
  const Utf8Name := "UTF-8"

  /** The headers the interceptor may set. */
  predicate IsInterceptorHeader(name: string)
  {
    name == AcceptHeader || name == AcceptCharsetHeader || name == AuthorizationHeader
  }

  /** The interceptor: Accept and Accept-Charset are set on every request, Authorization
      only while an authorization header is known; every other header is kept. */
  function Intercept(headers: map<string, string>, authorization: Option<string>): (h: map<string, string>)
    ensures AcceptHeader in h && h[AcceptHeader] == JsonUtf8
    ensures AcceptCharsetHeader in h && h[AcceptCharsetHeader] == Utf8Name
    ensures authorization.Some? ==> AuthorizationHeader in h && h[AuthorizationHeader] == authorization.value
    ensures authorization.None? ==> (AuthorizationHeader in h <==> AuthorizationHeader in headers)
    ensures authorization.None? && AuthorizationHeader in headers ==> h[AuthorizationHeader] == headers[AuthorizationHeader]
    ensures forall k :: k in headers && !IsInterceptorHeader(k) ==> k in h && h[k] == headers[k]
    ensures forall k :: k in h ==> k in headers || IsInterceptorHeader(k)
  {
    var h := headers[AcceptHeader := JsonUtf8][AcceptCharsetHeader := Utf8Name];
    if authorization.Some? then h[AuthorizationHeader := authorization.value] else h
  }

  /** Sending twice through the interceptor changes nothing more. */
  lemma InterceptIdempotent(headers: map<string, string>, authorization: Option<string>)
    ensures Intercept(Intercept(headers, authorization), authorization) == Intercept(headers, authorization)
  {
  }

  /** A request built by the client, before the interceptor runs. */
  function Build(verb: Verb, uri: string, contentType: Option<string>, body: seq<byte>): (r: Request)
    ensures r.verb == verb && r.uri == uri && r.body == body
    ensures contentType.Some? ==> r.headers == map[ContentTypeHeader := contentType.value]
    ensures contentType.None? ==> r.headers == map[]
  {
    Request(verb, uri, if contentType.Some? then map[ContentTypeHeader := contentType.value] else map[], body)
  }

  /** The request as sent, with the headers of the interceptor. */
  function Sent(r: Request, authorization: Option<string>): (s: Request)
    ensures s.verb == r.verb && s.uri == r.uri && s.body == r.body
    ensures s.headers == Intercept(r.headers, authorization)
  {
    r.(headers := Intercept(r.headers, authorization))
  }

  /** A JSON body: the text encoded in UTF-8. */
  function JsonBody(text: string): (body: seq<byte>)
    ensures Utf8.Decode(body) == Some(text)
  {
    Utf8.DecodeEncode(text);
    Utf8.Encode(text)
  }

  /** The content type survives the interceptor. */
  lemma ContentTypeKept(verb: Verb, uri: string, contentType: string, body: seq<byte>, authorization: Option<string>)
    ensures var s := Sent(Build(verb, uri, Some(contentType), body), authorization);
      ContentTypeHeader in s.headers && s.headers[ContentTypeHeader] == contentType
  {
  }
}
