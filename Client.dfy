/** The client object: its initialization from the configuration and the calls it makes
    (HttpClient.java). */
module Client {
  import opened Wrappers
  import opened Bytes
  import opened JavaText
  import opened Paths
  import opened Responses
  import opened Bulk
  import opened Options
  import opened Requests
  import BasicAuth

  /**
   * The seven request paths. The Java class keeps them in static fields, written by the
   * initialization of any instance and read by every instance; here every client holds a
   * reference to one shared table. A field is None while it is still null.
   */
  class PathTable {
    var root: Option<string>
    var clusterHealth: Option<string>
    var bulk: Option<string>
    var template: Option<string>
    var ingest: Option<string>
    var search: Option<string>
    var count: Option<string>

    /** Before any initialization every path is null. */
    constructor ()
      ensures Current() == None
      ensures root.None? && clusterHealth.None? && bulk.None? && template.None?
      ensures ingest.None? && search.None? && count.None?
    {
      root, clusterHealth, bulk, template := None, None, None, None;
      ingest, search, count := None, None, None;
    }

    predicate Ready()
      reads this
    {
      root.Some? && clusterHealth.Some? && bulk.Some? && template.Some?
      && ingest.Some? && search.Some? && count.Some?
    }

    /** The paths, once all seven are set. */
    function Current(): (r: Option<DerivedPaths>)
      reads this
      ensures r.Some? <==> Ready()
      ensures r.Some? ==> (r.value.All() ==
        [root.value, clusterHealth.value, bulk.value, template.value, ingest.value, search.value, count.value])
    {
      if Ready() then
        Some(DerivedPaths(root.value, clusterHealth.value, bulk.value, template.value,
          ingest.value, search.value, count.value))
      else None
    }

    /** initializePaths: strip the trailing slash of the base path once, then append the
        suffix of each path to it. */
    method InitializePaths(basePath: string)
      modifies this
      ensures Ready() && Current() == Some(Derive(basePath))
    {
      var urlPrefix := StripTrailingSlash(basePath);
      root := Some(urlPrefix + RootSuffix);
      clusterHealth := Some(urlPrefix + ClusterHealthSuffix);
      bulk := Some(urlPrefix + BulkSuffix);
      template := Some(urlPrefix + TemplateSuffix);
      ingest := Some(urlPrefix + IngestSuffix);
      search := Some(urlPrefix + SearchSuffix);
      count := Some(urlPrefix + CountSuffix);
    }
  }

  class HttpClient {
    const paths: PathTable
    var configuration: Configuration
    /** The web client, None while it is null; it is created with these options. */
    var client: Option<ClientOptions>
    /** The precomputed Basic authorization header, None while it is null. */
    var authorizationHeader: Option<string>

    /** A created web client implies that the shared paths have been set. */
    predicate Valid()
      reads this, paths
    {
      client.Some? ==> paths.Ready()
    }

    constructor (paths: PathTable, configuration: Configuration)
      ensures this.paths == paths && this.configuration == configuration
      ensures client.None? && authorizationHeader.None?
      ensures Valid()
    {
      this.paths := paths;
      this.configuration := configuration;
      client := None;
      authorizationHeader := None;
    }

    method SetConfiguration(configuration: Configuration)
      modifies this
      ensures this.configuration == configuration
      ensures client == old(client) && authorizationHeader == old(authorizationHeader)
    {
      this.configuration := configuration;
    }

    /**
     * initialize: only the first endpoint is used, and nothing happens without one. The
     * paths are set first, then the options are built; a proxy type that is not a constant
     * name fails after the paths were set and before the web client exists. The
     * authorization header is computed only when a user name is configured; otherwise the
     * previous one stays.
     */
    method Initialize() returns (outcome: Outcome<Error>)
      requires Valid()
      modifies this, paths
      ensures Valid()
      ensures configuration == old(configuration)
      ensures outcome.Pass? ==> old(configuration.endpoints) == [] || client.Some?
      ensures old(configuration.endpoints) == [] ==>
        && outcome == Pass && client == old(client) && authorizationHeader == old(authorizationHeader)
        && paths.Current() == old(paths.Current()) && unchanged(paths)
      ensures old(configuration.endpoints) != [] && old(configuration.endpoints[0].path).None? ==>
        && outcome == Fail(NullPointer) && client == old(client) && authorizationHeader == old(authorizationHeader)
        && paths.Current() == old(paths.Current()) && unchanged(paths)
      ensures old(configuration.endpoints) != [] && old(configuration.endpoints[0].path).Some? ==>
        var c := old(configuration);
        var uri := c.endpoints[0];
        && paths.Current() == Some(Derive(uri.path.value))
        && (OptionsFor(c, uri).Failure? ==>
              && outcome == Fail(OptionsFor(c, uri).error)
              && client == old(client) && authorizationHeader == old(authorizationHeader))
        && (OptionsFor(c, uri).Success? ==>
              && outcome == Pass && client == Some(OptionsFor(c, uri).value)
              && (c.username.Some? ==>
                    authorizationHeader == Some(BasicAuth.EncodedAuthorization(c.username.value, c.password)))
              && (c.username.None? ==> authorizationHeader == old(authorizationHeader)))
    {
      if configuration.endpoints == [] {
        return Pass;
      }
      var uri := configuration.endpoints[0];
      if uri.path.None? {
        return Fail(NullPointer);
      }
      paths.InitializePaths(uri.path.value);

      var https := IsHttps(uri.scheme);
      var port := if uri.port != UndefinedPort then uri.port
        else if https then HttpsDefaultPort else HttpDefaultPort;
      var options := ClientOptions(uri.host, port, false, false, false, None);
      if https {
        options := options.(ssl := true, trustAll := true);
        if configuration.hasSslConfig {
          options := options.(keyCertOptions := true);
        }
      }
      if configuration.proxyConfigured {
        var proxyType := ProxyTypeOf(configuration.proxyType);
        if proxyType.Failure? {
          return Fail(proxyType.error);
        }
        var settings := if https then configuration.httpsProxy else configuration.httpProxy;
        options := options.(proxy := Some(ProxyOptions(proxyType.value, settings)));
      }
      client := Some(options);

      if configuration.username.Some? {
        authorizationHeader := Some(BasicAuth.EncodedAuthorization(configuration.username.value, configuration.password));
      }
      return Pass;
    }

    /** A request as the web client sends it: the interceptor reads the authorization
        header at the time of sending. */
    function Dispatch(verb: Verb, uri: string, contentType: Option<string>, body: seq<byte>): (r: Request)
      reads this
      ensures r.verb == verb && r.uri == uri && r.body == body
      ensures AcceptHeader in r.headers && r.headers[AcceptHeader] == JsonUtf8
      ensures AcceptCharsetHeader in r.headers && r.headers[AcceptCharsetHeader] == Utf8Name
      ensures AuthorizationHeader in r.headers <==> authorizationHeader.Some?
      ensures authorizationHeader.Some? ==> r.headers[AuthorizationHeader] == authorizationHeader.value
      ensures contentType.Some? ==> ContentTypeHeader in r.headers && r.headers[ContentTypeHeader] == contentType.value
    {
      Sent(Build(verb, uri, contentType, body), authorizationHeader)
    }

    /** getInfo: GET the root path; the body is parsed whatever the status. `answer` is what
        the server answers to `sent` and `parsed` its body as the result type. */
    method GetInfo<T>(answer: Option<Reply>, parsed: Option<T>) returns (sent: Option<Request>, result: Result<T, Error>)
      requires Valid()
      ensures client.None? ==> sent.None? && result == Failure(NullPointer)
      ensures client.Some? ==> sent == Some(Dispatch(GET, paths.root.value, None, [])) && result == Parse(answer, parsed)
    {
      if client.None? {
        return None, Failure(NullPointer);
      }
      sent := Some(Dispatch(GET, paths.root.value, None, []));
      result := Parse(answer, parsed);
    }

    /** getClusterHealth: GET the cluster health path; the body is parsed whatever the status. */
    method GetClusterHealth<T>(answer: Option<Reply>, parsed: Option<T>) returns (sent: Option<Request>, result: Result<T, Error>)
      requires Valid()
      ensures client.None? ==> sent.None? && result == Failure(NullPointer)
      ensures client.Some? ==> sent == Some(Dispatch(GET, paths.clusterHealth.value, None, [])) && result == Parse(answer, parsed)
    {
      if client.None? {
        return None, Failure(NullPointer);
      }
      sent := Some(Dispatch(GET, paths.clusterHealth.value, None, []));
      result := Parse(answer, parsed);
    }

    /** bulk: the buffers are copied, in order, into one payload, which is POSTed as
        newline-delimited JSON. Besides the result, `reported` is the indexing errors logged. */
    method Bulk(data: seq<seq<byte>>, answer: Option<Reply>, parsed: Option<BulkResponse>)
      returns (sent: Option<Request>, reported: seq<ReportedError>, result: Result<BulkResponse, Error>)
      requires Valid()
      ensures client.None? ==> sent.None? && reported == [] && result == Failure(NullPointer)
      ensures client.Some? ==>
        && sent == Some(Dispatch(POST, paths.bulk.value, Some(NdJson), Flatten(data)))
        && |sent.value.body| == TotalLength(data)
        && result == BulkResult(answer, parsed)
        && reported == BulkReported(answer, parsed)
    {
      var payload: seq<byte> := [];
      var i := 0;
      while i < |data|
        invariant 0 <= i <= |data|
        invariant payload == Flatten(data[..i])
      {
        assert data[..i + 1][..i] == data[..i];
        payload := payload + data[i];
        i := i + 1;
      }
      assert data[..|data|] == data;
      FlattenLength(data);
      if client.None? {
        return None, [], Failure(NullPointer);
      }
      sent := Some(Dispatch(POST, paths.bulk.value, Some(NdJson), payload));
      result := BulkResult(answer, parsed);
      reported := BulkReported(answer, parsed);
    }

    /** putTemplate: PUT the template, as JSON, under the template path followed by '/' and
        the name; completes on 200 only. */
    method PutTemplate(templateName: Option<string>, template: string, answer: Option<Reply>)
      returns (sent: Option<Request>, result: Outcome<Error>)
      requires Valid()
      ensures client.None? ==> sent.None? && result == Fail(NullPointer)
      ensures client.Some? ==>
        && sent == Some(Dispatch(PUT, NamedUrl(paths.template.value, templateName), Some(Json), JsonBody(template)))
        && result == ExpectOkCompletion(answer, TemplateFailure)
    {
      if client.None? {
        return None, Fail(NullPointer);
      }
      sent := Some(Dispatch(PUT, NamedUrl(paths.template.value, templateName), Some(Json), JsonBody(template)));
      result := ExpectOkCompletion(answer, TemplateFailure);
    }

    /** The URL of count and search, built step by step: '/', the indexes, "/type" when a
        type is given, then the endpoint path. */
    static method IndexedUrlOf(indexes: Option<string>, docType: Option<string>, endpoint: Option<string>)
      returns (url: string)
      ensures url == IndexedUrl(indexes, docType, Text(endpoint))
    {
      url := "/";
      url := url + Text(indexes);
      if docType.Some? {
        url := url + "/" + docType.value;
      }
      url := url + Text(endpoint);
      assert url == "/" + Text(indexes) + TypeSegment(docType) + Text(endpoint);
    }

    /** count: POST the query to the count path of the given indexes and type; 200 only. */
    method Count<T>(indexes: Option<string>, docType: Option<string>, query: string,
                    answer: Option<Reply>, parsed: Option<T>)
      returns (sent: Option<Request>, result: Result<T, Error>)
      requires Valid()
      ensures client.None? ==> sent.None? && result == Failure(NullPointer)
      ensures client.Some? ==>
        && sent == Some(Dispatch(POST, IndexedUrl(indexes, docType, paths.count.value), Some(Json), JsonBody(query)))
        && result == ExpectOk(answer, parsed, CountFailure)
    {
      var url := IndexedUrlOf(indexes, docType, paths.count);
      if client.None? {
        return None, Failure(NullPointer);
      }
      sent := Some(Dispatch(POST, url, Some(Json), JsonBody(query)));
      result := ExpectOk(answer, parsed, CountFailure);
    }

    /** search: POST the query to the search path of the given indexes and type; 200 only. */
    method Search<T>(indexes: Option<string>, docType: Option<string>, query: string,
                     answer: Option<Reply>, parsed: Option<T>)
      returns (sent: Option<Request>, result: Result<T, Error>)
      requires Valid()
      ensures client.None? ==> sent.None? && result == Failure(NullPointer)
      ensures client.Some? ==>
        && sent == Some(Dispatch(POST, IndexedUrl(indexes, docType, paths.search.value), Some(Json), JsonBody(query)))
        && result == ExpectOk(answer, parsed, SearchFailure)
    {
      var url := IndexedUrlOf(indexes, docType, paths.search);
      if client.None? {
        return None, Failure(NullPointer);
      }
      sent := Some(Dispatch(POST, url, Some(Json), JsonBody(query)));
      result := ExpectOk(answer, parsed, SearchFailure);
    }

    /** count with a URL given by the caller, used as it is; 200 only. */
    method CountAt<T>(url: string, query: string, answer: Option<Reply>, parsed: Option<T>)
      returns (sent: Option<Request>, result: Result<T, Error>)
      ensures client.None? ==> sent.None? && result == Failure(NullPointer)
      ensures client.Some? ==>
        && sent == Some(Dispatch(POST, url, Some(Json), JsonBody(query)))
        && result == ExpectOk(answer, parsed, CountFailure)
    {
      if client.None? {
        return None, Failure(NullPointer);
      }
      sent := Some(Dispatch(POST, url, Some(Json), JsonBody(query)));
      result := ExpectOk(answer, parsed, CountFailure);
    }

    /** putPipeline: PUT the pipeline, as JSON, under the ingest path followed by '/' and the
        name. `level` is how the answer is logged. */
    method PutPipeline(pipelineName: Option<string>, pipeline: string, answer: Option<Reply>)
      returns (sent: Option<Request>, result: Outcome<Error>, level: LogLevel)
      requires Valid()
      ensures client.None? ==> sent.None? && result == Fail(NullPointer) && level == Silent
      ensures client.Some? ==>
        && sent == Some(Dispatch(PUT, NamedUrl(paths.ingest.value, pipelineName), Some(Json), JsonBody(pipeline)))
        && result == PipelineOutcome(pipelineName, answer)
        && level == (if answer.Some? then PipelineLogLevel(answer.value.status) else Silent)
    {
      if client.None? {
        return None, Fail(NullPointer), Silent;
      }
      sent := Some(Dispatch(PUT, NamedUrl(paths.ingest.value, pipelineName), Some(Json), JsonBody(pipeline)));
      result := PipelineOutcome(pipelineName, answer);
      level := if answer.Some? then PipelineLogLevel(answer.value.status) else Silent;
    }
  }

  /** The paths are shared: initializing one client redirects the calls of every other client
      built on the same table, although that client itself is not touched. */
  method InitializeRedirectsOthers(a: HttpClient, b: HttpClient) returns (outcome: Outcome<Error>)
    requires a != b && a.paths == b.paths && a.Valid() && b.Valid()
    requires b.configuration.endpoints != [] && b.configuration.endpoints[0].path.Some?
    modifies b, b.paths
    ensures a.client == old(a.client) && a.authorizationHeader == old(a.authorizationHeader)
    ensures a.Valid()
    ensures a.paths.Current() == Some(Derive(old(b.configuration.endpoints[0].path.value)))
  {
    outcome := b.Initialize();
  }

  /** A new client initialized once: without an endpoint nothing exists; once initialization
      passes with an endpoint, the web client exists and the authorization header exists
      exactly when a user name is configured. */
  method NewInitialized(paths: PathTable, configuration: Configuration)
    returns (c: HttpClient, outcome: Outcome<Error>)
    modifies paths
    ensures fresh(c) && c.paths == paths && c.configuration == configuration && c.Valid()
    ensures configuration.endpoints == [] ==> outcome == Pass && c.client.None? && c.authorizationHeader.None?
    ensures configuration.endpoints != [] && outcome.Pass? ==>
      c.client.Some? && (c.authorizationHeader.Some? <==> configuration.username.Some?)
    ensures outcome.Fail? ==> c.client.None? && c.authorizationHeader.None?
  {
    c := new HttpClient(paths, configuration);
    outcome := c.Initialize();
  }
}
