/** The configuration the client reads and the web-client options it derives from the first
    endpoint (HttpClient.java: initialize). */
module Options {
  import opened Wrappers
  import opened JavaText
  import opened Responses

  const HttpsScheme := "https"
  const HttpsDefaultPort := 443
  const HttpDefaultPort := 80
  /** java.net.URI reports an absent port as -1. */
  const UndefinedPort := -1

  /** An endpoint URL as java.net.URI splits it; a component that is absent is None. */
  datatype Uri = Uri(scheme: Option<string>, host: Option<string>, port: int, path: Option<string>)

  /** The settings of one proxy: the HTTP one or the HTTPS one. */
  datatype ProxySettings = ProxySettings(host: Option<string>, port: int,
                                         username: Option<string>, password: Option<string>)

  /** The client configuration; `proxyType` is the name of a proxy type and `hasSslConfig`
      says whether an SSL keystore configuration is present. */
  datatype Configuration = Configuration(
    endpoints: seq<Uri>,
    hasSslConfig: bool,
    proxyConfigured: bool,
    proxyType: Option<string>,
    httpProxy: ProxySettings,
    httpsProxy: ProxySettings,
    username: Option<string>,
    password: Option<string>)

  datatype ProxyType = HTTP | SOCKS4 | SOCKS5

  datatype ProxyOptions = ProxyOptions(proxyType: ProxyType, settings: ProxySettings)

  /** The web-client options the client sets; the others keep their defaults. */
  datatype ClientOptions = ClientOptions(
    defaultHost: Option<string>,
    defaultPort: int,
    ssl: bool,
    trustAll: bool,
    keyCertOptions: bool,
    proxy: Option<ProxyOptions>)

  /** "https".equalsIgnoreCase(scheme): false for a null scheme. */
  predicate IsHttps(scheme: Option<string>)
    ensures scheme == Some(HttpsScheme) ==> IsHttps(scheme)
    ensures IsHttps(scheme) ==> scheme.Some? && |scheme.value| == |HttpsScheme|
  {
    EqualsIgnoreCase(HttpsScheme, scheme)
  }

  /** The port to connect to: the explicit one, or else the default of the scheme. */
  function PortOf(uri: Uri): (port: int)
    ensures uri.port != UndefinedPort ==> port == uri.port
    ensures uri.port == UndefinedPort ==> (port == HttpsDefaultPort <==> IsHttps(uri.scheme))
    ensures uri.port == UndefinedPort ==> (port == HttpDefaultPort <==> !IsHttps(uri.scheme))
  {
    if uri.port != UndefinedPort then uri.port
    else if IsHttps(uri.scheme) then HttpsDefaultPort
    else HttpDefaultPort
  }

  /** ProxyType.valueOf: the constant of exactly that name; a null name is dereferenced. */
  function ProxyTypeOf(name: Option<string>): (r: Result<ProxyType, Error>)
    ensures r.Success? <==> name.Some? && name.value in {"HTTP", "SOCKS4", "SOCKS5"}
    ensures name.None? ==> r == Failure(NullPointer)
  {
    if name.None? then Failure(NullPointer)
    else if name.value == "HTTP" then Success(HTTP)
    else if name.value == "SOCKS4" then Success(SOCKS4)
    else if name.value == "SOCKS5" then Success(SOCKS5)
    else Failure(IllegalArgument)
  }

  /** The proxy settings that go with the scheme of the endpoint. */
  function ProxySettingsFor(c: Configuration, uri: Uri): ProxySettings
  {
    if IsHttps(uri.scheme) then c.httpsProxy else c.httpProxy
  }

  /** The options the client is created with, or the error raised while building them:
      building them fails only on a proxy type that is not a constant name. */
  function OptionsFor(c: Configuration, uri: Uri): (r: Result<ClientOptions, Error>)
    ensures r.Failure? <==> c.proxyConfigured && ProxyTypeOf(c.proxyType).Failure?
    ensures r.Failure? ==> r.error == ProxyTypeOf(c.proxyType).error
  {
    var https := IsHttps(uri.scheme);
    var proxy :=
      if !c.proxyConfigured then Success(None)
      else match ProxyTypeOf(c.proxyType)
        case Failure(e) => Failure(e)
        case Success(t) => Success(Some(ProxyOptions(t, ProxySettingsFor(c, uri))));
    match proxy
    case Failure(e) => Failure(e)
    case Success(p) =>
      Success(ClientOptions(uri.host, PortOf(uri), https, https, https && c.hasSslConfig, p))
  }

  /** SSL is on, and every server certificate trusted, exactly for an https endpoint (the
      scheme compared ignoring case), keystore or not; the keystore is used only for https. */
  lemma SslOnlyForHttps(c: Configuration, uri: Uri)
    requires OptionsFor(c, uri).Success?
    ensures var o := OptionsFor(c, uri).value;
      && (o.ssl <==> IsHttps(uri.scheme))
      && (o.trustAll <==> IsHttps(uri.scheme))
      && (o.keyCertOptions <==> IsHttps(uri.scheme) && c.hasSslConfig)
  {
  }

  /** The host and the port come from the endpoint, with the scheme's default port. */
  lemma HostAndPortFromEndpoint(c: Configuration, uri: Uri)
    requires OptionsFor(c, uri).Success?
    ensures OptionsFor(c, uri).value.defaultHost == uri.host
    ensures OptionsFor(c, uri).value.defaultPort == PortOf(uri)
  {
  }

  /** The proxy is set exactly when one is configured, with all four settings taken from the
      proxy matching the scheme: never a mix of the HTTP and the HTTPS ones. */
  lemma ProxyMatchesScheme(c: Configuration, uri: Uri)
    requires OptionsFor(c, uri).Success?
    ensures var o := OptionsFor(c, uri).value;
      && (o.proxy.Some? <==> c.proxyConfigured)
      && (o.proxy.Some? && IsHttps(uri.scheme) ==> o.proxy.value.settings == c.httpsProxy)
      && (o.proxy.Some? && !IsHttps(uri.scheme) ==> o.proxy.value.settings == c.httpProxy)
      && (o.proxy.Some? ==> ProxyTypeOf(c.proxyType) == Success(o.proxy.value.proxyType))
  {
  }

  /** The scheme is compared ignoring case: "HTTPS" is https as well. */
  lemma UpperCaseSchemeIsHttps()
    ensures IsHttps(Some("HTTPS")) && IsHttps(Some("Https"))
    ensures !IsHttps(Some("http")) && !IsHttps(None)
  {
  }
}
