/** The request paths the client derives from the endpoint's base path, and the URLs it
    builds from them (HttpClient.java: initializePaths, count, search, putTemplate, putPipeline). */
module Paths {
  import opened Wrappers
  import opened JavaText

  /** The characters java.util.regex treats as line terminators when UNIX_LINES is off
      ("\r\n" is the one two-character terminator). */
  predicate IsLineTerminator(c: char)
  {
    c == '\n' || c == '\r' || c == '\U{85}' || c == '\U{2028}' || c == '\U{2029}'
  }

  /** Where the regular expression `$` (without MULTILINE) matches in `s`: at the end, before
      a line terminator that ends the input, and before a final "\r\n", but never between
      the '\r' and the '\n' of that final "\r\n". */
  predicate DollarAt(s: string, i: int)
    ensures DollarAt(s, i) ==> |s| - 2 <= i <= |s|
  {
    || i == |s|
    || (i == |s| - 1 && i >= 0 && IsLineTerminator(s[i]) && !(s[i] == '\n' && i > 0 && s[i - 1] == '\r'))
    || (i == |s| - 2 && i >= 0 && s[i] == '\r' && s[i + 1] == '\n')
  }

  /** A final "\r\n" is one terminator: `$` matches before it, not between its characters. */
  lemma DollarBeforeFinalCrLf(s: string)
    ensures DollarAt(s + "\r\n", |s|) && !DollarAt(s + "\r\n", |s| + 1)
  {
    var t := s + "\r\n";
    assert t[|s|] == '\r' && t[|s| + 1] == '\n';
  }

  /** The regular expression "/$" matches at position i. */
  predicate SlashMatchAt(s: string, i: int)
    ensures SlashMatchAt(s, i) ==> |s| - 3 <= i < |s|
  {
    0 <= i < |s| && s[i] == '/' && DollarAt(s, i + 1)
  }

  /** `r` is `path` without the slash at position i, where "/$" matches. */
  predicate RemovedAt(path: string, r: string, i: int)
  {
    SlashMatchAt(path, i) && r == path[..i] + path[i + 1..]
  }

  /** `path.replaceAll("/$", "")`: remove the slash that ends the path, or that stands just
      before a final line terminator. */
  function StripTrailingSlash(path: string): (r: string)
    ensures r == path || exists i :: RemovedAt(path, r, i)
  {
    var n := |path|;
    if n >= 1 && path[n - 1] == '/' then
      var r := path[..n - 1];
      assert r == path[..n - 1] + path[n..];
      assert RemovedAt(path, r, n - 1);
      r
    else if n >= 2 && path[n - 2] == '/' && IsLineTerminator(path[n - 1]) then
      var r := path[..n - 2] + path[n - 1..];
      assert RemovedAt(path, r, n - 2);
      r
    else if n >= 3 && path[n - 3] == '/' && path[n - 2] == '\r' && path[n - 1] == '\n' then
      var r := path[..n - 3] + path[n - 2..];
      assert RemovedAt(path, r, n - 3);
      r
    else path
  }

  /** "/$" matches at most once in any string, so replaceAll removes at most one slash. */
  lemma SlashMatchUnique(s: string, i: int, j: int)
    requires SlashMatchAt(s, i) && SlashMatchAt(s, j)
    ensures i == j
  {
  }

  /** Where "/$" matches, replaceAll removes exactly that slash and keeps everything else. */
  lemma StripRemovesMatch(path: string, i: int)
    requires SlashMatchAt(path, i)
    ensures StripTrailingSlash(path) == path[..i] + path[i + 1..]
  {
  }

  /** Where "/$" does not match, replaceAll leaves the path as it is. */
  lemma StripWithoutMatch(path: string)
    requires forall i :: 0 <= i < |path| ==> !SlashMatchAt(path, i)
    ensures StripTrailingSlash(path) == path
  {
    var n := |path|;
    assert !(n >= 1 && path[n - 1] == '/') by {
      if n >= 1 { assert !SlashMatchAt(path, n - 1); }
    }
    assert !(n >= 2 && path[n - 2] == '/' && IsLineTerminator(path[n - 1])) by {
      if n >= 2 { assert !SlashMatchAt(path, n - 2); }
    }
    assert !(n >= 3 && path[n - 3] == '/' && path[n - 2] == '\r' && path[n - 1] == '\n') by {
      if n >= 3 { assert !SlashMatchAt(path, n - 3); }
    }
  }

  /** Only one slash goes: a path ending in two slashes keeps the first. */
  lemma StripOnlyOneSlash(p: string)
    ensures StripTrailingSlash(p + "//") == p + "/"
  {
    assert (p + "//")[..|p| + 1] == p + "/";
  }

  /** A slash before a final newline is removed too, and the newline stays. */
  lemma StripBeforeNewline()
    ensures StripTrailingSlash("/es/\n") == "/es\n"
  {
    assert "/es/\n"[..3] + "/es/\n"[4..] == "/es\n";
  }

  /** The seven request paths, all fixed at initialization: URL_ROOT, URL_STATE_CLUSTER,
      URL_BULK, URL_TEMPLATE, URL_INGEST, URL_SEARCH and URL_COUNT. */
  datatype DerivedPaths = DerivedPaths(
    root: string, clusterHealth: string, bulk: string, template: string,
    ingest: string, search: string, count: string)
  {
    function All(): seq<string>
    {
      [root, clusterHealth, bulk, template, ingest, search, count]
    }
  }

  const RootSuffix := "/"
  const ClusterHealthSuffix := "/_cluster/health"
  const BulkSuffix := "/_bulk"
  const TemplateSuffix := "/_template"
  const IngestSuffix := "/_ingest/pipeline"
  const QueryParameters := "?ignore_unavailable=true"
  const SearchSuffix := "/_search" + QueryParameters
  const CountSuffix := "/_count" + QueryParameters

  /** `path` is `prefix` followed by '/' and possibly more. */
  predicate Below(prefix: string, path: string)
  {
    |prefix| < |path| && path[..|prefix|] == prefix && path[|prefix|] == '/'
  }

  /** The paths derived from the base path of the endpoint: each is the stripped base path
      followed by '/' and the rest of its suffix. */
  function Derive(basePath: string): (d: DerivedPaths)
    ensures forall p :: p in d.All() ==> Below(StripTrailingSlash(basePath), p)
  {
    var prefix := StripTrailingSlash(basePath);
    DerivedPaths(prefix + RootSuffix, prefix + ClusterHealthSuffix, prefix + BulkSuffix,
      prefix + TemplateSuffix, prefix + IngestSuffix, prefix + SearchSuffix, prefix + CountSuffix)
  }

  predicate EndsWith(s: string, suffix: string)
  {
    |suffix| <= |s| && s[|s| - |suffix|..] == suffix
  }

  /** A text whose k-th character from the end differs from the suffix's does not end with it. */
  lemma DiffersFromEnd(s: string, suffix: string, k: nat)
    requires 1 <= k <= |suffix| && k <= |s| && s[|s| - k] != suffix[|suffix| - k]
    ensures !EndsWith(s, suffix)
  {
  }

  lemma EndsWithAppended(s: string, suffix: string)
    ensures EndsWith(s + suffix, suffix)
  {
    assert (s + suffix)[|s|..] == suffix;
  }

  /** The k-th character from the end of prefix + suffix is that of the suffix. */
  lemma CharFromEnd(prefix: string, suffix: string, k: nat)
    requires 1 <= k <= |suffix|
    ensures (prefix + suffix)[|prefix + suffix| - k] == suffix[|suffix| - k]
  {
  }

  /** Only the search and count paths carry the `ignore_unavailable` query parameter. */
  lemma OnlyQueryPathsCarryParameters(basePath: string)
    ensures var d := Derive(basePath);
      && EndsWith(d.search, QueryParameters) && EndsWith(d.count, QueryParameters)
      && !EndsWith(d.root, QueryParameters) && !EndsWith(d.clusterHealth, QueryParameters)
      && !EndsWith(d.bulk, QueryParameters) && !EndsWith(d.template, QueryParameters)
      && !EndsWith(d.ingest, QueryParameters)
  {
    var prefix := StripTrailingSlash(basePath);
    var q := QueryParameters;
    assert EndsWith(prefix + SearchSuffix, q) by {
      assert prefix + SearchSuffix == (prefix + "/_search") + q;
      EndsWithAppended(prefix + "/_search", q);
    }
    assert EndsWith(prefix + CountSuffix, q) by {
      assert prefix + CountSuffix == (prefix + "/_count") + q;
      EndsWithAppended(prefix + "/_count", q);
    }
    assert !EndsWith(prefix + RootSuffix, q) by {
      CharFromEnd(prefix, RootSuffix, 1);
      DiffersFromEnd(prefix + RootSuffix, q, 1);
    }
    assert !EndsWith(prefix + ClusterHealthSuffix, q) by {
      CharFromEnd(prefix, ClusterHealthSuffix, 1);
      DiffersFromEnd(prefix + ClusterHealthSuffix, q, 1);
    }
    assert !EndsWith(prefix + BulkSuffix, q) by {
      CharFromEnd(prefix, BulkSuffix, 1);
      DiffersFromEnd(prefix + BulkSuffix, q, 1);
    }
    assert !EndsWith(prefix + TemplateSuffix, q) by {
      CharFromEnd(prefix, TemplateSuffix, 2);
      DiffersFromEnd(prefix + TemplateSuffix, q, 2);
    }
    assert !EndsWith(prefix + IngestSuffix, q) by {
      CharFromEnd(prefix, IngestSuffix, 2);
      DiffersFromEnd(prefix + IngestSuffix, q, 2);
    }
  }

  /** The base path is normalized: a path from which nothing is stripped and the same path
      with one more slash give identical request paths. */
  lemma TrailingSlashNormalized(path: string)
    requires StripTrailingSlash(path) == path
    ensures Derive(path + "/") == Derive(path)
  {
    assert (path + "/")[..|path|] == path;
  }

  /** An empty base path and "/" both give the root path "/". */
  lemma RootPathOfEmptyBase()
    ensures Derive("").root == "/" && Derive("/").root == "/"
  {
  }

  /** The text of an optional type segment: "/" + type, or nothing at all when the type is null. */
  function TypeSegment(docType: Option<string>): string
  {
    if docType.Some? then "/" + docType.value else ""
  }

  /** The URL of count and search: '/', the indexes (null printed as "null"), "/type" when a
      type is given, then the derived endpoint path, which already starts with the base path. */
  function IndexedUrl(indexes: Option<string>, docType: Option<string>, endpoint: string): (url: string)
    ensures |url| >= 1 + |endpoint| && url[0] == '/' && url[|url| - |endpoint|..] == endpoint
    ensures url[1..|url| - |endpoint|] == Text(indexes) + TypeSegment(docType)
  {
    var middle := Text(indexes) + TypeSegment(docType);
    var url := "/" + Text(indexes) + TypeSegment(docType) + endpoint;
    assert url == "/" + middle + endpoint;
    url
  }

  /** Reads indexes and type back out of an indexed URL, given the endpoint path it ends with. */
  function SplitIndexedUrl(url: string, endpoint: string): Option<(string, Option<string>)>
  {
    if |url| < 1 + |endpoint| || url[0] != '/' || url[|url| - |endpoint|..] != endpoint then None
    else
      var middle := url[1..|url| - |endpoint|];
      var k := IndexOf(middle, '/');
      if k == |middle| then Some((middle, None)) else Some((middle[..k], Some(middle[k + 1..])))
  }

  /** Indexes without a slash and the optional type can be read back from the URL:
      a type segment is present exactly when a type was given. */
  lemma SplitIndexedUrlInverts(indexes: Option<string>, docType: Option<string>, endpoint: string)
    requires forall i :: 0 <= i < |Text(indexes)| ==> Text(indexes)[i] != '/'
    ensures SplitIndexedUrl(IndexedUrl(indexes, docType, endpoint), endpoint) == Some((Text(indexes), docType))
  {
    var idx := Text(indexes);
    var middle := idx + TypeSegment(docType);
    IndexOfAfter(idx, TypeSegment(docType), '/');
    if docType.Some? {
      assert IndexOf(TypeSegment(docType), '/') == 0;
      assert middle[..|idx|] == idx;
      assert middle[|idx| + 1..] == docType.value;
    } else {
      assert TypeSegment(docType) == "";
      assert middle == idx;
    }
  }

  /** A null indexes argument cannot be told apart from the index named "null". */
  lemma NullIndexesPrintAsText(docType: Option<string>, endpoint: string)
    ensures IndexedUrl(None, docType, endpoint) == IndexedUrl(Some("null"), docType, endpoint)
  {
  }

  /** The count and search URLs in terms of the base path: the stripped base path comes
      after the index and type segments, because it is part of the derived endpoint path
      that is appended last. With no type there is no type segment at all. */
  lemma IndexedUrlOfDerived(basePath: string, indexes: Option<string>, docType: Option<string>)
    ensures var prefix := StripTrailingSlash(basePath);
      && IndexedUrl(indexes, docType, Derive(basePath).search) == "/" + Text(indexes) + TypeSegment(docType) + prefix + SearchSuffix
      && IndexedUrl(indexes, docType, Derive(basePath).count) == "/" + Text(indexes) + TypeSegment(docType) + prefix + CountSuffix
  {
    var prefix := StripTrailingSlash(basePath);
    IndexedUrlOfJoined(indexes, docType, prefix, SearchSuffix);
    IndexedUrlOfJoined(indexes, docType, prefix, CountSuffix);
  }

  lemma IndexedUrlOfJoined(indexes: Option<string>, docType: Option<string>, prefix: string, suffix: string)
    ensures IndexedUrl(indexes, docType, prefix + suffix) == "/" + Text(indexes) + TypeSegment(docType) + prefix + suffix
  {
  }

  /** The URL of putTemplate and putPipeline: the derived path, '/', then the name
      (null printed as "null"). */
  function NamedUrl(base: string, name: Option<string>): (url: string)
    ensures |url| == |base| + 1 + |Text(name)|
    ensures url[..|base|] == base && url[|base|] == '/' && url[|base| + 1..] == Text(name)
  {
    base + "/" + Text(name)
  }
}
