/**
 Two parsers of Kubernetes API paths: parseAPIResourceRequest (authorization.go:407-461),
 which feeds access reviews, and GenerateKey with its helpers (cacheStore.go:44-221), which
 names cache entries. Both are related to one printer of API requests.
 */
module ApiPaths {
  import opened Wrappers
  import opened GoStrings
  import opened KeyCodec

  datatype Request = Request(
    group: string, version: string, namespace: string, resource: string, name: string, subresource: string)

  predicate IsNamespaceSubresource(s: string)
  {
    s == "status" || s == "finalize"
  }

  // ------------------------------------------------------------ parseAPIResourceRequest

  function ParseSegments(parts: seq<string>): Option<Request>
  {
    if |parts| < 3 then None
    else if parts[0] == "api" then Some(ParseResource("", parts[1], parts[2..]))
    else if parts[0] == "apis" then
      if |parts| < 4 then None else Some(ParseResource(parts[1], parts[2], parts[3..]))
    else None
  }

  function ParseResource(group: string, version: string, rest: seq<string>): Request
    requires |rest| >= 1
  {
    if rest[0] == "namespaces" && |rest| == 3 && IsNamespaceSubresource(rest[2]) then
      Request(group, version, "", "namespaces", rest[1], rest[2])
    else if rest[0] == "namespaces" && |rest| > 2 then ResourceTail(group, version, rest[1], rest[2..])
    else ResourceTail(group, version, "", rest)
  }

  function ResourceTail(group: string, version: string, namespace: string, rest: seq<string>): Request
    requires |rest| >= 1
  {
    Request(group, version, namespace, rest[0],
            if |rest| > 1 then rest[1] else "", if |rest| > 2 then rest[2] else "")
  }

  /** The source's step-by-step form: one record filled in, one index moved. */
  method ParseAPIResourceRequest(apiPath: string) returns (request: Request, ok: bool)
    ensures var parsed := ParseSegments(Split(Trim(apiPath, '/'), '/'));
      && ok == parsed.Some?
      && request == if parsed.Some? then parsed.value else Request("", "", "", "", "", "")
  {
    request := Request("", "", "", "", "", "");
    var parts := Split(Trim(apiPath, '/'), '/');
    if |parts| < 3 {
      return request, false;
    }
    var resourceIndex := 0;
    if parts[0] == "api" {
      request := request.(version := parts[1]);
      resourceIndex := 2;
    } else if parts[0] == "apis" {
      if |parts| < 4 {
        return Request("", "", "", "", "", ""), false;
      }
      request := request.(group := parts[1], version := parts[2]);
      resourceIndex := 3;
    } else {
      return Request("", "", "", "", "", ""), false;
    }
    if parts[resourceIndex] == "namespaces" && |parts| == resourceIndex + 3
       && IsNamespaceSubresource(parts[resourceIndex + 2]) {
      request := request.(resource := "namespaces", name := parts[resourceIndex + 1],
                          subresource := parts[resourceIndex + 2]);
      return request, true;
    }
    if parts[resourceIndex] == "namespaces" && |parts| > resourceIndex + 2 {
      request := request.(namespace := parts[resourceIndex + 1]);
      resourceIndex := resourceIndex + 2;
    }
    request := request.(resource := parts[resourceIndex]);
    if |parts| > resourceIndex + 1 {
      request := request.(name := parts[resourceIndex + 1]);
    }
    if |parts| > resourceIndex + 2 {
      request := request.(subresource := parts[resourceIndex + 2]);
    }
    return request, true;
  }

  // ------------------------------------------------------------ GenerateKey

  function KubernetesAPIPathIndex(parts: seq<string>): int
  {
    if |parts| > 1 && (parts[1] == "api" || parts[1] == "apis") then 1
    else if |parts| > 3 && parts[1] == "clusters" && (parts[3] == "api" || parts[3] == "apis") then 3
    else -1
  }

  function SegmentAt(parts: seq<string>, i: nat): string
  {
    if i < |parts| then parts[i] else ""
  }

  /** Group and version. */
  function GetAPIGroup(path: string): Option<(string, string)>
  {
    GroupAndVersion(Split(TrimRight(path, '/'), '/'))
  }

  function GroupAndVersion(parts: seq<string>): Option<(string, string)>
  {
    var apiIdx := KubernetesAPIPathIndex(parts);
    if apiIdx == -1 then None
    else if parts[apiIdx] == "api" then Some(("", SegmentAt(parts, apiIdx + 1)))
    else Some((SegmentAt(parts, apiIdx + 1), SegmentAt(parts, apiIdx + 2)))
  }

  /** The segment after the first "namespaces" that is not the last segment. */
  function NamespaceIn(urls: seq<string>): string
  {
    if |urls| < 2 then ""
    else if urls[0] == "namespaces" then urls[1]
    else NamespaceIn(urls[1..])
  }

  function NamespaceAndKind(urls: seq<string>): (string, string)
    requires |urls| >= 1
  {
    if KubernetesAPIPathIndex(urls) == -1 then ("", "")
    else (NamespaceIn(urls), if |urls| > 2 then urls[|urls| - 1] else "")
  }

  function CutQuery(rawURL: string): string
  {
    if Index(rawURL, '?') == -1 then rawURL else rawURL[..Index(rawURL, '?')]
  }

  method ExtractNamespace(rawURL: string) returns (namespace: string, kind: string)
    ensures (namespace, kind) == NamespaceAndKind(Split(TrimRight(CutQuery(rawURL), '/'), '/'))
  {
    var cut := rawURL;
    var idx := Index(rawURL, '?');
    if idx != -1 {
      cut := rawURL[..idx];
    }
    cut := TrimRight(cut, '/');
    namespace, kind := "", "";
    var urls := Split(cut, '/');
    var n := |urls|;
    if KubernetesAPIPathIndex(urls) == -1 {
      return "", "";
    }
    var i := 0;
    while i < n - 1
      invariant 0 <= i <= n - 1 && namespace == ""
      invariant NamespaceIn(urls) == NamespaceIn(urls[i..])
    {
      if urls[i] == "namespaces" {
        namespace := urls[i + 1];
        break;
      }
      assert urls[i..][1..] == urls[i + 1..];
      i := i + 1;
    }
    if n > 2 {
      kind := urls[n - 1];
    }
  }

  function GenerateKey(path: string, contextID: string): Option<string>
  {
    var (namespace, kind) := NamespaceAndKind(Split(TrimRight(CutQuery(path), '/'), '/'));
    match GetAPIGroup(path)
    case None => None
    case Some((group, _)) => Some(BuildCacheKey(group, kind, namespace, contextID))
  }

  // ------------------------------------------------------------ printing a request

  function GroupVersion(r: Request): seq<string>
  {
    if r.group == "" then ["api", r.version] else ["apis", r.group, r.version]
  }

  function Tail(r: Request): seq<string>
  {
    [r.resource] + (if r.name == "" then [] else [r.name])
                 + (if r.subresource == "" then [] else [r.subresource])
  }

  function Segments(r: Request): seq<string>
  {
    GroupVersion(r) + (if r.namespace == "" then [] else ["namespaces", r.namespace]) + Tail(r)
  }

  /** How the request reaches the server: at the root, or through the proxy of a named cluster. */
  function Mount(cluster: Option<string>): seq<string>
  {
    match cluster
    case None => [""]
    case Some(name) => ["", "clusters", name]
  }

  predicate Segment(s: string)
  {
    s != "" && '/' !in s && '?' !in s
  }

  predicate OptionalSegment(s: string)
  {
    s == "" || Segment(s)
  }

  predicate WellFormed(r: Request)
  {
    && OptionalSegment(r.group) && Segment(r.version) && OptionalSegment(r.namespace)
    && Segment(r.resource) && OptionalSegment(r.name) && OptionalSegment(r.subresource)
    && (r.subresource != "" ==> r.name != "")
  }

  predicate WellFormedMount(cluster: Option<string>)
  {
    cluster.Some? ==> Segment(cluster.value)
  }

  function ApiPath(r: Request): string
  {
    Join(Segments(r), '/')
  }

  function UrlPath(cluster: Option<string>, r: Request): string
  {
    Join(Mount(cluster) + Segments(r), '/')
  }

  /** The last of resource, name and subresource that is present. */
  function LastPresent(r: Request): string
  {
    if r.subresource != "" then r.subresource else if r.name != "" then r.name else r.resource
  }

  // ------------------------------------------------------------ text and segments

  lemma {:induction false} JoinEnds(parts: seq<string>)
    requires |parts| >= 1 && (forall i :: 0 <= i < |parts| ==> '/' !in parts[i])
    requires parts[|parts| - 1] != ""
    ensures var s := Join(parts, '/'); s != "" && s[|s| - 1] != '/'
    ensures var s := Join(parts, '/'); parts[0] != "" ==> s[0] != '/'
  {
    if |parts| > 1 {
      JoinEnds(parts[1..]);
    }
  }

  lemma {:induction false} JoinHasNoQuery(parts: seq<string>)
    requires forall i :: 0 <= i < |parts| ==> '?' !in parts[i]
    ensures '?' !in Join(parts, '/')
  {
    if |parts| > 1 {
      JoinHasNoQuery(parts[1..]);
    }
  }

  lemma SegmentsProper(r: Request)
    requires WellFormed(r)
    ensures forall i :: 0 <= i < |Segments(r)| ==> Segment(Segments(r)[i])
    ensures |Segments(r)| >= 3
  {
    assert Segment("api") && Segment("apis") && Segment("namespaces");
  }

  lemma ApiPathSplits(r: Request)
    requires WellFormed(r)
    ensures Split(Trim(ApiPath(r), '/'), '/') == Segments(r)
  {
    SegmentsProper(r);
    JoinEnds(Segments(r));
    SplitOfJoin(Segments(r), '/');
  }

  lemma UrlPathSplits(cluster: Option<string>, r: Request)
    requires WellFormed(r) && WellFormedMount(cluster)
    ensures Split(TrimRight(UrlPath(cluster, r), '/'), '/') == Mount(cluster) + Segments(r)
    ensures CutQuery(UrlPath(cluster, r)) == UrlPath(cluster, r)
  {
    SegmentsProper(r);
    var parts := Mount(cluster) + Segments(r);
    assert Segment("clusters");
    assert forall i :: 0 <= i < |parts| ==> '/' !in parts[i] && '?' !in parts[i];
    assert parts[|parts| - 1] == Segments(r)[|Segments(r)| - 1];
    JoinEnds(parts);
    JoinHasNoQuery(parts);
    SplitOfJoin(parts, '/');
  }

  /** ExtractNamespace sees a URL without its query. */
  lemma QueryIsCut(path: string, query: string)
    requires '?' !in path
    ensures CutQuery(path + "?" + query) == path && CutQuery(path) == path
  {
    IndexAfter(path, query, '?');
    assert path + ['?'] + query == path + "?" + query;
    assert (path + "?" + query)[..|path|] == path;
  }

  /** Slashes at the end of a path make no difference to its key. */
  lemma TrailingSlashIsIgnored(path: string, contextID: string)
    requires '?' !in path
    ensures GenerateKey(path + "/", contextID) == GenerateKey(path, contextID)
  {
    QueryIsCut(path, "");
    QueryIsCut(path + "/", "");
    assert (path + "/")[..|path|] == path;
    assert TrimRight(path + "/", '/') == TrimRight(path, '/');
  }

  // ------------------------------------------------------------ main results

  /**
   Parsing a printed request gives it back, except for two families whose paths coincide with
   those of other requests: an unnamed namespaced resource called status or finalize, and any
   subresource of a namespace other than those two.
   */
  lemma ParseInvertsPrint(r: Request)
    requires WellFormed(r)
    ensures ParseSegments(Split(Trim(ApiPath(r), '/'), '/')) == Some(r) <==>
      && !(r.namespace != "" && r.name == "" && IsNamespaceSubresource(r.resource))
      && !(r.namespace == "" && r.resource == "namespaces" && r.subresource != ""
           && !IsNamespaceSubresource(r.subresource))
  {
    ApiPathSplits(r);
    var parts := Segments(r);
    var k := |GroupVersion(r)|;
    var rest := parts[k..];
    assert rest == (if r.namespace == "" then [] else ["namespaces", r.namespace]) + Tail(r);
    assert ParseSegments(parts) == Some(ParseResource(r.group, r.version, rest));
    if r.namespace != "" {
      assert rest[2..] == Tail(r);
    } else {
      assert rest == Tail(r);
    }
  }

  /** No segment before the resource part is "namespaces". */
  predicate NoStrayNamespaces(cluster: Option<string>, r: Request)
  {
    cluster != Some("namespaces") && r.group != "namespaces" && r.version != "namespaces"
  }

  lemma {:induction false} NamespaceAfter(prefix: seq<string>, rest: seq<string>)
    requires "namespaces" !in prefix && |rest| >= 1
    ensures NamespaceIn(prefix + rest) == NamespaceIn(rest)
  {
    if prefix == [] {
      assert prefix + rest == rest;
    } else {
      NamespaceAfter(prefix[1..], rest);
      assert (prefix + rest)[1..] == prefix[1..] + rest;
      assert (prefix + rest)[0] == prefix[0];
    }
  }

  function NamespaceOfTail(r: Request): string
  {
    if r.resource == "namespaces" && r.name != "" then r.name
    else if r.name == "namespaces" && r.subresource != "" then r.subresource
    else ""
  }

  lemma TailNamespace(r: Request)
    requires WellFormed(r)
    ensures NamespaceIn(Tail(r)) == NamespaceOfTail(r)
  {
    var tail := Tail(r);
    if |tail| >= 2 {
      assert tail[0] == r.resource && tail[1] == r.name;
      assert tail[1..] == [r.name] + (if r.subresource == "" then [] else [r.subresource]);
      if |tail| == 3 {
        assert tail[1..] == [r.name, r.subresource];
        assert [r.name, r.subresource][1..] == [r.subresource] && NamespaceIn([r.subresource]) == "";
      }
    }
  }

  lemma ApiPathIndexOfUrl(cluster: Option<string>, r: Request)
    requires WellFormed(r) && WellFormedMount(cluster)
    ensures KubernetesAPIPathIndex(Mount(cluster) + Segments(r)) == if cluster.None? then 1 else 3
  {
  }

  lemma LastSegment(cluster: Option<string>, r: Request)
    ensures var urls := Mount(cluster) + Segments(r);
      |urls| > 2 && urls[|urls| - 1] == LastPresent(r)
  {
  }

  lemma UrlNamespaceAndKind(cluster: Option<string>, r: Request)
    requires WellFormed(r) && WellFormedMount(cluster) && NoStrayNamespaces(cluster, r)
    ensures NamespaceAndKind(Mount(cluster) + Segments(r)) ==
      (if r.namespace != "" then r.namespace else NamespaceOfTail(r), LastPresent(r))
  {
    var urls := Mount(cluster) + Segments(r);
    var prefix := Mount(cluster) + GroupVersion(r);
    var rest := (if r.namespace == "" then [] else ["namespaces", r.namespace]) + Tail(r);
    assert urls == prefix + rest;
    assert "namespaces" !in prefix;
    NamespaceAfter(prefix, rest);
    if r.namespace == "" {
      assert rest == Tail(r);
      TailNamespace(r);
    }
    LastSegment(cluster, r);
    ApiPathIndexOfUrl(cluster, r);
  }

  lemma UrlGroup(cluster: Option<string>, r: Request)
    requires WellFormed(r) && WellFormedMount(cluster)
    ensures GetAPIGroup(UrlPath(cluster, r)) == Some((r.group, r.version))
  {
    UrlPathSplits(cluster, r);
    UrlGroupAndVersion(cluster, r);
  }

  lemma UrlGroupAndVersion(cluster: Option<string>, r: Request)
    requires WellFormed(r) && WellFormedMount(cluster)
    ensures GroupAndVersion(Mount(cluster) + Segments(r)) == Some((r.group, r.version))
  {
    ApiPathIndexOfUrl(cluster, r);
    var urls, i := Mount(cluster) + Segments(r), if cluster.None? then 1 else 3;
    var gv := GroupVersion(r);
    assert urls[i..][..|gv|] == gv;
    assert urls[i] == gv[0] && urls[i + 1] == gv[1];
    assert r.group != "" ==> urls[i + 2] == gv[2];
    assert |"api"| != |"apis"|;
  }

  /** The key GenerateKey gives a printed request, direct or proxied. */
  lemma GeneratedKey(cluster: Option<string>, r: Request, contextID: string)
    requires WellFormed(r) && WellFormedMount(cluster) && NoStrayNamespaces(cluster, r)
    ensures GenerateKey(UrlPath(cluster, r), contextID) ==
      Some(BuildCacheKey(r.group, LastPresent(r),
                         if r.namespace != "" then r.namespace else NamespaceOfTail(r), contextID))
  {
    UrlPathSplits(cluster, r);
    UrlNamespaceAndKind(cluster, r);
    UrlGroup(cluster, r);
  }

  /** What parseAPIResourceRequest reads in a printed request; it never fails on one. */
  function Parsed(r: Request): (q: Request)
    requires WellFormed(r)
    ensures ParseSegments(Split(Trim(ApiPath(r), '/'), '/')) == Some(q)
  {
    ApiPathSplits(r);
    ParseSegments(Segments(r)).value
  }

  /** The parse finds no namespace, but a segment "namespaces" that GenerateKey takes for one's. */
  predicate NamespacesMisread(q: Request)
  {
    q.namespace == "" &&
    ((q.resource == "namespaces" && q.name != "") || (q.name == "namespaces" && q.subresource != ""))
  }

  lemma ParsedShape(r: Request)
    requires WellFormed(r)
    ensures var q := Parsed(r);
      && q.group == r.group
      && LastPresent(q) == LastPresent(r)
      && (if r.namespace != "" then r.namespace else NamespaceOfTail(r))
         == (if q.namespace != "" then q.namespace else NamespaceOfTail(q))
  {
    ApiPathSplits(r);
    var parts := Segments(r);
    var rest := parts[|GroupVersion(r)|..];
    assert rest == (if r.namespace == "" then [] else ["namespaces", r.namespace]) + Tail(r);
    assert Parsed(r) == ParseResource(r.group, r.version, rest);
    if r.namespace != "" {
      assert rest[2..] == Tail(r);
    } else {
      assert rest == Tail(r);
    }
  }

  /**
   The two parsers on one printed request: the cache key carries the group, the namespace and
   the last component that parseAPIResourceRequest reads, exactly when that parse is neither
   of an object of the cluster-scoped resource "namespaces" nor of a subresource of a
   cluster-scoped object of that name.
   */
  lemma ParsersAgree(cluster: Option<string>, r: Request, contextID: string)
    requires WellFormed(r) && WellFormedMount(cluster) && NoStrayNamespaces(cluster, r)
    ensures var q := Parsed(r);
      GenerateKey(UrlPath(cluster, r), contextID)
        == Some(BuildCacheKey(q.group, LastPresent(q), q.namespace, contextID))
      <==> !NamespacesMisread(q)
  {
    GeneratedKey(cluster, r, contextID);
    ParsedShape(r);
    var q := Parsed(r);
    var ns := if r.namespace != "" then r.namespace else NamespaceOfTail(r);
    if BuildCacheKey(r.group, LastPresent(r), ns, contextID)
       == BuildCacheKey(q.group, LastPresent(q), q.namespace, contextID) {
      BuildCacheKeyInjective(r.group, LastPresent(r), ns, contextID,
                             q.group, LastPresent(q), q.namespace, contextID);
    }
  }
}
