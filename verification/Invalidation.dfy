/**
 backend/pkg/k8cache/cacheInvalidation.go: which response keys an informer event removes,
 and which requests those keys answer.
 */
module Invalidation {
  import opened Wrappers
  import opened GoStrings
  import opened KeyCodec
  import opened TtlCache
  import A = ApiPaths

  datatype Event = Event(group: string, resource: string, namespace: string, name: string, contextKey: string)

  /** The keys an event may remove: the list, the all-namespaces list, and the named object. */
  function EventKeys(e: Event): set<string>
  {
    { BuildCacheKey(e.group, e.resource, e.namespace, e.contextKey),
      BuildCacheKey(e.group, e.resource, "", e.contextKey) }
    + if e.name == "" then {} else { BuildCacheKey(e.group, e.name, e.namespace, e.contextKey) }
  }

  /** The request for a list (name "") or a named object of the event's resource. */
  function RequestFor(e: Event, version: string, namespace: string, name: string): A.Request
  {
    A.Request(e.group, version, namespace, e.resource, name, "")
  }

  lemma BlankingTheNamespace(g: string, k: string, n: string, c: string)
    ensures var parts := Split(BuildCacheKey(g, k, n, c), DELIMITER);
      |parts| == 4 && Join(parts[2 := ""], DELIMITER) == BuildCacheKey(g, k, "", c)
  {
    SplitRecoversFields(g, k, n, c);
    var e3 := Escape(c);
    assert Escape("") == "";
    assert [Escape(g), Escape(k), Escape(n), e3][2 := ""] == [Escape(g), Escape(k), "", e3];
    JoinFour(Escape(g), Escape(k), "", e3);
  }

  lemma JoinFour(a: string, b: string, c: string, d: string)
    ensures Join([a, b, c, d], DELIMITER) == a + "+" + b + "+" + c + "+" + d
  {
    assert [a, b, c, d][1..] == [b, c, d] && [b, c, d][1..] == [c, d] && [c, d][1..] == [d];
    assert Join([c, d], DELIMITER) == c + [DELIMITER] + d;
    assert Join([b, c, d], DELIMITER) == b + [DELIMITER] + Join([c, d], DELIMITER);
    KeyIsJoin(a, b, c, d);
  }

  method DeleteKeys(key: string, responses: Cache<string>)
    requires responses.Valid()
    modifies responses`store, responses`plain
    ensures responses.Valid()
    ensures var parts := Split(key, DELIMITER);
      responses.plain == old(responses.plain)
        - ({key} + if |parts| < 4 then {} else {Join(parts[2 := ""], DELIMITER)})
  {
    responses.Delete(key);
    var keyPart := Split(key, DELIMITER);
    if |keyPart| < 4 {
      return;
    }
    responses.Delete(Join(keyPart[2 := ""], DELIMITER));
  }

  /** Exactly the event's keys go; every other entry keeps its value and deadline. */
  method InvalidateCacheKeysForResourceEvent(e: Event, responses: Cache<string>)
    requires responses.Valid()
    modifies responses`store, responses`plain
    ensures responses.Valid()
    ensures responses.plain == old(responses.plain) - EventKeys(e)
  {
    var listKey := BuildCacheKey(e.group, e.resource, e.namespace, e.contextKey);
    BlankingTheNamespace(e.group, e.resource, e.namespace, e.contextKey);
    DeleteKeys(listKey, responses);
    if e.name == "" {
      return;
    }
    responses.Delete(BuildCacheKey(e.group, e.name, e.namespace, e.contextKey));
  }

  predicate Printable(e: Event, version: string, cluster: Option<string>)
  {
    && A.WellFormed(RequestFor(e, version, e.namespace, e.name))
    && A.WellFormedMount(cluster)
    && A.NoStrayNamespaces(cluster, RequestFor(e, version, e.namespace, e.name))
  }

  function KeyFor(e: Event, version: string, cluster: Option<string>, namespace: string, name: string)
    : Option<string>
  {
    A.GenerateKey(A.UrlPath(cluster, RequestFor(e, version, namespace, name)), e.contextKey)
  }

  /** The event removes the entry GenerateKey files for the request. */
  ghost predicate Covered(e: Event, version: string, cluster: Option<string>, namespace: string, name: string)
  {
    exists key :: key in EventKeys(e) && KeyFor(e, version, cluster, namespace, name) == Some(key)
  }

  /** The event is about a Namespace object, whose own name its request's key carries twice. */
  predicate AboutNamespaceObject(e: Event)
  {
    e.resource == "namespaces" && e.namespace == "" && e.name != ""
  }

  /** Whatever the API version and mount, both list keys are removed. */
  lemma ListKeysCovered(e: Event, version: string, cluster: Option<string>)
    requires Printable(e, version, cluster)
    ensures KeyFor(e, version, cluster, e.namespace, "")
      == Some(BuildCacheKey(e.group, e.resource, e.namespace, e.contextKey))
    ensures KeyFor(e, version, cluster, "", "") == Some(BuildCacheKey(e.group, e.resource, "", e.contextKey))
  {
    A.GeneratedKey(cluster, RequestFor(e, version, e.namespace, ""), e.contextKey);
    A.GeneratedKey(cluster, RequestFor(e, version, "", ""), e.contextKey);
  }

  lemma NamedKey(e: Event, version: string, cluster: Option<string>)
    requires Printable(e, version, cluster) && e.name != ""
    ensures KeyFor(e, version, cluster, e.namespace, e.name)
      == Some(BuildCacheKey(e.group, e.name, if AboutNamespaceObject(e) then e.name else e.namespace, e.contextKey))
  {
    A.GeneratedKey(cluster, RequestFor(e, version, e.namespace, e.name), e.contextKey);
  }

  /** The named key stays out of the event's keys exactly for an object that is itself a namespace. */
  lemma NamedKeyCovered(e: Event)
    requires e.name != ""
    ensures
      var namespace := if AboutNamespaceObject(e) then e.name else e.namespace;
      BuildCacheKey(e.group, e.name, namespace, e.contextKey) in EventKeys(e) <==> !AboutNamespaceObject(e)
  {
    if AboutNamespaceObject(e) {
      DifferentNamespaceDifferentKey(e.group, e.name, e.name, e.contextKey, e.resource, "");
      DifferentNamespaceDifferentKey(e.group, e.name, e.name, e.contextKey, e.name, "");
    }
  }

  /** Every key an event removes is the key of one of its three requests, direct or proxied. */
  lemma OnlyRequestKeysRemoved(e: Event, version: string, cluster: Option<string>, key: string)
    requires Printable(e, version, cluster) && !AboutNamespaceObject(e) && key in EventKeys(e)
    ensures || KeyFor(e, version, cluster, e.namespace, "") == Some(key)
            || KeyFor(e, version, cluster, "", "") == Some(key)
            || KeyFor(e, version, cluster, e.namespace, e.name) == Some(key)
  {
    ListKeysCovered(e, version, cluster);
    if e.name != "" {
      NamedKey(e, version, cluster);
    }
  }

  /**
   Coverage. Whatever the API version and whether direct or proxied, the entries GenerateKey
   files for the namespaced list, the all-namespaces list and the named object are removed --
   the last unless the object is itself a namespace, whose named entry survives.
   */
  lemma InvalidationCoverage(e: Event, version: string, cluster: Option<string>)
    requires Printable(e, version, cluster)
    ensures Covered(e, version, cluster, e.namespace, "")
    ensures Covered(e, version, cluster, "", "")
    ensures Covered(e, version, cluster, e.namespace, e.name) <==> !AboutNamespaceObject(e)
  {
    ListKeysCovered(e, version, cluster);
    if e.name != "" {
      NamedKey(e, version, cluster);
      NamedKeyCovered(e);
    }
  }

  /** The resources filterImportantResources lets informers watch; events come from these only. */
  predicate Watched(resource: string)
  {
    resource in {"pods", "services", "deployments", "replicasets", "statefulsets", "daemonsets", "nodes",
                 "configmaps", "secrets", "jobs", "cronjobs"}
  }

  lemma NamespacesAreNotWatched()
    ensures !Watched("namespaces")
  {
    assert "namespaces"[0] == 'n' && "namespaces"[1] == 'a';
  }

  /** For every event an informer can deliver all three entries are removed. */
  lemma WatchedEventsAreCovered(e: Event, version: string, cluster: Option<string>)
    requires Printable(e, version, cluster) && Watched(e.resource)
    ensures Covered(e, version, cluster, e.namespace, "")
    ensures Covered(e, version, cluster, "", "")
    ensures Covered(e, version, cluster, e.namespace, e.name)
  {
    NamespacesAreNotWatched();
    InvalidationCoverage(e, version, cluster);
  }

  lemma DifferentNamespaceDifferentKey(g: string, k: string, n: string, c: string, k': string, n': string)
    requires n != n'
    ensures BuildCacheKey(g, k, n, c) != BuildCacheKey(g, k', n', c)
  {
    if BuildCacheKey(g, k, n, c) == BuildCacheKey(g, k', n', c) {
      BuildCacheKeyInjective(g, k, n, c, g, k', n', c);
    }
  }

  /** An event in one context never touches another context's entries. */
  lemma EventStaysInItsContext(e: Event, key: string, other: string)
    requires key in EventKeys(e) && KeyBelongsToContext(key, other)
    ensures other == e.contextKey
  {
    BuiltKeyBelongsExactly(e.group, e.resource, e.namespace, e.contextKey, other);
    BuiltKeyBelongsExactly(e.group, e.resource, "", e.contextKey, other);
    BuiltKeyBelongsExactly(e.group, e.name, e.namespace, e.contextKey, other);
  }
}
