/**
 Removal of contexts: SyncWatchers (cacheInvalidation.go:210-251) and the purge it drives
 (context_cleanup.go), over the TTL response cache and the clientset registry. No request
 stores anything while the sweep runs; time passes freely.
 */
module ContextCleanup {
  import opened GoStrings
  import opened KeyCodec
  import opened TtlCache
  import R = ClientsetRegistry

  /** The entry belongs to some context outside `active`. */
  ghost predicate OfRemoved(key: string, active: set<string>)
  {
    exists c :: c !in active && KeyBelongsToContext(key, c)
  }

  /** Entries are only ever dropped, never altered, and none outside `dropped` is. */
  ghost predicate OnlyDrops(before: Store<string>, after: Store<string>, dropped: iset<string>)
  {
    && (forall k :: k in after ==> k in before && after[k] == before[k])
    && (forall k :: k in before && k !in dropped ==> k in after)
  }

  /** No entry of the contexts is observable at the instant. */
  ghost predicate Gone(s: Store<string>, contexts: set<string>, now: Time)
  {
    forall k, c :: k in s && c in contexts && KeyBelongsToContext(k, c) ==> !Live(s[k], now)
  }

  ghost function KeysOf(contexts: set<string>): iset<string>
  {
    iset k, c | c in contexts && KeyBelongsToContext(k, c) :: k
  }

  /** Contexts that something cached is attributed to, as far as it is observable at the instant. */
  function Mentioned(plain: Store<string>, now: Time, cache: set<string>, inFlight: set<string>): set<string>
  {
    (set k | k in cache :: R.PrefixOf(k)) + (set k | k in inFlight :: R.PrefixOf(k))
    + (set k | k in View(plain, now) :: ContextOfKey(k))
  }

  /** The inactive contexts a sweep has reason to clean up. */
  function DueContexts(active: set<string>, watched: set<string>, plain: Store<string>, now: Time,
                       cache: set<string>, inFlight: set<string>): set<string>
  {
    watched + Mentioned(plain, now, cache, inFlight) - active
  }

  /** Some context of the set, evicted, takes the clientset key with it. */
  ghost predicate Reached(key: string, contexts: set<string>)
  {
    exists c :: c in contexts && c != "" && R.Under(key, c)
  }

  /** A prefix that reaches a key whose own prefix reaches another key reaches that one too. */
  lemma UnderPasses(via: string, key: string, c: string)
    requires R.NUL in via && R.Under(via, c) && R.Under(key, R.PrefixOf(via))
    ensures R.Under(key, c)
  {
    var p := R.PrefixOf(via);
    assert via[|c|] == R.NUL;
    assert |c| <= |p|;
    if |c| < |p| {
      assert p[..|c| + 1] == via[..|c| + 1] == c + [R.NUL];
    } else {
      assert p == via[..|p|] == c;
    }
  }

  /**
   An active context loses its clientsets to a sweep exactly when it extends, behind a NUL, a
   context that is due: removing "c" costs the stateless contexts of "c" theirs.
   */
  lemma ActiveClientsetsLost(context: string, token: string, due: set<string>)
    requires R.NUL !in token && context !in due
    ensures Reached(context + [R.NUL] + token, due) <==> exists c :: c in due && c != "" && R.Under(context, c)
  {
    var key := context + [R.NUL] + token;
    R.PrefixOfKey(context, token);
    if Reached(key, due) {
      var c :| c in due && c != "" && R.Under(key, c);
      assert key[|c|] == R.NUL;
      assert |c| <= |context|;
      assert c == key[..|c|] && context == key[..|context|];
      assert |c| < |context|;
      assert context[..|c| + 1] == key[..|c| + 1] == c + [R.NUL];
      assert R.Under(context, c);
    }
    if c :| c in due && c != "" && R.Under(context, c) {
      assert R.Under(key, c);
    }
  }

  /** The instance: "c" was removed, "c NUL u" is active, and its clientset goes. */
  lemma RemovalReachesUserContexts(plain: Store<string>, now: Time, token: string)
    requires R.NUL !in token && View(plain, now) == map[]
    ensures var context := "c" + [R.NUL] + "u"; var key := context + [R.NUL] + token;
      Reached(key, DueContexts({context}, {"c"}, plain, now, {key}, {}))
  {
    var context := "c" + [R.NUL] + "u";
    var key := context + [R.NUL] + token;
    assert "c" != context;
    assert "c" in DueContexts({context}, {"c"}, plain, now, {key}, {}) && R.Under(key, "c");
  }

  /** Dropping entries and letting time pass can only make contexts unmentioned. */
  lemma MentionedShrinks(plain: Store<string>, now: Time, cache: set<string>, inFlight: set<string>,
                         plain': Store<string>, now': Time, cache': set<string>)
    requires (forall k :: k in plain' ==> k in plain && plain'[k] == plain[k]) && now <= now' && cache' <= cache
    ensures Mentioned(plain', now', cache', inFlight) <= Mentioned(plain, now, cache, inFlight)
  {
    assert forall k :: k in View(plain', now') ==> k in View(plain, now);
  }

  /** While no response expires the due contexts stay the same, so that both bounds on a sweep meet. */
  lemma DueIsStable(active: set<string>, watched: set<string>, plain: Store<string>, now: Time, later: Time,
                    cache: set<string>, inFlight: set<string>)
    requires now <= later && forall k :: k in plain && Live(plain[k], now) ==> Live(plain[k], later)
    ensures DueContexts(active, watched, plain, now, cache, inFlight)
         == DueContexts(active, watched, plain, later, cache, inFlight)
  {
    assert View(plain, now) == View(plain, later);
  }

  /** What the first loop leaves between the state before the sweep and the state it hands on. */
  ghost predicate FirstLoop(cleaned: set<string>, plain: Store<string>, cache: set<string>,
                            midPlain: Store<string>, midCache: set<string>)
  {
    && OnlyDrops(plain, midPlain, KeysOf(cleaned))
    && forall k :: k in midCache <==> k in cache && !Reached(k, cleaned)
  }

  /**
   Nothing due is overlooked: a context mentioned before the sweep but not after its first loop
   was cleaned up there, or all its clientsets went with a context that was.
   */
  lemma DueIsReached(key: string, p: string, cleaned: set<string>, plain: Store<string>, now: Time,
                     cache: set<string>, inFlight: set<string>, midPlain: Store<string>, midCache: set<string>)
    requires FirstLoop(cleaned, plain, cache, midPlain, midCache) && forall k :: k in cache ==> R.NUL in k
    requires p in Mentioned(plain, now, cache, inFlight) && p != "" && R.Under(key, p)
    ensures p in Mentioned(midPlain, now, midCache, inFlight) || Reached(key, cleaned)
  {
    if r :| r in View(plain, now) && ContextOfKey(r) == p {
      if r in midPlain {
        assert r in View(midPlain, now);
      } else {
        var c :| c in cleaned && KeyBelongsToContext(r, c);
        BelongsImpliesAttributed(r, c);
      }
    } else if via :| via in cache && R.PrefixOf(via) == p {
      if via !in midCache {
        var c :| c in cleaned && c != "" && R.Under(via, c);
        UnderPasses(via, key, c);
      }
    }
  }

  lemma DueIsCleaned(key: string, active: set<string>, cleaned: set<string>, removed: set<string>, watched: set<string>,
                     plain: Store<string>, now: Time, cache: set<string>, inFlight: set<string>,
                     midPlain: Store<string>, midCache: set<string>)
    requires FirstLoop(cleaned, plain, cache, midPlain, midCache) && forall k :: k in cache ==> R.NUL in k
    requires watched - active <= cleaned <= removed
    requires Mentioned(midPlain, now, midCache, inFlight) - {""} <= active + removed
    requires Reached(key, DueContexts(active, watched, plain, now, cache, inFlight))
    ensures Reached(key, removed)
  {
    var p :| p in DueContexts(active, watched, plain, now, cache, inFlight) && p != "" && R.Under(key, p);
    if p in Mentioned(plain, now, cache, inFlight) {
      DueIsReached(key, p, cleaned, plain, now, cache, inFlight, midPlain, midCache);
      if Reached(key, cleaned) {
        var c :| c in cleaned && c != "" && R.Under(key, c);
        assert c in removed;
      } else {
        assert p in active + removed;
      }
    } else {
      assert p in watched;
    }
  }

  /** A clientset no cleaned-up context reached belongs to an active one. */
  lemma LeftClientset(k: string, active: set<string>, removed: set<string>, plain: Store<string>, now: Time,
                      cache: set<string>, inFlight: set<string>)
    requires k in cache && R.NUL in k && !Reached(k, removed)
    requires Mentioned(plain, now, cache, inFlight) - {""} <= active + removed
    ensures R.PrefixOf(k) == "" || R.PrefixOf(k) in active
  {
    R.UnderPrefixOf(k);
    assert R.PrefixOf(k) in Mentioned(plain, now, cache, inFlight);
    assert R.PrefixOf(k) != "" && R.PrefixOf(k) in removed ==> Reached(k, removed);
    assert R.PrefixOf(k) != "" ==> R.PrefixOf(k) in active + removed;
  }

  /** A response still observable belongs to no inactive context. */
  lemma LeftResponse(k: string, active: set<string>, removed: set<string>, plain: Store<string>, now: Time,
                     cache: set<string>, inFlight: set<string>)
    requires k in View(plain, now) && forall c :: c in removed ==> !KeyBelongsToContext(k, c)
    requires Mentioned(plain, now, cache, inFlight) - {""} <= active + removed
    ensures !OfRemoved(k, active)
  {
    forall c | KeyBelongsToContext(k, c) ensures c in active {
      BelongsImpliesAttributed(k, c);
      assert c in Mentioned(plain, now, cache, inFlight) - {""};
      assert c in active + removed;
    }
  }

  lemma GoneLater(before: Store<string>, after: Store<string>, contexts: set<string>, now: Time, later: Time)
    requires Gone(before, contexts, now) && now <= later
    requires forall k :: k in after ==> k in before && after[k] == before[k]
    ensures Gone(after, contexts, later)
  {
  }

  class Sweeper {
    const responses: Cache<string>
    const clientsets: R.ClientsetRegistry
    var watcherRegistry: set<string>
    var contextCancel: set<string>
    /** Contexts whose watcher was cancelled. */
    var cancelled: set<string>

    /** Clientset keys are context NUL token; ClientsetProtocol keeps that over every run. */
    ghost predicate Valid()
      reads this, responses, responses.clock, clientsets
    {
      && responses.Valid()
      && (forall k :: k in clientsets.clientsetCache ==> R.NUL in k)
    }

    constructor (responses: Cache<string>, clientsets: R.ClientsetRegistry)
      requires responses.Valid() && clientsets.clientsetCache == map[]
      ensures Valid() && this.responses == responses && this.clientsets == clientsets
    {
      this.responses := responses;
      this.clientsets := clientsets;
      watcherRegistry, contextCancel, cancelled := {}, {}, {};
    }

    method PurgeCacheForContext(contextKey: string)
      requires Valid()
      modifies responses`store, responses`plain, responses.clock
      ensures Valid() && old(responses.clock.now) <= responses.clock.now
      ensures OnlyDrops(old(responses.plain), responses.plain, KeysOf({contextKey}))
      ensures Gone(responses.plain, {contextKey}, responses.clock.now)
    {
      if contextKey == "" {
        return;
      }
      var keys := responses.GetAll(k => KeyBelongsToContext(k, contextKey));
      var todo := keys.Keys;
      while todo != {}
        invariant responses.Valid() && todo <= keys.Keys
        invariant old(responses.clock.now) <= responses.clock.now
        invariant OnlyDrops(old(responses.plain), responses.plain, KeysOf({contextKey}))
        invariant forall k :: k in keys && k !in todo ==> k !in responses.plain
        invariant forall k ::
          k in responses.plain && Live(responses.plain[k], responses.clock.now) && KeyBelongsToContext(k, contextKey)
          ==> k in keys
      {
        var key :| key in todo;
        todo := todo - {key};
        responses.Delete(key);
      }
    }

    method CleanupRemovedContext(contextKey: string)
      requires Valid()
      modifies responses`store, responses`plain, responses.clock, clientsets
      ensures Valid() && old(responses.clock.now) <= responses.clock.now
      ensures OnlyDrops(old(responses.plain), responses.plain, KeysOf({contextKey}))
      ensures Gone(responses.plain, {contextKey}, responses.clock.now)
      ensures clientsets.Contents() == R.Evict(old(clientsets.Contents()), contextKey, responses.clock.now)
    {
      PurgeCacheForContext(contextKey);
      var now := responses.clock.Read();
      clientsets.EvictClientsetsForCluster(contextKey, now);
    }

    /** Every context that still has a live response, a clientset or a creation under way. */
    method CollectCachedContextKeys() returns (contexts: set<string>)
      requires Valid()
      modifies responses.clock
      ensures Valid() && old(responses.clock.now) <= responses.clock.now
      ensures forall k :: k in clientsets.clientsetCache && R.PrefixOf(k) != "" ==> R.PrefixOf(k) in contexts
      ensures forall k :: k in clientsets.inFlight && R.PrefixOf(k) != "" ==> R.PrefixOf(k) in contexts
      ensures Mentioned(responses.plain, responses.clock.now, clientsets.clientsetCache.Keys,
                        clientsets.inFlight.Keys) - {""} <= contexts
      ensures contexts <= Mentioned(responses.plain, old(responses.clock.now), clientsets.clientsetCache.Keys,
                                    clientsets.inFlight.Keys)
    {
      contexts := {};
      var todo := clientsets.clientsetCache.Keys;
      while todo != {}
        invariant forall k :: k in clientsets.clientsetCache && R.PrefixOf(k) != "" ==>
          k in todo || R.PrefixOf(k) in contexts
        invariant contexts <= set k | k in clientsets.clientsetCache :: R.PrefixOf(k)
      {
        var key :| key in todo;
        todo := todo - {key};
        if R.PrefixOf(key) != "" {
          contexts := contexts + {R.PrefixOf(key)};
        }
      }
      todo := clientsets.inFlight.Keys;
      ghost var fromCache := contexts;
      while todo != {}
        invariant fromCache <= contexts <= fromCache + set k | k in clientsets.inFlight :: R.PrefixOf(k)
        invariant forall k :: k in clientsets.inFlight && R.PrefixOf(k) != "" ==>
          k in todo || R.PrefixOf(k) in contexts
      {
        var key :| key in todo;
        todo := todo - {key};
        if R.PrefixOf(key) != "" {
          contexts := contexts + {R.PrefixOf(key)};
        }
      }
      var allKeys := responses.GetAll(k => true);
      todo := allKeys.Keys;
      ghost var fromClientsets := contexts;
      while todo != {}
        invariant fromClientsets <= contexts <= fromClientsets + set k | k in allKeys :: ContextOfKey(k)
        invariant forall k :: k in allKeys && ContextOfKey(k) != "" ==> k in todo || ContextOfKey(k) in contexts
      {
        var key :| key in todo;
        todo := todo - {key};
        var parts := SplitN(key, DELIMITER, 4);
        if |parts| == 4 && parts[3] != "" {
          contexts := contexts + {Unescape(parts[3])};
        }
      }
    }

    /**
     Exact purge. Afterwards no observable response belongs to an inactive context and no other
     response was dropped; no active context is blocked. A clientset goes exactly when a context
     that is due reaches it -- due by what was watched or cached before the call. Contexts
     mentioned by responses alone count if the response lives to the end of the call, and may
     count if it expires during it. `removed` are the contexts cleaned up.
     */
    method SyncWatchers(activeContexts: seq<string>) returns (ghost removed: set<string>)
      requires Valid()
      modifies this`watcherRegistry, this`contextCancel, this`cancelled
      modifies responses`store, responses`plain, responses.clock, clientsets
      ensures Valid()
      ensures forall k :: k in View(responses.plain, responses.clock.now) ==>
        !OfRemoved(k, set c | c in activeContexts)
      ensures forall k :: k in old(responses.plain) && !OfRemoved(k, set c | c in activeContexts) ==>
        k in responses.plain
      ensures forall k :: k in responses.plain ==>
        k in old(responses.plain) && responses.plain[k] == old(responses.plain)[k]
      ensures old(responses.clock.now) <= responses.clock.now
      ensures old(contextCancel) - (set c | c in activeContexts) <= removed
      ensures (set k | k in old(clientsets.inFlight) :: R.PrefixOf(k)) - (set c | c in activeContexts) - {""} <= removed
      ensures removed <= DueContexts(set c | c in activeContexts, old(contextCancel), old(responses.plain),
        old(responses.clock.now), old(clientsets.clientsetCache.Keys), old(clientsets.inFlight.Keys))
      ensures forall k :: (k in old(clientsets.clientsetCache)
        && Reached(k, DueContexts(set c | c in activeContexts, old(contextCancel), old(responses.plain),
                                  responses.clock.now, old(clientsets.clientsetCache.Keys),
                                  old(clientsets.inFlight.Keys)))
        ==> k !in clientsets.clientsetCache)
      ensures forall k :: k in old(clientsets.clientsetCache) && k !in clientsets.clientsetCache ==>
        Reached(k, DueContexts(set c | c in activeContexts, old(contextCancel), old(responses.plain),
                               old(responses.clock.now), old(clientsets.clientsetCache.Keys),
                               old(clientsets.inFlight.Keys)))
      ensures forall k :: k in clientsets.clientsetCache <==>
        k in old(clientsets.clientsetCache) && forall c :: c in removed && c != "" ==> !R.Under(k, c)
      ensures forall k :: k in clientsets.clientsetCache ==>
        R.PrefixOf(k) == "" || R.PrefixOf(k) in activeContexts
      ensures clientsets.inFlight == old(clientsets.inFlight)
      ensures forall k :: k in clientsets.inFlight ==>
        R.PrefixOf(k) == "" || R.PrefixOf(k) in activeContexts || R.PrefixOf(k) in clientsets.blockedClientsetPrefixes
      ensures clientsets.blockedClientsetPrefixes.Keys ==
        old(clientsets.blockedClientsetPrefixes).Keys - (set c | c in activeContexts) + (removed - {""})
      ensures contextCancel == old(contextCancel) * set c | c in activeContexts
      ensures watcherRegistry == old(watcherRegistry) - (old(contextCancel) - set c | c in activeContexts)
      ensures cancelled == old(cancelled) + (old(contextCancel) - set c | c in activeContexts)
    {
      clientsets.ClearBlockedForActiveContexts(activeContexts);
      var activeMap := set c | c in activeContexts;
      var cleaned := CancelRemoved(activeMap, old(responses.plain), old(clientsets.clientsetCache),
                                   old(clientsets.inFlight), old(clientsets.blockedClientsetPrefixes));
      ghost var midPlain, midCache, midNow := responses.plain, clientsets.clientsetCache.Keys, responses.clock.now;
      var cached := CollectCachedContextKeys();
      ghost var collectedAt := responses.clock.now;
      CleanCached(cached, activeMap, cleaned, old(responses.plain), old(clientsets.clientsetCache),
                  old(clientsets.inFlight), old(clientsets.blockedClientsetPrefixes));
      removed := cleaned + (cached - activeMap);
      MentionedShrinks(old(responses.plain), old(responses.clock.now), old(clientsets.clientsetCache.Keys),
                       clientsets.inFlight.Keys, midPlain, midNow, midCache);
      MentionedShrinks(midPlain, collectedAt, midCache, clientsets.inFlight.Keys,
                       midPlain, responses.clock.now, midCache);
      forall k | k in old(clientsets.clientsetCache)
        && Reached(k, DueContexts(activeMap, old(contextCancel), old(responses.plain), responses.clock.now,
                                  old(clientsets.clientsetCache.Keys), old(clientsets.inFlight.Keys)))
        ensures k !in clientsets.clientsetCache
      {
        DueIsCleaned(k, activeMap, cleaned, removed, old(contextCancel), old(responses.plain), responses.clock.now,
                     old(clientsets.clientsetCache.Keys), old(clientsets.inFlight.Keys), midPlain, midCache);
      }
      forall k | k in clientsets.clientsetCache ensures R.PrefixOf(k) == "" || R.PrefixOf(k) in activeMap {
        LeftClientset(k, activeMap, removed, midPlain, responses.clock.now, midCache, clientsets.inFlight.Keys);
      }
      forall k | k in View(responses.plain, responses.clock.now) ensures !OfRemoved(k, activeMap) {
        LeftResponse(k, activeMap, removed, midPlain, responses.clock.now, midCache, clientsets.inFlight.Keys);
      }
    }

    /** The first loop of SyncWatchers: watched contexts that are no longer active. */
    method CancelRemoved(activeMap: set<string>, ghost plain: Store<string>, ghost cache: map<string, R.Cached>,
                         ghost inFlight: map<string, R.InFlightEntry>, ghost blocked: map<string, R.Time>)
      returns (cleaned: set<string>)
      requires SweepInvariant(activeMap, {}, plain, cache, inFlight, blocked)
      modifies this`watcherRegistry, this`contextCancel, this`cancelled
      modifies responses`store, responses`plain, responses.clock, clientsets
      ensures cleaned == old(contextCancel) - activeMap
      ensures SweepInvariant(activeMap, cleaned, plain, cache, inFlight, blocked)
      ensures old(responses.clock.now) <= responses.clock.now
      ensures contextCancel == old(contextCancel) * activeMap
      ensures watcherRegistry == old(watcherRegistry) - cleaned && cancelled == old(cancelled) + cleaned
    {
      cleaned := {};
      var todo := contextCancel;
      while todo != {}
        invariant SweepInvariant(activeMap, cleaned, plain, cache, inFlight, blocked)
        invariant todo <= old(contextCancel) && old(responses.clock.now) <= responses.clock.now
        invariant cleaned == old(contextCancel) - todo - activeMap
        invariant contextCancel == old(contextCancel) - cleaned
        invariant watcherRegistry == old(watcherRegistry) - cleaned
        invariant cancelled == old(cancelled) + cleaned
      {
        var contextKey :| contextKey in todo;
        todo := todo - {contextKey};
        if contextKey !in activeMap {
          cancelled := cancelled + {contextKey};
          watcherRegistry := watcherRegistry - {contextKey};
          contextCancel := contextCancel - {contextKey};
          CleanOne(contextKey, activeMap, cleaned, plain, cache, inFlight, blocked);
          cleaned := cleaned + {contextKey};
        }
      }
    }

    /** The second loop: collected contexts that are neither active nor cleaned up already. */
    method CleanCached(cached: set<string>, activeMap: set<string>, cleaned: set<string>,
                       ghost plain: Store<string>, ghost cache: map<string, R.Cached>,
                       ghost inFlight: map<string, R.InFlightEntry>, ghost blocked: map<string, R.Time>)
      requires SweepInvariant(activeMap, cleaned, plain, cache, inFlight, blocked)
      modifies responses`store, responses`plain, responses.clock, clientsets
      ensures SweepInvariant(activeMap, cleaned + (cached - activeMap), plain, cache, inFlight, blocked)
      ensures old(responses.clock.now) <= responses.clock.now
      ensures forall k :: k in responses.plain ==>
        k in old(responses.plain) && responses.plain[k] == old(responses.plain)[k]
      ensures clientsets.clientsetCache.Keys <= old(clientsets.clientsetCache.Keys)
    {
      var todo := cached;
      ghost var done := cleaned;
      while todo != {}
        invariant SweepInvariant(activeMap, done, plain, cache, inFlight, blocked)
        invariant todo <= cached && done == cleaned + (cached - todo - activeMap)
        invariant old(responses.clock.now) <= responses.clock.now
        invariant forall k :: k in responses.plain ==>
          k in old(responses.plain) && responses.plain[k] == old(responses.plain)[k]
        invariant clientsets.clientsetCache.Keys <= old(clientsets.clientsetCache.Keys)
      {
        var contextKey :| contextKey in todo;
        todo := todo - {contextKey};
        if contextKey in activeMap || contextKey in cleaned {
          continue;
        }
        CleanOne(contextKey, activeMap, done, plain, cache, inFlight, blocked);
        done := done + {contextKey};
      }
      assert done == cleaned + (cached - activeMap);
    }

    /** State of a sweep that has cleaned up `done`. */
    ghost predicate SweepInvariant(active: set<string>, done: set<string>, plain: Store<string>,
                                   cache: map<string, R.Cached>, inFlight: map<string, R.InFlightEntry>,
                                   blocked: map<string, R.Time>)
      reads this, responses, responses.clock, clientsets
    {
      && Valid()
      && done !! active
      && OnlyDrops(plain, responses.plain, KeysOf(done))
      && Gone(responses.plain, done, responses.clock.now)
      && (forall k :: k in clientsets.clientsetCache <==>
            k in cache && forall c :: c in done && c != "" ==> !R.Under(k, c))
      && clientsets.inFlight == inFlight
      && clientsets.blockedClientsetPrefixes.Keys == blocked.Keys - active + (done - {""})
    }

    method CleanOne(contextKey: string, ghost active: set<string>, ghost done: set<string>,
                    ghost plain: Store<string>, ghost cache: map<string, R.Cached>,
                    ghost inFlight: map<string, R.InFlightEntry>, ghost blocked: map<string, R.Time>)
      requires SweepInvariant(active, done, plain, cache, inFlight, blocked) && contextKey !in active
      modifies responses`store, responses`plain, responses.clock, clientsets
      ensures SweepInvariant(active, done + {contextKey}, plain, cache, inFlight, blocked)
      ensures old(responses.clock.now) <= responses.clock.now
      ensures forall k :: k in responses.plain ==>
        k in old(responses.plain) && responses.plain[k] == old(responses.plain)[k]
      ensures forall k :: k in clientsets.clientsetCache ==> k in old(clientsets.clientsetCache)
    {
      CleanupRemovedContext(contextKey);
      GoneLater(old(responses.plain), responses.plain, done, old(responses.clock.now), responses.clock.now);
      assert KeysOf(done) <= KeysOf(done + {contextKey});
      assert KeysOf({contextKey}) <= KeysOf(done + {contextKey});
    }
  }
}
