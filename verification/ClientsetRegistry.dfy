/**
 backend/pkg/k8cache/authorization.go: the clientset cache, the single-flight table and the
 block list, all guarded by one mutex. Each critical section is one function on Registry;
 class ClientsetRegistry performs the same sections in place, loops included.
 */
module ClientsetRegistry {
  import opened Wrappers
  import opened GoStrings

  type Time = int

  const NUL: char := '\0'
  /** Ten minutes, in nanoseconds. */
  const CLIENTSET_TTL: int := 600_000_000_000

  /** A clientset pointer, known only by its identity. */
  type Clientset = nat

  datatype Cached = Cached(clientset: Clientset, lastUsed: Time)

  datatype Outcome = Made(clientset: Clientset) | Failed(error: string)

  /** E stands for a pointer to an in-flight entry. */
  datatype Registry<+E> = Registry(
    cache: map<string, Cached>,
    inFlight: map<string, E>,
    blocked: map<string, Time>)

  datatype Decision<+E> = Use(clientset: Clientset) | Join(entry: E) | Create

  predicate Fresh(c: Cached, now: Time)
  {
    now - c.lastUsed <= CLIENTSET_TTL
  }

  /** Everything before the final NUL. */
  function PrefixOf(key: string): string
  {
    var i := LastIndex(key, NUL);
    if i >= 0 then key[..i] else key
  }

  predicate Under(key: string, prefix: string)
  {
    prefix + [NUL] <= key
  }

  ghost predicate Active<E>(r: Registry<E>, prefix: string)
  {
    (exists k :: k in r.cache && Under(k, prefix)) || (exists k :: k in r.inFlight && Under(k, prefix))
  }

  /** The key a call uses, or None when the call is refused before touching the registry. */
  function CacheKeyFor(contextKey: string, clusterID: string, token: string): Option<string>
  {
    if contextKey == "" || |Split(clusterID, '+')| < 2 then None
    else Some(contextKey + [NUL] + token)
  }

  // ------------------------------------------------------------ critical sections

  function Touched(c: map<string, Cached>, key: string, now: Time): map<string, Cached>
    requires key in c
  {
    c[key := c[key].(lastUsed := now)]
  }

  function Lookup<E>(r: Registry<E>, key: string, now: Time): (Registry<E>, Option<Clientset>)
  {
    if key !in r.cache then (r, None)
    else if !Fresh(r.cache[key], now) then (r.(cache := r.cache - {key}), None)
    else (r.(cache := Touched(r.cache, key, now)), Some(r.cache[key].clientset))
  }

  function Decide<E>(r: Registry<E>, key: string, now: Time, entry: E): (Registry<E>, Decision<E>)
  {
    if key in r.cache && Fresh(r.cache[key], now) then
      (r.(cache := Touched(r.cache, key, now)), Use(r.cache[key].clientset))
    else if key in r.inFlight then (r, Join(r.inFlight[key]))
    else (r.(inFlight := r.inFlight[key := entry]), Create)
  }

  /** The section after the creator returned; the clock may be read twice. */
  function Keep<E>(r: Registry<E>, key: string, made: Clientset, checkedAt: Time, now: Time)
    : (Registry<E>, Clientset)
  {
    if key in r.cache && Fresh(r.cache[key], checkedAt) then
      (r.(cache := Touched(r.cache, key, checkedAt)), r.cache[key].clientset)
    else if PrefixOf(key) in r.blocked then (r, made)
    else (r.(cache := r.cache[key := Cached(made, now)]), made)
  }

  function Finish<E>(r: Registry<E>, key: string): Registry<E>
  {
    r.(inFlight := r.inFlight - {key})
  }

  function Evict<E>(r: Registry<E>, prefix: string, now: Time): Registry<E>
  {
    if prefix == "" then r
    else r.(blocked := r.blocked[prefix := now],
            cache := map k | k in r.cache && !Under(k, prefix) :: r.cache[k])
  }

  function Unblock<E>(r: Registry<E>, contexts: set<string>): Registry<E>
  {
    r.(blocked := r.blocked - contexts)
  }

  function Expire<E>(r: Registry<E>, now: Time): Registry<E>
  {
    r.(cache := map k | k in r.cache && Fresh(r.cache[k], now) :: r.cache[k])
  }

  ghost function Prune<E>(r: Registry<E>, now: Time): Registry<E>
  {
    r.(blocked := map p | p in r.blocked && (Active(r, p) || now - r.blocked[p] < CLIENTSET_TTL)
                    :: r.blocked[p])
  }

  // ------------------------------------------------------------ keys and prefixes

  lemma UnderPrefixOf(key: string)
    requires NUL in key
    ensures Under(key, PrefixOf(key))
  {
  }

  lemma PrefixOfKey(contextKey: string, token: string)
    requires NUL !in token
    ensures PrefixOf(contextKey + [NUL] + token) == contextKey
  {
    var key := contextKey + [NUL] + token;
    var i := LastIndex(key, NUL);
    assert key[|contextKey|] == NUL;
    assert forall j :: |contextKey| < j < |key| ==> key[j] == token[j - |contextKey| - 1];
    assert i == |contextKey|;
  }

  /**
   A call's key is attributed to its own context exactly when the token has no NUL; that is
   the assumption on bearer tokens under which the block list protects the right context.
   */
  lemma KeyAttributedToItsContext(contextKey: string, clusterID: string, token: string)
    requires CacheKeyFor(contextKey, clusterID, token).Some?
    ensures PrefixOf(CacheKeyFor(contextKey, clusterID, token).value) == contextKey <==> NUL !in token
  {
    var key := contextKey + [NUL] + token;
    if NUL in token {
      var j :| 0 <= j < |token| && token[j] == NUL;
      assert key[|contextKey| + 1 + j] == NUL;
      assert LastIndex(key, NUL) > |contextKey|;
      assert |PrefixOf(key)| > |contextKey|;
    } else {
      PrefixOfKey(contextKey, token);
    }
  }

  /**
   How far one eviction reaches. It drops every clientset under the prefix, but only blocks
   re-caching for keys whose last-NUL prefix is the evicted one. A creation that was under way
   is refused right after the eviction exactly when its own prefix is blocked.
   */
  lemma EvictionBlocksExactly<E>(r: Registry<E>, prefix: string, key: string, made: Clientset,
                                 evictedAt: Time, checkedAt: Time, now: Time)
    requires prefix != "" && Under(key, prefix)
    ensures key !in Evict(r, prefix, evictedAt).cache
    ensures key !in Keep(Evict(r, prefix, evictedAt), key, made, checkedAt, now).0.cache
        <==> PrefixOf(key) == prefix || PrefixOf(key) in r.blocked
  {
  }

  /** The gap is real: evicting "c" drops the clientsets of "c NUL user" and lets them come straight back. */
  lemma StatelessContextIsNotBlocked(r: Registry<nat>)
    requires "c" + [NUL] + "u" !in r.blocked
    ensures var key := "c" + [NUL] + "u" + [NUL] + "t";
      && key !in Evict(r, "c", 0).cache
      && key in Keep(Evict(r, "c", 0), key, 7, 1, 1).0.cache
  {
    var context := "c" + [NUL] + "u";
    var key := context + [NUL] + "t";
    PrefixOfKey(context, "t");
    assert Under(key, "c");
    assert context != "c";
    EvictionBlocksExactly(r, "c", key, 7, 0, 1, 1);
  }

  // ------------------------------------------------------------ the same sections, in place

  class InFlightEntry {
    var closed: bool
    var outcome: Option<Outcome>

    constructor ()
      ensures !closed && outcome == None
    {
      closed, outcome := false, None;
    }
  }

  class ClientsetRegistry {
    var clientsetCache: map<string, Cached>
    var inFlight: map<string, InFlightEntry>
    var blockedClientsetPrefixes: map<string, Time>

    ghost function Contents(): Registry<InFlightEntry>
      reads this
    {
      Registry(clientsetCache, inFlight, blockedClientsetPrefixes)
    }

    constructor ()
      ensures Contents() == Registry(map[], map[], map[])
    {
      clientsetCache, inFlight, blockedClientsetPrefixes := map[], map[], map[];
    }

    method GetCachedClientSet(key: string, now: Time) returns (found: Option<Clientset>)
      modifies this
      ensures (Contents(), found) == Lookup(old(Contents()), key, now)
    {
      if key !in clientsetCache {
        return None;
      }
      var cs := clientsetCache[key];
      if now - cs.lastUsed > CLIENTSET_TTL {
        clientsetCache := clientsetCache - {key};
        return None;
      }
      clientsetCache := clientsetCache[key := cs.(lastUsed := now)];
      return Some(cs.clientset);
    }

    /**
     The second section of GetClientSet: use, join, or become the creator. The entry is made
     up front here; only the creator files it.
     */
    method UseJoinOrCreate(key: string, now: Time) returns (d: Decision<InFlightEntry>, entry: InFlightEntry)
      modifies this
      ensures fresh(entry) && !entry.closed
      ensures (Contents(), d) == Decide(old(Contents()), key, now, entry)
    {
      entry := new InFlightEntry();
      if key in clientsetCache {
        var cs := clientsetCache[key];
        if now - cs.lastUsed <= CLIENTSET_TTL {
          clientsetCache := clientsetCache[key := cs.(lastUsed := now)];
          d := Use(cs.clientset);
          return;
        }
      }
      if key in inFlight {
        d := Join(inFlight[key]);
        return;
      }
      inFlight := inFlight[key := entry];
      d := Create;
    }

    method KeepCreated(key: string, made: Clientset, checkedAt: Time, now: Time) returns (cs: Clientset)
      modifies this
      ensures (Contents(), cs) == Keep(old(Contents()), key, made, checkedAt, now)
    {
      if key in clientsetCache {
        var existing := clientsetCache[key];
        if checkedAt - existing.lastUsed <= CLIENTSET_TTL {
          clientsetCache := clientsetCache[key := existing.(lastUsed := checkedAt)];
          return existing.clientset;
        }
      }
      if PrefixOf(key) in blockedClientsetPrefixes {
        return made;
      }
      clientsetCache := clientsetCache[key := Cached(made, now)];
      return made;
    }

    method FinishInFlightClientset(key: string, entry: InFlightEntry, outcome: Outcome)
      requires !entry.closed
      modifies this, entry
      ensures Contents() == Finish(old(Contents()), key)
      ensures entry.closed && entry.outcome == Some(outcome)
    {
      entry.outcome := Some(outcome);
      inFlight := inFlight - {key};
      entry.closed := true;
    }

    method EvictClientsetsForCluster(prefix: string, now: Time)
      modifies this
      ensures Contents() == Evict(old(Contents()), prefix, now)
    {
      if prefix == "" {
        return;
      }
      blockedClientsetPrefixes := blockedClientsetPrefixes[prefix := now];
      var todo := clientsetCache.Keys;
      while todo != {}
        invariant todo <= old(clientsetCache).Keys
        invariant clientsetCache == map k | k in old(clientsetCache) && (k in todo || !Under(k, prefix))
                                      :: old(clientsetCache)[k]
        invariant inFlight == old(inFlight)
        invariant blockedClientsetPrefixes == old(blockedClientsetPrefixes)[prefix := now]
      {
        var key :| key in todo;
        todo := todo - {key};
        if prefix + [NUL] <= key {
          clientsetCache := clientsetCache - {key};
        }
      }
    }

    method ClearBlockedForActiveContexts(contexts: seq<string>)
      modifies this
      ensures Contents() == Unblock(old(Contents()), set c | c in contexts)
    {
      for i := 0 to |contexts|
        invariant blockedClientsetPrefixes == old(blockedClientsetPrefixes) - (set c | c in contexts[..i])
        invariant clientsetCache == old(clientsetCache) && inFlight == old(inFlight)
      {
        blockedClientsetPrefixes := blockedClientsetPrefixes - {contexts[i]};
        assert contexts[..i + 1] == contexts[..i] + [contexts[i]];
      }
      assert contexts[..|contexts|] == contexts;
    }

    method HasActivityForPrefix(prefix: string) returns (active: bool)
      ensures active <==> Active(Contents(), prefix)
    {
      var todo := clientsetCache.Keys;
      while todo != {}
        invariant todo <= clientsetCache.Keys
        invariant forall k :: k in clientsetCache && Under(k, prefix) ==> k in todo
      {
        var key :| key in todo;
        if Under(key, prefix) {
          return true;
        }
        todo := todo - {key};
      }
      todo := inFlight.Keys;
      while todo != {}
        invariant todo <= inFlight.Keys
        invariant forall k :: k in inFlight && Under(k, prefix) ==> k in todo
      {
        var key :| key in todo;
        if Under(key, prefix) {
          return true;
        }
        todo := todo - {key};
      }
      return false;
    }

    method PruneBlockedClientsetPrefixes(now: Time)
      modifies this
      ensures Contents() == Prune(old(Contents()), now)
    {
      var todo := blockedClientsetPrefixes.Keys;
      ghost var before := Contents();
      while todo != {}
        invariant todo <= before.blocked.Keys
        invariant clientsetCache == before.cache && inFlight == before.inFlight
        invariant blockedClientsetPrefixes ==
          map p | p in before.blocked && (p in todo || p in Prune(before, now).blocked) :: before.blocked[p]
      {
        var prefix :| prefix in todo;
        var active := HasActivityForPrefix(prefix);
        assert active == Active(before, prefix);
        if !active && now - blockedClientsetPrefixes[prefix] >= CLIENTSET_TTL {
          blockedClientsetPrefixes := blockedClientsetPrefixes - {prefix};
        }
        todo := todo - {prefix};
      }
    }

    /** One tick of the janitor. */
    method EvictExpiredClientsets(now: Time)
      modifies this
      ensures Contents() == Prune(Expire(old(Contents()), now), now)
    {
      var todo := clientsetCache.Keys;
      while todo != {}
        invariant todo <= old(clientsetCache).Keys
        invariant inFlight == old(inFlight) && blockedClientsetPrefixes == old(blockedClientsetPrefixes)
        invariant clientsetCache ==
          map k | k in old(clientsetCache) && (k in todo || Fresh(old(clientsetCache)[k], now))
            :: old(clientsetCache)[k]
      {
        var key :| key in todo;
        todo := todo - {key};
        if now - clientsetCache[key].lastUsed > CLIENTSET_TTL {
          clientsetCache := clientsetCache - {key};
        }
      }
      assert Contents() == Expire(old(Contents()), now);
      PruneBlockedClientsetPrefixes(now);
    }
  }
}
