/**
 What the clientset cache is for: a clientset that was used in the last ten minutes is used
 again, unless its context was evicted, and none is used after ten idle minutes. Uses and
 evictions are noted in a history beside the protocol, by what calls return and not by what the
 registry keeps.
 */
module ClientsetReuse {
  import opened Wrappers
  import opened GoStrings
  import opened ClientsetRegistry
  import opened ClientsetProtocol

  /** The latest use of each key, and the latest eviction of each prefix. */
  datatype History = History(used: map<string, Time>, evicted: map<string, Time>)

  const NOTHING := History(map[], map[])

  /** A key is used by a call that the cache answers, and by a creation that is not refused. */
  ghost function Noted(s: State, h: History, l: Label): History
    requires Enabled(s, l)
  {
    match l
    case Call(t, contextKey, token, at) =>
      if Step(s, l).calls[t].Returned? then h.(used := h.used[contextKey + [NUL] + token := at]) else h
    case Decides(t, at) => if Step(s, l).calls[t].Returned? then h.(used := h.used[s.calls[t].key := at]) else h
    case Creates(t, _, at) =>
      if PrefixOf(s.calls[t].key) in s.reg.blocked then h else h.(used := h.used[s.calls[t].key := at])
    case Evicts(prefix, at) => if prefix == "" then h else h.(evicted := h.evicted[prefix := at])
    case _ => h
  }

  ghost function Notes(s: State, h: History, ls: seq<Label>): History
    requires ValidRun(s, ls)
    decreases |ls|
  {
    if ls == [] then h else Notes(Step(s, ls[0]), Noted(s, h, ls[0]), ls[1..])
  }

  /** The times the registry keeps are those of the history. */
  ghost predicate Timed(s: State, h: History)
  {
    UsesTimed(s, h) && EvictionsTimed(s, h)
  }

  ghost predicate UsesTimed(s: State, h: History)
  {
    && (forall k :: k in s.reg.cache ==> k in h.used && s.reg.cache[k].lastUsed == h.used[k])
    && (forall k :: k in h.used ==> h.used[k] <= s.now)
  }

  ghost predicate EvictionsTimed(s: State, h: History)
  {
    forall p :: p in s.reg.blocked ==> p in h.evicted && s.reg.blocked[p] == h.evicted[p]
  }

  lemma UsesTimedStep(s: State, h: History, l: Label)
    requires CreatingMeansStale(s) && UsesTimed(s, h) && Enabled(s, l)
    ensures UsesTimed(Step(s, l), Noted(s, h, l))
  {
    if l.Creates? && s.calls[l.t].key in s.reg.cache {
      assert !Fresh(s.reg.cache[s.calls[l.t].key], s.now);
    }
  }

  lemma EvictionsTimedStep(s: State, h: History, l: Label)
    requires EvictionsTimed(s, h) && Enabled(s, l)
    ensures EvictionsTimed(Step(s, l), Noted(s, h, l))
  {
  }

  lemma {:induction false} TimedRun(s: State, h: History, ls: seq<Label>)
    requires Inv(s) && Timed(s, h) && ValidRun(s, ls)
    ensures Inv(Exec(s, ls)) && Timed(Exec(s, ls), Notes(s, h, ls))
    decreases |ls|
  {
    if ls != [] {
      UsesTimedStep(s, h, ls[0]);
      EvictionsTimedStep(s, h, ls[0]);
      InvStep(s, ls[0]);
      TimedRun(Step(s, ls[0]), Noted(s, h, ls[0]), ls[1..]);
    }
  }

  /**
   In every reachable state a call is answered by the cache exactly when its key is cached and
   was used within the TTL, and then with the clientset cached under that key.
   */
  lemma CallIsServed(ls: seq<Label>, t: nat, contextKey: string, token: string, at: Time)
    requires ValidRun(INIT, ls) && Enabled(Exec(INIT, ls), Call(t, contextKey, token, at))
    ensures var s := Exec(INIT, ls); var h := Notes(INIT, NOTHING, ls);
      var key := contextKey + [NUL] + token; var pc := Step(s, Call(t, contextKey, token, at)).calls[t];
      && (pc.Returned? <==> key in s.reg.cache && key in h.used && at - h.used[key] <= CLIENTSET_TTL)
      && (pc.Returned? ==> pc == Returned(key, None, Made(s.reg.cache[key].clientset)))
  {
    TimedRun(INIT, NOTHING, ls);
  }

  /** No eviction of the run reaches the key. */
  ghost predicate Spared(ls: seq<Label>, key: string)
  {
    forall i :: 0 <= i < |ls| && ls[i].Evicts? && ls[i].prefix != "" ==> !Under(key, ls[i].prefix)
  }

  lemma {:induction false} TimePasses(s: State, ls: seq<Label>)
    requires ValidRun(s, ls)
    ensures s.now <= Exec(s, ls).now
    decreases |ls|
  {
    if ls != [] {
      TimePasses(Step(s, ls[0]), ls[1..]);
    }
  }

  /** One step keeps a cached clientset that was used within the TTL and is not evicted. */
  lemma KeptStep(s: State, h: History, l: Label, key: string)
    requires CreatingMeansStale(s) && UsesTimed(s, h) && Enabled(s, l) && key in s.reg.cache
    requires l.Evicts? && l.prefix != "" ==> !Under(key, l.prefix)
    requires Step(s, l).now - h.used[key] <= CLIENTSET_TTL
    ensures key in Step(s, l).reg.cache
    ensures Step(s, l).reg.cache[key].clientset == s.reg.cache[key].clientset
    ensures Noted(s, h, l).used[key] >= h.used[key]
  {
    if l.Creates? && s.calls[l.t].key in s.reg.cache {
      assert !Fresh(s.reg.cache[s.calls[l.t].key], s.now);
    }
  }

  lemma {:induction false} KeptWhileUsed(s: State, h: History, key: string, ls: seq<Label>)
    requires Inv(s) && Timed(s, h) && ValidRun(s, ls) && Spared(ls, key) && key in s.reg.cache
    requires Exec(s, ls).now - h.used[key] <= CLIENTSET_TTL
    ensures var f := Exec(s, ls); var k := Notes(s, h, ls);
      && key in f.reg.cache && f.reg.cache[key].clientset == s.reg.cache[key].clientset
      && key in k.used && k.used[key] >= h.used[key]
    decreases |ls|
  {
    if ls != [] {
      TimePasses(Step(s, ls[0]), ls[1..]);
      assert ls[0] in ls && forall i :: 0 <= i < |ls[1..]| ==> ls[1..][i] == ls[i + 1];
      KeptStep(s, h, ls[0], key);
      UsesTimedStep(s, h, ls[0]);
      EvictionsTimedStep(s, h, ls[0]);
      InvStep(s, ls[0]);
      KeptWhileUsed(Step(s, ls[0]), Noted(s, h, ls[0]), key, ls[1..]);
    }
  }

  /**
   Reuse: from any reachable state, however the run goes on -- other calls, janitor ticks, evictions
   of other contexts -- a call for a cached key within ten minutes of its last use is answered at
   once, and with the same clientset.
   */
  lemma ReusedWithinTTL(before: seq<Label>, contextKey: string, token: string, after: seq<Label>, t: nat, at: Time)
    requires ValidRun(INIT, before) && ValidRun(Exec(INIT, before), after)
    requires var s := Exec(INIT, before); var key := contextKey + [NUL] + token;
      && key in s.reg.cache && key in Notes(INIT, NOTHING, before).used
      && Spared(after, key)
      && Enabled(Exec(s, after), Call(t, contextKey, token, at))
      && at - Notes(INIT, NOTHING, before).used[key] <= CLIENTSET_TTL
    ensures var s := Exec(INIT, before); var key := contextKey + [NUL] + token;
      Step(Exec(s, after), Call(t, contextKey, token, at)).calls[t]
        == Returned(key, None, Made(s.reg.cache[key].clientset))
  {
    TimedRun(INIT, NOTHING, before);
    var s, h := Exec(INIT, before), Notes(INIT, NOTHING, before);
    var key := contextKey + [NUL] + token;
    KeptWhileUsed(s, h, key, after);
    TimedRun(s, h, after);
    var f, k := Exec(s, after), Notes(s, h, after);
    assert f.reg.cache[key].lastUsed == k.used[key];
  }

  /** A creation that is not refused is a use: its key is cached from then on, with its clientset. */
  lemma CreationIsUse(ls: seq<Label>, t: nat, checkedAt: Time, at: Time)
    requires ValidRun(INIT, ls) && Enabled(Exec(INIT, ls), Creates(t, checkedAt, at))
    requires PrefixOf(Exec(INIT, ls).calls[t].key) !in Exec(INIT, ls).reg.blocked
    ensures var s := Exec(INIT, ls); var s' := Step(s, Creates(t, checkedAt, at)); var key := s.calls[t].key;
      && key in s'.reg.cache && s'.reg.cache[key].clientset == s.calls[t].entry
      && Noted(s, Notes(INIT, NOTHING, ls), Creates(t, checkedAt, at)).used[key] == at
  {
    InvRun(INIT, ls);
  }

  /**
   A janitor tick leaves exactly the clientsets used within the TTL, and exactly the blocks of
   prefixes that were evicted within it or under which something is cached or being created.
   */
  lemma JanitorKeepsExactly(ls: seq<Label>, at: Time)
    requires ValidRun(INIT, ls) && Enabled(Exec(INIT, ls), Janitor(at))
    ensures var s := Exec(INIT, ls); var h := Notes(INIT, NOTHING, ls); var s' := Step(s, Janitor(at));
      && (forall k :: k in s'.reg.cache <==>
            k in s.reg.cache && k in h.used && at - h.used[k] <= CLIENTSET_TTL)
      && (forall p :: p in s'.reg.blocked <==>
            p in s.reg.blocked && p in h.evicted &&
            (at - h.evicted[p] < CLIENTSET_TTL
             || (exists k :: k in s'.reg.cache && Under(k, p)) || (exists k :: k in s.reg.inFlight && Under(k, p))))
  {
    TimedRun(INIT, NOTHING, ls);
  }

  // ------------------------------------------------------------ whose clientset a call gets

  /** The clientset, if there is one, was created for the key. */
  predicate MadeFor(s: State, o: Outcome, key: string)
  {
    o.Made? ==> o.clientset < |s.entries| && s.entries[o.clientset].key == key
  }

  ghost predicate OwnOutcomes(s: State)
  {
    && (forall t :: t in s.calls && s.calls[t].Finishing? ==> MadeFor(s, s.calls[t].outcome, s.calls[t].key))
    && (forall e :: 0 <= e < |s.entries| && s.entries[e].outcome.Some? ==>
          MadeFor(s, s.entries[e].outcome.value, s.entries[e].key))
  }

  lemma OwnOutcomesStep(s: State, l: Label)
    requires OwnersFiled(s) && CachedWereCreated(s) && OwnOutcomes(s) && Enabled(s, l)
    ensures OwnOutcomes(Step(s, l))
  {
  }

  lemma {:induction false} OwnOutcomesRun(s: State, ls: seq<Label>)
    requires Inv(s) && OwnOutcomes(s) && ValidRun(s, ls)
    ensures OwnOutcomes(Exec(s, ls))
    decreases |ls|
  {
    if ls != [] {
      OwnOutcomesStep(s, ls[0]);
      InvStep(s, ls[0]);
      OwnOutcomesRun(Step(s, ls[0]), ls[1..]);
    }
  }

  /**
   In every interleaving, whoever returns with a clientset -- from the cache, as its creator, or
   after waiting -- returns with one that was created for its own context and token.
   */
  lemma OwnClientset(ls: seq<Label>, t: nat)
    requires ValidRun(INIT, ls) && t in Exec(INIT, ls).calls && Exec(INIT, ls).calls[t].Returned?
    ensures var s := Exec(INIT, ls); MadeFor(s, s.calls[t].outcome, s.calls[t].key)
  {
    InvRun(INIT, ls);
    OwnOutcomesRun(INIT, ls);
    var s := Exec(INIT, ls);
    assert ResultAgrees(s, s.calls[t]);
  }
}
