/**
 Any number of goroutines running GetClientSet (backend/pkg/k8cache/authorization.go:346-396)
 against evictions, janitor ticks and re-activations, interleaved critical section by
 critical section. Goroutines and in-flight entries are known by number; the clientset that
 entry e's creator returns is a fresh pointer, so it is numbered e as well.
 */
module ClientsetProtocol {
  import opened Wrappers
  import opened GoStrings
  import opened ClientsetRegistry

  /** closes counts close(entry.waitCh); a second one would panic. */
  datatype Entry = Entry(key: string, closes: nat, outcome: Option<Outcome>)

  datatype Pc =
    | Deciding(key: string)
    | Creating(key: string, entry: nat)
    | Finishing(key: string, entry: nat, outcome: Outcome)
    | Waiting(key: string, entry: nat)
    | Returned(key: string, via: Option<nat>, outcome: Outcome)
  {
    /** The goroutine owns an in-flight entry. */
    predicate Owner() { Creating? || Finishing? }
  }

  datatype State = State(reg: Registry<nat>, entries: seq<Entry>, calls: map<nat, Pc>, now: Time)

  datatype Label =
    | Call(t: nat, contextKey: string, token: string, at: Time)
    | Decides(t: nat, at: Time)
    | Creates(t: nat, checkedAt: Time, at: Time)
    | CreateFails(t: nat, error: string)
    | Finishes(t: nat)
    | Wakes(t: nat)
    | Evicts(prefix: string, at: Time)
    | Janitor(at: Time)
    | Activates(contexts: set<string>)

  const INIT := State(Registry(map[], map[], map[]), [], map[], 0)

  ghost predicate Enabled(s: State, l: Label)
  {
    match l
    case Call(t, contextKey, token, at) => t !in s.calls && contextKey != "" && s.now <= at
    case Decides(t, at) => t in s.calls && s.calls[t].Deciding? && s.now <= at
    case Creates(t, checkedAt, at) => t in s.calls && s.calls[t].Creating? && s.now <= checkedAt <= at
    case CreateFails(t, _) => t in s.calls && s.calls[t].Creating?
    case Finishes(t) => t in s.calls && s.calls[t].Finishing? && s.calls[t].entry < |s.entries|
    case Wakes(t) =>
      && t in s.calls && s.calls[t].Waiting?
      && s.calls[t].entry < |s.entries| && s.entries[s.calls[t].entry].closes > 0
      && s.entries[s.calls[t].entry].outcome.Some?
    case Evicts(_, at) => s.now <= at
    case Janitor(at) => s.now <= at
    case Activates(_) => true
  }

  ghost function Step(s: State, l: Label): State
    requires Enabled(s, l)
  {
    match l
    case Call(t, contextKey, token, at) =>
      var key := contextKey + [NUL] + token;
      var (reg, found) := Lookup(s.reg, key, at);
      s.(reg := reg, now := at,
         calls := s.calls[t := if found.Some? then Returned(key, None, Made(found.value)) else Deciding(key)])
    case Decides(t, at) =>
      var key := s.calls[t].key;
      var (reg, d) := Decide(s.reg, key, at, |s.entries|);
      (match d
       case Use(cs) => s.(reg := reg, now := at, calls := s.calls[t := Returned(key, None, Made(cs))])
       case Join(e) => s.(reg := reg, now := at, calls := s.calls[t := Waiting(key, e)])
       case Create => State(reg, s.entries + [Entry(key, 0, None)],
                            s.calls[t := Creating(key, |s.entries|)], at))
    case Creates(t, checkedAt, at) =>
      var pc := s.calls[t];
      var (reg, cs) := Keep(s.reg, pc.key, pc.entry, checkedAt, at);
      s.(reg := reg, now := at, calls := s.calls[t := Finishing(pc.key, pc.entry, Made(cs))])
    case CreateFails(t, error) =>
      var pc := s.calls[t];
      s.(calls := s.calls[t := Finishing(pc.key, pc.entry, Failed(error))])
    case Finishes(t) =>
      var pc := s.calls[t];
      var entry := s.entries[pc.entry];
      s.(reg := Finish(s.reg, pc.key),
         entries := s.entries[pc.entry := Entry(entry.key, entry.closes + 1, Some(pc.outcome))],
         calls := s.calls[t := Returned(pc.key, Some(pc.entry), pc.outcome)])
    case Wakes(t) =>
      var pc := s.calls[t];
      s.(calls := s.calls[t := Returned(pc.key, Some(pc.entry), s.entries[pc.entry].outcome.value)])
    case Evicts(prefix, at) => s.(reg := Evict(s.reg, prefix, at), now := at)
    case Janitor(at) => s.(reg := Prune(Expire(s.reg, at), at), now := at)
    case Activates(contexts) => s.(reg := Unblock(s.reg, contexts))
  }

  ghost predicate ValidRun(s: State, ls: seq<Label>)
    decreases |ls|
  {
    ls == [] || (Enabled(s, ls[0]) && ValidRun(Step(s, ls[0]), ls[1..]))
  }

  ghost function Exec(s: State, ls: seq<Label>): State
    requires ValidRun(s, ls)
    decreases |ls|
  {
    if ls == [] then s else Exec(Step(s, ls[0]), ls[1..])
  }

  // ------------------------------------------------------------ the invariant

  /** Every key was built as context NUL token. */
  ghost predicate KeysShaped(s: State)
  {
    && (forall k :: k in s.reg.cache ==> NUL in k)
    && (forall k :: k in s.reg.inFlight ==> NUL in k)
    && (forall t :: t in s.calls ==> NUL in s.calls[t].key)
  }

  /** An owner's entry is open and is the one filed under its key ... */
  ghost predicate OwnersFiled(s: State)
  {
    forall t :: t in s.calls && s.calls[t].Owner() ==>
      && s.calls[t].key in s.reg.inFlight
      && s.reg.inFlight[s.calls[t].key] == s.calls[t].entry
      && s.calls[t].entry < |s.entries|
      && s.entries[s.calls[t].entry] == Entry(s.calls[t].key, 0, None)
  }

  ghost predicate OwnedBy(s: State, t: nat, key: string)
  {
    t in s.calls && s.calls[t].Owner() && s.calls[t].key == key
  }

  /** ... every filed entry has an owner ... */
  ghost predicate FiledOwned(s: State)
  {
    forall k :: k in s.reg.inFlight ==> exists t :: OwnedBy(s, t, k)
  }

  /** ... and no key has two. */
  ghost predicate OneOwner(s: State)
  {
    forall t, t', k :: OwnedBy(s, t, k) && OwnedBy(s, t', k) ==> t == t'
  }

  /** Entries close once, when their outcome is recorded; until then they stay filed. */
  ghost predicate EntriesOnce(s: State)
  {
    forall e :: 0 <= e < |s.entries| ==>
      && s.entries[e].closes <= 1
      && (s.entries[e].closes == 1 <==> s.entries[e].outcome.Some?)
      && (s.entries[e].closes == 0 ==>
            s.entries[e].key in s.reg.inFlight && s.reg.inFlight[s.entries[e].key] == e)
  }

  ghost predicate ResultAgrees(s: State, pc: Pc)
  {
    match pc
    case Waiting(k, e) => e < |s.entries| && s.entries[e].key == k
    case Returned(k, Some(e), o) => e < |s.entries| && s.entries[e].key == k && s.entries[e].outcome == Some(o)
    case Returned(k, None, o) => o.Made? && o.clientset < |s.entries| && s.entries[o.clientset].key == k
    case _ => true
  }

  ghost predicate ResultsAgree(s: State)
  {
    forall t :: t in s.calls ==> ResultAgrees(s, s.calls[t])
  }

  ghost predicate NothingBlockedCached(s: State)
  {
    forall k :: k in s.reg.cache ==> PrefixOf(k) !in s.reg.blocked
  }

  /** While a key is being created the cache holds no fresh clientset for it. */
  ghost predicate CreatingMeansStale(s: State)
  {
    forall t :: t in s.calls && s.calls[t].Creating? && s.calls[t].key in s.reg.cache ==>
      !Fresh(s.reg.cache[s.calls[t].key], s.now)
  }

  /** A cached clientset is filed under the key of its entry, whose creator is past its store step. */
  ghost predicate CachedWereCreated(s: State)
  {
    forall k :: k in s.reg.cache ==>
      && s.reg.cache[k].clientset < |s.entries|
      && s.entries[s.reg.cache[k].clientset].key == k
      && forall t :: t in s.calls && s.calls[t].Creating? ==> s.calls[t].entry != s.reg.cache[k].clientset
  }

  ghost predicate Inv(s: State)
  {
    && KeysShaped(s) && OwnersFiled(s) && FiledOwned(s) && OneOwner(s) && EntriesOnce(s)
    && ResultsAgree(s) && NothingBlockedCached(s) && CreatingMeansStale(s) && CachedWereCreated(s)
  }

  lemma KeyOfCallShaped(contextKey: string, token: string)
    ensures NUL in contextKey + [NUL] + token
  {
  }

  lemma EvictKeepsUnblocked(r: Registry<nat>, prefix: string, at: Time, k: string)
    requires NUL in k && k in Evict(r, prefix, at).cache && PrefixOf(k) !in r.blocked
    ensures PrefixOf(k) !in Evict(r, prefix, at).blocked
  {
  }

  lemma KeysStep(s: State, l: Label)
    requires KeysShaped(s) && Enabled(s, l)
    ensures KeysShaped(Step(s, l))
  {
    if l.Call? {
      KeyOfCallShaped(l.contextKey, l.token);
    }
  }

  lemma BlockStep(s: State, l: Label)
    requires KeysShaped(s) && NothingBlockedCached(s) && Enabled(s, l)
    ensures NothingBlockedCached(Step(s, l))
  {
    var s' := Step(s, l);
    forall k | k in s'.reg.cache && l.Evicts? ensures PrefixOf(k) !in s'.reg.blocked {
      EvictKeepsUnblocked(s.reg, l.prefix, l.at, k);
    }
  }

  /** What a step does to owners: one may appear for an unfiled key, one may leave. */
  lemma OwnersChange(s: State, l: Label, t: nat, k: string)
    requires OwnersFiled(s) && Enabled(s, l)
    ensures OwnedBy(s, t, k) && !(l.Finishes? && l.t == t) ==> OwnedBy(Step(s, l), t, k)
    ensures OwnedBy(Step(s, l), t, k) ==>
      || (OwnedBy(s, t, k) && Step(s, l).calls[t].entry == s.calls[t].entry && !(l.Finishes? && l.t == t))
      || (l.Decides? && l.t == t && k !in s.reg.inFlight && Step(s, l).calls[t] == Creating(k, |s.entries|))
  {
  }

  lemma FilingStep(s: State, l: Label, t: nat)
    requires OwnersFiled(s) && OneOwner(s) && Enabled(s, l)
    requires t in Step(s, l).calls && Step(s, l).calls[t].Owner()
    ensures var s' := Step(s, l); var pc := s'.calls[t];
      && pc.key in s'.reg.inFlight && s'.reg.inFlight[pc.key] == pc.entry
      && pc.entry < |s'.entries| && s'.entries[pc.entry] == Entry(pc.key, 0, None)
  {
    var k := Step(s, l).calls[t].key;
    assert OwnedBy(Step(s, l), t, k);
    OwnersChange(s, l, t, k);
    if l.Finishes? {
      assert OwnedBy(s, t, k) && OwnedBy(s, l.t, s.calls[l.t].key);
      assert s.calls[l.t].key != k;
    }
  }

  lemma OwnersStep(s: State, l: Label)
    requires OwnersFiled(s) && FiledOwned(s) && OneOwner(s) && Enabled(s, l)
    ensures OwnersFiled(Step(s, l)) && FiledOwned(Step(s, l)) && OneOwner(Step(s, l))
  {
    var s' := Step(s, l);
    forall t | t in s'.calls && s'.calls[t].Owner()
      ensures
        && s'.calls[t].key in s'.reg.inFlight
        && s'.reg.inFlight[s'.calls[t].key] == s'.calls[t].entry
        && s'.calls[t].entry < |s'.entries|
        && s'.entries[s'.calls[t].entry] == Entry(s'.calls[t].key, 0, None)
    {
      FilingStep(s, l, t);
    }
    forall t, t', k | OwnedBy(s', t, k) && OwnedBy(s', t', k) ensures t == t' {
      OwnersChange(s, l, t, k);
      OwnersChange(s, l, t', k);
    }
    forall k | k in s'.reg.inFlight ensures exists t :: OwnedBy(s', t, k) {
      if k in s.reg.inFlight {
        var t :| OwnedBy(s, t, k);
        OwnersChange(s, l, t, k);
        assert OwnedBy(s', t, k);
      } else {
        assert OwnedBy(s', l.t, k);
      }
    }
  }

  lemma EntriesStep(s: State, l: Label)
    requires OwnersFiled(s) && EntriesOnce(s) && Enabled(s, l)
    ensures EntriesOnce(Step(s, l))
  {
    var s' := Step(s, l);
    if l.Finishes? {
      var pc := s.calls[l.t];
      assert s'.entries[pc.entry] == Entry(pc.key, 1, Some(pc.outcome));
    }
  }

  /** A recorded outcome is never changed, nor an entry's key. */
  lemma ResultKept(s: State, l: Label, pc: Pc)
    requires OwnersFiled(s) && EntriesOnce(s) && Enabled(s, l) && ResultAgrees(s, pc)
    ensures ResultAgrees(Step(s, l), pc)
  {
    if l.Finishes? {
      assert s.entries[s.calls[l.t].entry].outcome == None;
    }
  }

  lemma ResultsStep(s: State, l: Label)
    requires OwnersFiled(s) && FiledOwned(s) && EntriesOnce(s) && ResultsAgree(s) && CachedWereCreated(s)
    requires Enabled(s, l)
    ensures ResultsAgree(Step(s, l))
  {
    var s' := Step(s, l);
    if l.Decides? && s'.calls[l.t].Waiting? {
      var o :| OwnedBy(s, o, s.calls[l.t].key);
    }
    forall t | t in s'.calls ensures ResultAgrees(s', s'.calls[t]) {
      if t in s.calls && s'.calls[t] == s.calls[t] {
        ResultKept(s, l, s.calls[t]);
      }
    }
  }

  lemma CreatingOthers(s: State, l: Label, t: nat)
    requires OwnersFiled(s) && OneOwner(s) && Enabled(s, l) && l.Creates?
    requires t in Step(s, l).calls && Step(s, l).calls[t].Creating?
    ensures t in s.calls && s.calls[t] == Step(s, l).calls[t]
    ensures s.calls[t].key != s.calls[l.t].key && s.calls[t].entry != s.calls[l.t].entry
  {
    assert OwnedBy(s, t, s.calls[t].key) && OwnedBy(s, l.t, s.calls[l.t].key);
  }

  lemma StaleStep(s: State, l: Label)
    requires OwnersFiled(s) && OneOwner(s) && CreatingMeansStale(s) && Enabled(s, l)
    ensures CreatingMeansStale(Step(s, l))
  {
    var s' := Step(s, l);
    forall t | t in s'.calls && s'.calls[t].Creating? && s'.calls[t].key in s'.reg.cache
      ensures !Fresh(s'.reg.cache[s'.calls[t].key], s'.now)
    {
      if l.Creates? {
        CreatingOthers(s, l, t);
      }
    }
  }

  lemma ProvenanceStep(s: State, l: Label)
    requires OwnersFiled(s) && OneOwner(s) && CreatingMeansStale(s) && CachedWereCreated(s) && Enabled(s, l)
    ensures CachedWereCreated(Step(s, l))
  {
    var s' := Step(s, l);
    forall k, t | k in s'.reg.cache && t in s'.calls && s'.calls[t].Creating?
      ensures s'.calls[t].entry != s'.reg.cache[k].clientset
    {
      if l.Creates? {
        CreatingOthers(s, l, t);
      }
    }
  }

  lemma InvStep(s: State, l: Label)
    requires Inv(s) && Enabled(s, l)
    ensures Inv(Step(s, l))
  {
    KeysStep(s, l);
    BlockStep(s, l);
    OwnersStep(s, l);
    EntriesStep(s, l);
    ResultsStep(s, l);
    StaleStep(s, l);
    ProvenanceStep(s, l);
  }

  lemma {:induction false} InvRun(s: State, ls: seq<Label>)
    requires Inv(s) && ValidRun(s, ls)
    ensures Inv(Exec(s, ls))
    decreases |ls|
  {
    if ls != [] {
      InvStep(s, ls[0]);
      InvRun(Step(s, ls[0]), ls[1..]);
    }
  }

  // ------------------------------------------------------------ main results

  /**
   Single flight, in every reachable state: at most one goroutine is creating for a key and
   inFlight files exactly its entry; a waitCh is closed at most once, and exactly when the
   outcome is there; whoever returned through an entry, creator or waiter, returned that
   entry's outcome.
   */
  lemma SingleFlight(ls: seq<Label>, t: nat, t': nat)
    requires ValidRun(INIT, ls)
    requires t in Exec(INIT, ls).calls && t' in Exec(INIT, ls).calls
    ensures var s := Exec(INIT, ls); var a, b := s.calls[t], s.calls[t'];
      && (a.Owner() && b.Owner() && a.key == b.key ==> t == t')
      && (a.Owner() ==> a.key in s.reg.inFlight && s.reg.inFlight[a.key] == a.entry)
      && (forall e :: 0 <= e < |s.entries| ==>
            s.entries[e].closes == (if s.entries[e].outcome.Some? then 1 else 0))
      && (a.Returned? && a.via.Some? ==>
            a.via.value < |s.entries| && s.entries[a.via.value].key == a.key
            && s.entries[a.via.value].outcome == Some(a.outcome))
      && (a.Returned? && b.Returned? && a.via.Some? && a.via == b.via ==> a.outcome == b.outcome)
      && (a.Returned? && a.via.None? ==>
            a.outcome.Made? && a.outcome.clientset < |s.entries| && s.entries[a.outcome.clientset].key == a.key)
  {
    InvRun(INIT, ls);
    var s := Exec(INIT, ls);
    if s.calls[t].Owner() && s.calls[t'].Owner() && s.calls[t].key == s.calls[t'].key {
      assert OwnedBy(s, t, s.calls[t].key) && OwnedBy(s, t', s.calls[t].key);
    }
  }

  /** No lost wake-up: a waiter's entry is closed, or its creator is still under way. */
  lemma WaitersAreServed(ls: seq<Label>, t: nat)
    requires ValidRun(INIT, ls)
    requires t in Exec(INIT, ls).calls && Exec(INIT, ls).calls[t].Waiting?
    ensures var s := Exec(INIT, ls);
      || Enabled(s, Wakes(t))
      || exists o :: OwnedBy(s, o, s.calls[t].key) && s.calls[o].entry == s.calls[t].entry
  {
    InvRun(INIT, ls);
    var s := Exec(INIT, ls);
    var e := s.calls[t].entry;
    assert 0 <= e < |s.entries|;
    if s.entries[e].closes == 0 {
      assert s.entries[e].key in s.reg.inFlight;
      var o :| OwnedBy(s, o, s.entries[e].key);
    }
  }

  /** The "double-check" of createAndCacheClientSet never finds a fresh clientset. */
  lemma DoubleCheckIsRedundant(ls: seq<Label>, t: nat, checkedAt: Time, at: Time)
    requires ValidRun(INIT, ls) && Enabled(Exec(INIT, ls), Creates(t, checkedAt, at))
    ensures var s := Exec(INIT, ls); var s' := Step(s, Creates(t, checkedAt, at));
      s'.calls[t].outcome == Made(s.calls[t].entry)
  {
    InvRun(INIT, ls);
  }

  /** A created clientset enters the cache exactly when its prefix is not blocked at that moment. */
  lemma StoredExactlyWhenNotBlocked(ls: seq<Label>, t: nat, checkedAt: Time, at: Time)
    requires ValidRun(INIT, ls) && Enabled(Exec(INIT, ls), Creates(t, checkedAt, at))
    ensures var s := Exec(INIT, ls); var s' := Step(s, Creates(t, checkedAt, at));
      (exists k :: k in s'.reg.cache && s'.reg.cache[k].clientset == s.calls[t].entry)
        <==> PrefixOf(s.calls[t].key) !in s.reg.blocked
  {
    InvRun(INIT, ls);
    var s := Exec(INIT, ls);
    var s' := Step(s, Creates(t, checkedAt, at));
    var key := s.calls[t].key;
    if PrefixOf(key) in s.reg.blocked {
      assert s'.reg.cache == s.reg.cache;
    } else {
      assert key in s'.reg.cache && s'.reg.cache[key].clientset == s.calls[t].entry;
    }
  }

  /** Clientset e is not cached, and if its creation has yet to store it, its prefix is blocked. */
  ghost predicate Barred(s: State, e: nat)
  {
    && e < |s.entries|
    && (forall k :: k in s.reg.cache ==> s.reg.cache[k].clientset != e)
    && (forall t :: t in s.calls && s.calls[t].Creating? && s.calls[t].entry == e ==>
          PrefixOf(s.calls[t].key) in s.reg.blocked)
  }

  ghost predicate UnderWay(s: State, e: nat)
  {
    exists t :: t in s.calls && s.calls[t].Creating? && s.calls[t].entry == e
  }

  ghost predicate ReactivatesFor(s: State, l: Label, e: nat)
  {
    l.Activates? && e < |s.entries| && PrefixOf(s.entries[e].key) in l.contexts
  }

  /** The run never re-activates the context of entry e while e's creator is still under way. */
  ghost predicate NotReactivated(s: State, ls: seq<Label>, e: nat)
    requires ValidRun(s, ls)
    decreases |ls|
  {
    ls == [] || ((ReactivatesFor(s, ls[0], e) ==> !UnderWay(s, e)) && NotReactivated(Step(s, ls[0]), ls[1..], e))
  }

  /** The janitor cannot lift a block while a creation under it is in flight. */
  lemma JanitorKeepsBlock(s: State, t: nat, at: Time)
    requires Inv(s) && t in s.calls && s.calls[t].Owner()
    requires PrefixOf(s.calls[t].key) in s.reg.blocked
    ensures PrefixOf(s.calls[t].key) in Prune(Expire(s.reg, at), at).blocked
  {
  }

  lemma EntryKeyKept(s: State, l: Label, e: nat)
    requires OwnersFiled(s) && Enabled(s, l) && e < |s.entries|
    ensures e < |Step(s, l).entries| && Step(s, l).entries[e].key == s.entries[e].key
  {
  }

  /** The creating goroutine of e is refused by the block list and stores nothing. */
  lemma NotCachedStep(s: State, l: Label, e: nat, k: string)
    requires Barred(s, e) && CreatingMeansStale(s) && Enabled(s, l)
    requires k in Step(s, l).reg.cache
    ensures Step(s, l).reg.cache[k].clientset != e
  {
  }

  lemma BarredStep(s: State, l: Label, e: nat)
    requires Inv(s) && Enabled(s, l) && Barred(s, e)
    requires ReactivatesFor(s, l, e) ==> !UnderWay(s, e)
    ensures Barred(Step(s, l), e)
    ensures Step(s, l).entries[e].key == s.entries[e].key
  {
    var s' := Step(s, l);
    EntryKeyKept(s, l, e);
    forall k | k in s'.reg.cache ensures s'.reg.cache[k].clientset != e {
      NotCachedStep(s, l, e, k);
    }
    forall t | t in s'.calls && s'.calls[t].Creating? && s'.calls[t].entry == e
      ensures PrefixOf(s'.calls[t].key) in s'.reg.blocked
    {
      StillBlocked(s, l, t, e);
    }
  }

  lemma StillBlocked(s: State, l: Label, t: nat, e: nat)
    requires Inv(s) && Enabled(s, l) && Barred(s, e)
    requires ReactivatesFor(s, l, e) ==> !UnderWay(s, e)
    requires t in Step(s, l).calls && Step(s, l).calls[t].Creating? && Step(s, l).calls[t].entry == e
    ensures PrefixOf(Step(s, l).calls[t].key) in Step(s, l).reg.blocked
  {
    assert t in s.calls && s.calls[t] == Step(s, l).calls[t];
    assert s.entries[e].key == s.calls[t].key;
    if l.Janitor? {
      JanitorKeepsBlock(s, t, l.at);
    }
  }

  lemma {:induction false} BarredRun(s: State, ls: seq<Label>, e: nat)
    requires Inv(s) && ValidRun(s, ls) && Barred(s, e) && NotReactivated(s, ls, e)
    ensures Barred(Exec(s, ls), e)
    decreases |ls|
  {
    if ls != [] {
      BarredStep(s, ls[0], e);
      InvStep(s, ls[0]);
      BarredRun(Step(s, ls[0]), ls[1..], e);
    }
  }

  /**
   The eviction barrier. Entry e was filed for (contextKey, token) before the context is evicted:
   its creator may be creating, about to unfile it, or long done. However the run goes on --
   janitor ticks, other evictions, other calls -- the clientset of e is never in the cache
   again, unless the context is re-activated before the creator has come to its store step.
   */
  lemma EvictionBarrier(before: seq<Label>, contextKey: string, token: string, e: nat, at: Time, after: seq<Label>)
    requires ValidRun(INIT, before) && contextKey != "" && NUL !in token
    requires var s := Exec(INIT, before);
      && e < |s.entries| && s.entries[e].key == contextKey + [NUL] + token
      && s.now <= at
      && ValidRun(Step(s, Evicts(contextKey, at)), after)
      && NotReactivated(Step(s, Evicts(contextKey, at)), after, e)
    ensures var final := Exec(Step(Exec(INIT, before), Evicts(contextKey, at)), after);
      forall k :: k in final.reg.cache ==> final.reg.cache[k].clientset != e
  {
    InvRun(INIT, before);
    var s := Exec(INIT, before);
    InvStep(s, Evicts(contextKey, at));
    EvictionBars(s, contextKey, token, e, at);
    BarredRun(Step(s, Evicts(contextKey, at)), after, e);
  }

  lemma EvictionBars(s: State, contextKey: string, token: string, e: nat, at: Time)
    requires Inv(s) && Enabled(s, Evicts(contextKey, at)) && contextKey != "" && NUL !in token
    requires e < |s.entries| && s.entries[e].key == contextKey + [NUL] + token
    ensures Barred(Step(s, Evicts(contextKey, at)), e)
  {
    PrefixOfKey(contextKey, token);
    assert Under(s.entries[e].key, contextKey);
  }

  /** In every reachable state nothing is cached under a blocked context. */
  lemma BlockedContextsStayEmpty(ls: seq<Label>, contextKey: string, token: string)
    requires ValidRun(INIT, ls) && NUL !in token
    ensures var r := Exec(INIT, ls).reg;
      contextKey in r.blocked ==> contextKey + [NUL] + token !in r.cache
  {
    InvRun(INIT, ls);
    PrefixOfKey(contextKey, token);
  }
}
