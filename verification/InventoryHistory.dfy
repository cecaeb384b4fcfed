/**
 What each event of the Cluster Inventory runner does, entry by entry, and what a whole run
 leaves recorded, as told by its events alone.
 */
module InventoryHistory {
  import opened Wrappers
  import opened InventoryModel
  import opened InventoryRuns
  import opened InventoryConvergence

  // ------------------------------------------------------------ one callback of a current root

  /** The profile is gone, with its key and its context, and nothing else is. */
  ghost predicate Removed(s: State, key: string, s': State)
  {
    && key !in s'.m.profiles && (forall r :: r in s'.m.keysByRoot ==> key !in s'.m.keysByRoot[r])
    && (forall k :: k != key ==> (k in s'.m.profiles <==> k in s.m.profiles))
    && (forall k :: k in s'.m.profiles ==> s'.m.profiles[k] == s.m.profiles[k])
    && (forall n :: n in s'.store <==> n in s.store && (key in s.m.profiles ==> n != s.m.profiles[key]))
    && (forall n :: n in s'.store ==> s'.store[n] == s.store[n])
    && s'.m.roots == s.m.roots && s'.cancelled == s.cancelled
  }

  /** A delete deletes: key, record and context of the profile, and nothing else. */
  lemma DeleteRemoves(o: Options, s: State, st: RootState, p: Profile)
    requires KeysOwned(s.m) && Current(s.m, st) && SlashFree(p)
    ensures Removed(s, KeyOf(st, p), Step(o, s, Delete(st, p)))
  {
    var key := KeyOf(st, p);
    var s' := Step(o, s, Delete(st, p));
    assert Owned(key, st.rootID);
    forall r | r in s'.m.keysByRoot ensures key !in s'.m.keysByRoot[r] {
      if key in s'.m.keysByRoot[r] {
        assert Owned(key, r);
        OneOwner(key, r, st.rootID);
      }
    }
  }

  /** So does an upsert of a profile that no longer matches the selector. */
  lemma UnselectedIsRemoved(o: Options, s: State, st: RootState, p: Profile)
    requires KeysOwned(s.m) && Current(s.m, st) && SlashFree(p) && !p.selected
    ensures Removed(s, KeyOf(st, p), Step(o, s, Upsert(st, p)))
  {
    DeleteRemoves(o, s, st, p);
  }

  /** A selected profile is filed; if its context can be built and is accepted it is recorded and stored. */
  lemma SelectedIsRecorded(o: Options, s: State, st: RootState, p: Profile)
    requires RootsSound(s) && Current(s.m, st) && p.selected
    ensures var key := KeyOf(st, p); var name := o.contextName(key); var s' := Step(o, s, Upsert(st, p));
      && st.rootID in s'.m.keysByRoot && key in s'.m.keysByRoot[st.rootID]
      && (forall r, k :: r != st.rootID || k != key ==> (k in KeysOf(s'.m, r) <==> k in KeysOf(s.m, r)))
      && s'.m.profiles == (if p.builds && p.accepted then s.m.profiles[key := name] else s.m.profiles)
      && s'.store == (if p.builds && p.accepted then s.store[name := Context(true, false, None)] else s.store)
      && s'.m.roots == s.m.roots && s'.cancelled == s.cancelled
  {
  }

  /** The listing holds a selected profile with the key. */
  ghost predicate Listed(st: RootState, listed: seq<Profile>, key: string)
  {
    exists p :: p in listed && p.selected && KeyOf(st, p) == key
  }

  /** The initial sync drops exactly the profiles filed under its root and not listed. */
  lemma InitialSyncDrops(o: Options, s: State, st: RootState, listed: seq<Profile>)
    requires Current(s.m, st)
    ensures var s' := Step(o, s, InitialSync(st, listed));
      && (forall k :: k in KeysOf(s'.m, st.rootID) <==> Listed(st, listed, k))
      && (forall k :: k in s'.m.profiles <==>
            (k in s.m.profiles && (k in KeysOf(s.m, st.rootID) ==> Listed(st, listed, k))))
      && (forall n :: n in s'.store <==>
            (n in s.store && forall k :: k in s.m.profiles && s.m.profiles[k] == n && k in KeysOf(s.m, st.rootID) ==>
               Listed(st, listed, k)))
  {
    assert forall k :: k in Seen(st, listed) <==> Listed(st, listed, k);
  }

  /** A missing CRD stops the root, drops all it filed, and marks the server for the TTL. */
  lemma NoCRDStops(o: Options, s: State, st: RootState, now: Time)
    requires Current(s.m, st)
    ensures var s' := Step(o, s, NoCRDError(st, now));
      && st.rootID !in s'.m.roots && st.id in s'.cancelled
      && (forall at :: LiveNoCRD(s'.m, st.serverURL, at) <==> at < now + o.noCRDCacheTTL)
      && (forall k :: k in s'.m.profiles <==> k in s.m.profiles && k !in KeysOf(s.m, st.rootID))
      && (forall n :: n in s'.store <==>
            (n in s.store && forall k :: k in s.m.profiles && s.m.profiles[k] == n ==> k !in KeysOf(s.m, st.rootID)))
  {
  }

  // ------------------------------------------------------------ what a run leaves recorded

  /** The reconcile takes the root out: its seed is gone, or its server is marked. */
  predicate TakesOut(o: Options, s: State, rootID: string, loaded: bool, now: Time)
  {
    || (rootID in s.m.roots && rootID !in PresentRoots(o, s.store, loaded)
        && (rootID == IN_CLUSTER_ROOT_ID
            || ((!o.discoverFromStore || loaded) && STORE_ROOT_PREFIX <= rootID)))
    || var desired := DesiredRoots(o, s.store, loaded);
       rootID in desired && LiveNoCRD(s.m, desired[rootID].serverURL, now)
  }

  /** Whether the profile of the key, owned by the root, is recorded after the event. */
  ghost predicate RecordedAfter(o: Options, s: State, e: Event, rootID: string, key: string, before: bool)
  {
    match e
    case Upsert(st, p) =>
      if !Current(s.m, st) || KeyOf(st, p) != key then before
      else p.selected && (before || (p.builds && p.accepted))
    case Delete(st, p) => before && !(Current(s.m, st) && KeyOf(st, p) == key)
    case InitialSync(st, listed) =>
      before && (Current(s.m, st) && st.rootID == rootID ==> Listed(st, listed, key))
    case NoCRDError(st, _) => before && !(Current(s.m, st) && st.rootID == rootID)
    case Reconcile(_, loaded, _, now) => before && (!s.stopped ==> !TakesOut(o, s, rootID, loaded, now))
    case _ => before
  }

  lemma Filed(o: Options, s: State, key: string, rootID: string, universe: iset<string>)
    requires Inv(o, s, universe) && Owned(key, rootID) && key in s.m.profiles
    ensures key in KeysOf(s.m, rootID)
  {
    assert Tracked(s.m, key);
    var r :| r in s.m.keysByRoot && key in s.m.keysByRoot[r];
    OneOwner(key, r, rootID);
  }

  lemma ForeignKey(s: State, key: string, rootID: string, other: string)
    requires KeysOwned(s.m) && Owned(key, rootID) && other != rootID
    ensures key !in KeysOf(s.m, other)
  {
    if key in KeysOf(s.m, other) {
      OneOwner(key, other, rootID);
    }
  }

  lemma MissingStoppedRecords(o: Options, s: State, loaded: bool, rootID: string, key: string, universe: iset<string>)
    requires Inv(o, s, universe) && Owned(key, rootID)
    ensures key in MissingStopped(o, s, loaded).m.profiles <==>
      key in s.m.profiles
      && rootID !in Missing(s.m, PresentRoots(o, s.store, loaded), Loaded(o, loaded))
  {
    var missing := Missing(s.m, PresentRoots(o, s.store, loaded), Loaded(o, loaded));
    if key in s.m.profiles {
      Filed(o, s, key, rootID, universe);
      if key in KeysOfAll(s.m, missing) {
        var r :| r in missing && r in s.m.keysByRoot && key in s.m.keysByRoot[r];
        OneOwner(key, r, rootID);
      } else {
        assert rootID in s.m.keysByRoot;
      }
    }
  }

  lemma ReconcileRootRecords(o: Options, s: State, r: string, config: Config, creates: bool, now: Time,
                             rootID: string, key: string, universe: iset<string>)
    requires Inv(o, s, universe) && Owned(key, rootID) && !s.stopped
    ensures key in ReconcileRoot(s, r, config, creates, now).m.profiles <==>
      key in s.m.profiles && !(r == rootID && LiveNoCRD(s.m, config.serverURL, now))
  {
    if key in s.m.profiles {
      if r == rootID {
        Filed(o, s, key, rootID, universe);
      } else {
        ForeignKey(s, key, rootID, r);
      }
    }
  }

  lemma {:induction false} ReconcileEachRecords(o: Options, s: State, order: seq<string>,
      desired: map<string, Config>, creates: set<string>, now: Time, rootID: string, key: string,
      universe: iset<string>)
    requires Distinct(o, universe) && Inv(o, s, universe) && Owned(key, rootID) && !s.stopped
    requires forall r :: r in order ==> r in desired
    requires forall r :: r in desired ==> r == IN_CLUSTER_ROOT_ID || STORE_ROOT_PREFIX <= r
    ensures key in ReconcileEach(s, order, desired, creates, now).m.profiles <==>
      key in s.m.profiles && !(rootID in order && LiveNoCRD(s.m, desired[rootID].serverURL, now))
    decreases |order|
  {
    if order != [] {
      var r, config := order[0], desired[order[0]];
      var s1 := ReconcileRoot(s, r, config, r in creates, now);
      assert order == [r] + order[1..];
      ReconcileRootRecords(o, s, r, config, r in creates, now, rootID, key, universe);
      ReconcileRootKeepsInv(o, s, r, config, r in creates, now, universe);
      ReconcileEachRecords(o, s1, order[1..], desired, creates, now, rootID, key, universe);
      if rootID in order {
        MarkKept(s, r, config, r in creates, now, desired[rootID].serverURL);
      }
    }
  }

  lemma MarkKept(s: State, r: string, config: Config, creates: bool, now: Time, serverURL: string)
    ensures LiveNoCRD(ReconcileRoot(s, r, config, creates, now).m, serverURL, now) <==> LiveNoCRD(s.m, serverURL, now)
  {
  }

  lemma ReconcileRecords(o: Options, s: State, e: Event, rootID: string, key: string, universe: iset<string>)
    requires Distinct(o, universe) && Inv(o, s, universe) && Owned(key, rootID)
    requires Enabled(o, s, e) && e.Reconcile? && !s.stopped
    ensures key in Step(o, s, e).m.profiles <==> RecordedAfter(o, s, e, rootID, key, key in s.m.profiles)
  {
    var s0 := MissingStopped(o, s, e.storeRootsLoaded);
    MissingStoppedRecords(o, s, e.storeRootsLoaded, rootID, key, universe);
    MissingStoppedKeepsInv(o, s, e.storeRootsLoaded, universe);
    ReconcileEachRecords(o, s0, e.order, DesiredRoots(o, s.store, e.storeRootsLoaded), e.creates, e.now,
                         rootID, key, universe);
  }

  lemma UpsertRecordsStep(o: Options, s: State, st: RootState, p: Profile, rootID: string, key: string)
    requires RootsSound(s)
    ensures key in Upserted(o, s, st, p).m.profiles
      <==> RecordedAfter(o, s, Upsert(st, p), rootID, key, key in s.m.profiles)
  {
  }

  lemma DeleteRecordsStep(o: Options, s: State, st: RootState, p: Profile, rootID: string, key: string)
    ensures key in Step(o, s, Delete(st, p)).m.profiles
      <==> RecordedAfter(o, s, Delete(st, p), rootID, key, key in s.m.profiles)
  {
  }

  lemma InitialSyncRecordsStep(o: Options, s: State, st: RootState, listed: seq<Profile>, rootID: string, key: string,
                               universe: iset<string>)
    requires Inv(o, s, universe) && Owned(key, rootID)
    ensures key in Step(o, s, InitialSync(st, listed)).m.profiles
      <==> RecordedAfter(o, s, InitialSync(st, listed), rootID, key, key in s.m.profiles)
  {
    if key in s.m.profiles && Current(s.m, st) {
      InitialSyncDrops(o, s, st, listed);
      if st.rootID == rootID {
        Filed(o, s, key, rootID, universe);
      } else {
        ForeignKey(s, key, rootID, st.rootID);
      }
    }
  }

  lemma NoCRDRecordsStep(o: Options, s: State, st: RootState, now: Time, rootID: string, key: string,
                         universe: iset<string>)
    requires Inv(o, s, universe) && Owned(key, rootID)
    ensures key in Step(o, s, NoCRDError(st, now)).m.profiles
      <==> RecordedAfter(o, s, NoCRDError(st, now), rootID, key, key in s.m.profiles)
  {
    if key in s.m.profiles && Current(s.m, st) {
      NoCRDStops(o, s, st, now);
      if st.rootID == rootID {
        Filed(o, s, key, rootID, universe);
      } else {
        ForeignKey(s, key, rootID, st.rootID);
      }
    }
  }

  lemma RecordedStep(o: Options, s: State, e: Event, rootID: string, key: string, universe: iset<string>)
    requires Distinct(o, universe) && Inv(o, s, universe) && Enabled(o, s, e) && Owned(key, rootID)
    ensures key in Step(o, s, e).m.profiles <==> RecordedAfter(o, s, e, rootID, key, key in s.m.profiles)
  {
    match e
    case Upsert(st, p) => UpsertRecordsStep(o, s, st, p, rootID, key);
    case Delete(st, p) => DeleteRecordsStep(o, s, st, p, rootID, key);
    case InitialSync(st, listed) => InitialSyncRecordsStep(o, s, st, listed, rootID, key, universe);
    case NoCRDError(st, now) => NoCRDRecordsStep(o, s, st, now, rootID, key, universe);
    case Reconcile(_, _, _, _) =>
      if !s.stopped {
        ReconcileRecords(o, s, e, rootID, key, universe);
      }
    case _ =>
  }

  /** The verdicts of the events, one after the other. */
  ghost predicate RecordedBy(o: Options, s: State, es: seq<Event>, rootID: string, key: string, before: bool,
                             universe: iset<string>)
    requires ValidRun(o, s, es, universe)
    decreases |es|
  {
    if es == [] then before
    else
      var after := RecordedAfter(o, s, es[0], rootID, key, before);
      RecordedBy(o, Step(o, s, es[0]), es[1..], rootID, key, after, universe)
  }

  lemma {:induction false} RecordedByRun(o: Options, s: State, es: seq<Event>, rootID: string, key: string,
                                         universe: iset<string>)
    requires Distinct(o, universe) && Inv(o, s, universe) && ValidRun(o, s, es, universe) && Owned(key, rootID)
    ensures key in Run(o, s, es, universe).m.profiles <==>
      RecordedBy(o, s, es, rootID, key, key in s.m.profiles, universe)
    decreases |es|
  {
    if es != [] {
      RecordedStep(o, s, es[0], rootID, key, universe);
      InvStep(o, s, es[0], universe);
      RecordedByRun(o, Step(o, s, es[0]), es[1..], rootID, key, universe);
    }
  }

  /**
   After any run of reconciles, callbacks and seed changes a profile of a root is recorded exactly
   when its events say so: last synced by a callback of the current root, and since then neither
   deleted, nor deselected, nor missing from an initial listing, nor its root taken out.
   */
  lemma RecordedByHistory(o: Options, s0: State, es: seq<Event>, rootID: string, ns: string, n: string,
                          universe: iset<string>)
    requires Distinct(o, universe) && Initial(s0) && ValidRun(o, s0, es, universe) && '/' !in ns && '/' !in n
    ensures var key := MakeProfileKey(rootID, ns, n);
      key in Run(o, s0, es, universe).m.profiles <==> RecordedBy(o, s0, es, rootID, key, false, universe)
  {
    var key := MakeProfileKey(rootID, ns, n);
    assert Owned(key, rootID);
    RecordedByRun(o, s0, es, rootID, key, universe);
  }

  // ------------------------------------------------------------ what a reconcile reaches, by the store

  predicate Marked(s: State, serverURL: string, now: Time)
  {
    serverURL in s.m.noCRD && now < s.m.noCRD[serverURL]
  }

  /** The root is active with the configuration, unless its server is marked, and then it is not active. */
  predicate Reached(s: State, s': State, rootID: string, config: Config, now: Time)
  {
    if Marked(s, config.serverURL, now) then
      rootID !in s'.m.roots
    else
      && rootID in s'.m.roots && s'.m.roots[rootID].serverURL == config.serverURL
      && s'.m.roots[rootID].fingerprint == config.fingerprint
  }

  /** A context of the store that seeds a root: neither an inventory context nor an internal one. */
  predicate Seeds(store: map<string, Context>, n: string)
  {
    n in store && !store[n].inventory && !store[n].internal
  }

  lemma DesiredOfSeed(o: Options, store: map<string, Context>, n: string)
    requires o.discoverFromStore && Seeds(store, n) && store[n].config.Some?
    ensures var desired := DesiredRoots(o, store, true);
      "store/" + n in desired && desired["store/" + n] == store[n].config.value
  {
    var r := "store/" + n;
    assert r == StoreRootID(n) && r[|STORE_ROOT_PREFIX|..] == n;
    assert r[0] == 's' && IN_CLUSTER_ROOT_ID[0] == 'i';
    assert r in ConfiguredRoots(store);
  }

  lemma PresentHasSource(o: Options, store: map<string, Context>, r: string)
    requires r in PresentRoots(o, store, true)
    ensures (r == "in-cluster" && o.hub.Some?) || exists n :: Seeds(store, n) && r == "store/" + n
  {
    if !(r == IN_CLUSTER_ROOT_ID && o.hub.Some?) {
      var n :| n in store && Seed(store[n]) && r == StoreRootID(n);
      assert Seeds(store, n);
    }
  }

  lemma HubIsNoSeed(o: Options, store: map<string, Context>)
    requires o.hub.Some?
    ensures var desired := DesiredRoots(o, store, true);
      "in-cluster" in desired && desired["in-cluster"] == o.hub.value
  {
    assert "in-cluster"[0] == 'i';
    forall r | r in ConfiguredRoots(store) ensures r[0] == 's' {
    }
  }

  /** The desired roots are reached and no other is active. */
  ghost predicate Converged(o: Options, s: State, s': State, now: Time)
  {
    var desired := DesiredRoots(o, s.store, true);
    && (forall r :: r in desired ==> Reached(s, s', r, desired[r], now))
    && (forall r :: r in s'.m.roots ==> r in PresentRoots(o, s.store, true))
  }

  lemma ConvergedReachesStore(o: Options, s: State, s': State, now: Time)
    requires Converged(o, s, s', now) && o.discoverFromStore
    ensures forall n :: Seeds(s.store, n) && s.store[n].config.Some? ==>
      Reached(s, s', "store/" + n, s.store[n].config.value, now)
    ensures o.hub.Some? ==> Reached(s, s', "in-cluster", o.hub.value, now)
    ensures forall r :: r in s'.m.roots ==>
      (r == "in-cluster" && o.hub.Some?) || exists n :: Seeds(s.store, n) && r == "store/" + n
  {
    forall n | Seeds(s.store, n) && s.store[n].config.Some?
      ensures Reached(s, s', "store/" + n, s.store[n].config.value, now)
    {
      DesiredOfSeed(o, s.store, n);
    }
    if o.hub.Some? {
      HubIsNoSeed(o, s.store);
    }
    forall r | r in s'.m.roots
      ensures (r == "in-cluster" && o.hub.Some?) || exists n :: Seeds(s.store, n) && r == "store/" + n
    {
      PresentHasSource(o, s.store, r);
    }
  }

  lemma ReconcileIsConverged(o: Options, s: State, order: seq<string>, creates: set<string>, now: Time,
                             universe: iset<string>)
    requires Distinct(o, universe) && Inv(o, s, universe) && !s.stopped
    requires Enabled(o, s, Reconcile(order, true, creates, now)) && forall r :: r in order ==> r in creates
    ensures Converged(o, s, Step(o, s, Reconcile(order, true, creates, now)), now)
  {
    ReconcileConverges(o, s, order, creates, now, universe);
  }

  /**
   One reconcile with every client created: each seed of the store whose configuration is good has
   its root active and up to date, and so has the hub; and every active root is the hub's or has
   a seed.
   */
  lemma ReconcileReachesStore(o: Options, s: State, order: seq<string>, creates: set<string>, now: Time,
                              universe: iset<string>)
    requires Distinct(o, universe) && Inv(o, s, universe) && !s.stopped && o.discoverFromStore
    requires Enabled(o, s, Reconcile(order, true, creates, now)) && forall r :: r in order ==> r in creates
    ensures var s' := Step(o, s, Reconcile(order, true, creates, now));
      && (forall n :: Seeds(s.store, n) && s.store[n].config.Some? ==>
            Reached(s, s', "store/" + n, s.store[n].config.value, now))
      && (o.hub.Some? ==> Reached(s, s', "in-cluster", o.hub.value, now))
      && (forall r :: r in s'.m.roots ==>
            (r == "in-cluster" && o.hub.Some?) || exists n :: Seeds(s.store, n) && r == "store/" + n)
  {
    ReconcileIsConverged(o, s, order, creates, now, universe);
    ConvergedReachesStore(o, s, Step(o, s, Reconcile(order, true, creates, now)), now);
  }

  /** When the store cannot be listed, roots it seeded stay as they are. */
  lemma FailedListingKeepsRoots(o: Options, s: State, order: seq<string>, creates: set<string>, now: Time,
                                rootID: string)
    requires Enabled(o, s, Reconcile(order, false, creates, now)) && o.discoverFromStore && rootID != "in-cluster"
    ensures var s' := Step(o, s, Reconcile(order, false, creates, now));
      && (rootID in s'.m.roots <==> rootID in s.m.roots)
      && (rootID in s.m.roots ==> s'.m.roots[rootID] == s.m.roots[rootID])
  {
    if !s.stopped {
      EachKeepsOthers(MissingStopped(o, s, false), order, DesiredRoots(o, s.store, false), creates, now, rootID);
    }
  }

  lemma {:induction false} EachKeepsOthers(s: State, order: seq<string>, desired: map<string, Config>,
                                           creates: set<string>, now: Time, rootID: string)
    requires (forall r :: r in order ==> r in desired) && rootID !in order
    ensures var s' := ReconcileEach(s, order, desired, creates, now);
      && (rootID in s'.m.roots <==> rootID in s.m.roots)
      && (rootID in s.m.roots ==> s'.m.roots[rootID] == s.m.roots[rootID])
    decreases |order|
  {
    if order != [] {
      EachKeepsOthers(ReconcileRoot(s, order[0], desired[order[0]], order[0] in creates, now),
                      order[1..], desired, creates, now, rootID);
    }
  }

  /** A root whose client cannot be created stays as it was, unless its server is marked. */
  lemma UncreatedStays(s: State, rootID: string, config: Config, now: Time)
    requires !s.stopped && !Marked(s, config.serverURL, now)
    ensures var s' := ReconcileRoot(s, rootID, config, false, now);
      s'.m.roots == s.m.roots && s'.m.profiles == s.m.profiles && s'.store == s.store && s'.cancelled == s.cancelled
  {
  }

  // ------------------------------------------------------------ contexts that are not the inventory's

  function SeedsOf(store: map<string, Context>): map<string, Context>
  {
    map n | n in store && !store[n].inventory :: store[n]
  }

  /** Seeds as the events that set and drop them leave them. */
  function SeedsAfter(seeds: map<string, Context>, e: Event): map<string, Context>
  {
    match e
    case SetSeed(name, context) => seeds[name := context]
    case DropSeed(name) => seeds - {name}
    case _ => seeds
  }

  /** No seed has a name that a profile key maps to. */
  ghost predicate Apart(o: Options, s: State, universe: iset<string>)
  {
    forall k :: k in universe ==> o.contextName(k) !in SeedsOf(s.store)
  }

  /** Removing recorded names takes inventory contexts only. */
  lemma RemovalSparesSeeds(o: Options, s: State, keys: set<string>, universe: iset<string>)
    requires Inv(o, s, universe)
    ensures SeedsOf(s.store - NamesOf(s.m, keys)) == SeedsOf(s.store)
  {
  }

  lemma ReconcileRootSparesSeeds(o: Options, s: State, r: string, config: Config, creates: bool, now: Time,
                                 universe: iset<string>)
    requires Inv(o, s, universe)
    ensures SeedsOf(ReconcileRoot(s, r, config, creates, now).store) == SeedsOf(s.store)
  {
    RemovalSparesSeeds(o, s, KeysOf(s.m, r), universe);
  }

  lemma {:induction false} ReconcileEachSparesSeeds(o: Options, s: State, order: seq<string>,
      desired: map<string, Config>, creates: set<string>, now: Time, universe: iset<string>)
    requires Distinct(o, universe) && Inv(o, s, universe)
    requires forall r :: r in order ==> r in desired
    requires forall r :: r in desired ==> r == IN_CLUSTER_ROOT_ID || STORE_ROOT_PREFIX <= r
    ensures SeedsOf(ReconcileEach(s, order, desired, creates, now).store) == SeedsOf(s.store)
    decreases |order|
  {
    if order != [] {
      ReconcileRootSparesSeeds(o, s, order[0], desired[order[0]], order[0] in creates, now, universe);
      ReconcileRootKeepsInv(o, s, order[0], desired[order[0]], order[0] in creates, now, universe);
      ReconcileEachSparesSeeds(o, ReconcileRoot(s, order[0], desired[order[0]], order[0] in creates, now),
                               order[1..], desired, creates, now, universe);
    }
  }

  lemma CallbackSparesSeeds(o: Options, s: State, e: Event, universe: iset<string>)
    requires Inv(o, s, universe) && Enabled(o, s, e) && Proper(o, e, universe) && Apart(o, s, universe)
    requires e.Upsert? || e.Delete? || e.NoCRDError? || e.InitialSync?
    ensures SeedsOf(Step(o, s, e).store) == SeedsOf(s.store)
  {
    match e
    case Upsert(st, p) => RemovalSparesSeeds(o, s, {KeyOf(st, p)}, universe);
    case Delete(st, p) => RemovalSparesSeeds(o, s, {KeyOf(st, p)}, universe);
    case NoCRDError(st, _) => RemovalSparesSeeds(o, s, KeysOf(s.m, st.rootID), universe);
    case InitialSync(st, listed) =>
      RemovalSparesSeeds(o, s, KeysOf(s.m, st.rootID) - Seen(st, listed), universe);
  }

  lemma ReconcileSparesSeeds(o: Options, s: State, e: Event, universe: iset<string>)
    requires Distinct(o, universe) && Inv(o, s, universe) && Enabled(o, s, e) && e.Reconcile?
    ensures SeedsOf(Step(o, s, e).store) == SeedsOf(s.store)
  {
    if !s.stopped {
      var missing := Missing(s.m, PresentRoots(o, s.store, e.storeRootsLoaded), Loaded(o, e.storeRootsLoaded));
      RemovalSparesSeeds(o, s, KeysOfAll(s.m, missing), universe);
      MissingStoppedKeepsInv(o, s, e.storeRootsLoaded, universe);
      ReconcileEachSparesSeeds(o, MissingStopped(o, s, e.storeRootsLoaded), e.order,
                               DesiredRoots(o, s.store, e.storeRootsLoaded), e.creates, e.now, universe);
    }
  }

  lemma SeedsStep(o: Options, s: State, e: Event, universe: iset<string>)
    requires Distinct(o, universe) && Inv(o, s, universe) && Enabled(o, s, e) && Proper(o, e, universe)
    requires Apart(o, s, universe)
    ensures SeedsOf(Step(o, s, e).store) == SeedsAfter(SeedsOf(s.store), e) && Apart(o, Step(o, s, e), universe)
  {
    if e.Reconcile? {
      ReconcileSparesSeeds(o, s, e, universe);
    } else if e.Upsert? || e.Delete? || e.NoCRDError? || e.InitialSync? {
      CallbackSparesSeeds(o, s, e, universe);
    }
  }

  function SeedsBy(seeds: map<string, Context>, es: seq<Event>): map<string, Context>
    decreases |es|
  {
    if es == [] then seeds else SeedsBy(SeedsAfter(seeds, es[0]), es[1..])
  }

  /** Over any run the runner never touches a context that is not its own. */
  lemma {:induction false} SeedsUntouched(o: Options, s: State, es: seq<Event>, universe: iset<string>)
    requires Distinct(o, universe) && Inv(o, s, universe) && ValidRun(o, s, es, universe) && Apart(o, s, universe)
    ensures SeedsOf(Run(o, s, es, universe).store) == SeedsBy(SeedsOf(s.store), es)
    decreases |es|
  {
    if es != [] {
      SeedsStep(o, s, es[0], universe);
      InvStep(o, s, es[0], universe);
      SeedsUntouched(o, Step(o, s, es[0]), es[1..], universe);
    }
  }
}
