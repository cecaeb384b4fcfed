/** What every run of the Cluster Inventory runner keeps, and what one reconcile achieves. */
module InventoryRuns {
  import opened InventoryModel

  // ------------------------------------------------------------ profile keys

  lemma SplitAtSlash(a: string, b: string, x: string, y: string)
    requires '/' !in b && '/' !in y && a + "/" + b == x + "/" + y
    ensures a == x && b == y
  {
    var s, t := a + "/" + b, x + "/" + y;
    assert s[|a|] == '/' && t[|x|] == '/';
    assert forall j :: |a| < j < |s| ==> s[j] == b[j - |a| - 1];
    assert forall j :: |x| < j < |t| ==> t[j] == y[j - |x| - 1];
    assert |a| == |x|;
    assert a == s[..|a|] && x == t[..|x|] && b == s[|a| + 1..] && y == t[|x| + 1..];
  }

  /** Root ids may contain slashes; the key is injective because namespaces and names cannot. */
  lemma MakeProfileKeyInjective(r: string, ns: string, n: string, r': string, ns': string, n': string)
    requires '/' !in ns && '/' !in n && '/' !in ns' && '/' !in n'
    requires MakeProfileKey(r, ns, n) == MakeProfileKey(r', ns', n')
    ensures r == r' && ns == ns' && n == n'
  {
    assert MakeProfileKey(r, ns, n) == (r + "/" + ns) + "/" + n;
    assert MakeProfileKey(r', ns', n') == (r' + "/" + ns') + "/" + n';
    SplitAtSlash(r + "/" + ns, n, r' + "/" + ns', n');
    SplitAtSlash(r, ns, r', ns');
  }

  ghost predicate Owned(key: string, rootID: string)
  {
    exists ns, n :: '/' !in ns && '/' !in n && key == MakeProfileKey(rootID, ns, n)
  }

  lemma OneOwner(key: string, r: string, r': string)
    requires Owned(key, r) && Owned(key, r')
    ensures r == r'
  {
    var ns, n :| '/' !in ns && '/' !in n && key == MakeProfileKey(r, ns, n);
    var ns', n' :| '/' !in ns' && '/' !in n' && key == MakeProfileKey(r', ns', n');
    MakeProfileKeyInjective(r, ns, n, r', ns', n');
  }

  ghost predicate SlashFree(p: Profile)
  {
    '/' !in p.namespace && '/' !in p.name
  }

  // ------------------------------------------------------------ facts per critical section

  ghost predicate KeysOwned(m: Maps)
  {
    forall r, k :: r in m.keysByRoot && k in m.keysByRoot[r] ==> Owned(k, r)
  }

  ghost predicate Tracked(m: Maps, k: string)
  {
    exists r :: r in m.keysByRoot && k in m.keysByRoot[r]
  }

  /** Every profile with a context is filed under a root. */
  ghost predicate Contained(m: Maps)
  {
    forall k :: k in m.profiles ==> Tracked(m, k)
  }

  datatype Section =
    | Record(st: RootState, key: string)
    | Synced(st: RootState, key: string, contextName: string)
    | PruneOne(st: RootState, key: string)
    | CompleteSync(st: RootState, seen: set<string>)
    | Stop(rootID: string)
    | StopSome(rootIDs: set<string>)
    | MarkNoCRD(st: RootState, expiresAt: Time)
    | Forget(serverURL: string, now: Time)
    | Activate(st: RootState)

  function Perform(m: Maps, c: Section): Maps
  {
    match c
    case Record(st, key) => RecordRootProfile(m, st, key)
    case Synced(st, key, name) => RecordSyncedProfile(m, st, key, name)
    case PruneOne(st, key) => PruneClusterProfile(m, st, key).0
    case CompleteSync(st, seen) => CompleteRootSync(m, st, seen).0
    case Stop(rootID) => StopRoot(m, rootID).0
    case StopSome(rootIDs) => StopRoots(m, rootIDs).0
    case MarkNoCRD(st, expiresAt) => MarkRootNoCRD(m, st, expiresAt).0
    case Forget(serverURL, now) => ForgetExpiredNoCRD(m, serverURL, now)
    case Activate(st) => ActivateRoot(m, st)
  }

  ghost predicate SectionKeysOwned(c: Section)
  {
    match c
    case Record(st, key) => Owned(key, st.rootID)
    case Synced(st, key, _) => Owned(key, st.rootID)
    case PruneOne(st, key) => Owned(key, st.rootID)
    case CompleteSync(st, seen) => forall k :: k in seen ==> Owned(k, st.rootID)
    case _ => true
  }

  lemma SectionKeepsOwnership(m: Maps, c: Section)
    requires KeysOwned(m) && SectionKeysOwned(c)
    ensures KeysOwned(Perform(m, c))
  {
  }

  /** A section that drops profiles drops only those filed under the roots it prunes. */
  lemma StillTracked(m: Maps, c: Section, k: string)
    requires KeysOwned(m) && SectionKeysOwned(c) && Contained(m)
    requires k in m.profiles && k in Perform(m, c).profiles
    ensures Tracked(Perform(m, c), k)
  {
    var r :| r in m.keysByRoot && k in m.keysByRoot[r];
    var m' := Perform(m, c);
    assert Owned(k, r);
    if c.Stop? || c.MarkNoCRD? || c.StopSome? {
      assert r in m'.keysByRoot && k in m'.keysByRoot[r];
    } else if c.PruneOne? || c.CompleteSync? {
      if r == c.st.rootID {
        assert r in m'.keysByRoot && k in m'.keysByRoot[r];
      } else {
        assert r in m'.keysByRoot && k in m'.keysByRoot[r];
      }
    } else {
      assert r in m'.keysByRoot && k in m'.keysByRoot[r];
    }
  }

  /**
   Containment per critical section. All sections keep it, except recordSyncedProfile, which
   keeps it exactly when its key is still filed under the root: another goroutine may have
   completed the initial sync between recordRootProfile and here.
   */
  lemma SectionContainment(m: Maps, c: Section)
    requires KeysOwned(m) && SectionKeysOwned(c) && Contained(m)
    ensures Contained(Perform(m, c)) <==>
      (c.Synced? && Current(m, c.st) ==> c.key in KeysOf(m, c.st.rootID))
  {
    var m' := Perform(m, c);
    forall k | k in m.profiles && k in m'.profiles ensures Tracked(m', k) {
      StillTracked(m, c, k);
    }
    if c.Synced? && Current(m, c.st) {
      if c.key in KeysOf(m, c.st.rootID) {
        assert c.st.rootID in m'.keysByRoot && c.key in m'.keysByRoot[c.st.rootID];
      } else if Contained(m') {
        assert c.key in m'.profiles;
        var r :| r in m'.keysByRoot && c.key in m'.keysByRoot[r];
        OneOwner(c.key, r, c.st.rootID);
        assert false;
      }
    }
  }

  /** The race: the listing was taken before the profile appeared. */
  lemma StaleListingLosesTrack(m: Maps, st: RootState, ns: string, n: string, name: string)
    requires KeysOwned(m) && Contained(m) && Current(m, st) && '/' !in ns && '/' !in n
    ensures var key := MakeProfileKey(st.rootID, ns, n);
      var recorded := Perform(m, Record(st, key));
      var listed := Perform(recorded, CompleteSync(st, KeysOf(m, st.rootID) - {key}));
      !Contained(Perform(listed, Synced(st, key, name)))
  {
    var key := MakeProfileKey(st.rootID, ns, n);
    assert Owned(key, st.rootID);
    var seen := KeysOf(m, st.rootID) - {key};
    var recorded := Perform(m, Record(st, key));
    SectionKeepsOwnership(m, Record(st, key));
    SectionContainment(m, Record(st, key));
    SectionKeepsOwnership(recorded, CompleteSync(st, seen));
    SectionContainment(recorded, CompleteSync(st, seen));
    SectionContainment(Perform(recorded, CompleteSync(st, seen)), Synced(st, key, name));
  }

  // ------------------------------------------------------------ the invariant of every run

  /** Context names do not collide on the profile keys of the run. */
  ghost predicate Distinct(o: Options, universe: iset<string>)
  {
    forall a, b :: a in universe && b in universe && o.contextName(a) == o.contextName(b) ==> a == b
  }

  ghost predicate RootsSound(s: State)
  {
    && (forall r :: r in s.m.roots ==>
          && s.m.roots[r].rootID == r
          && s.m.roots[r].id < s.nextID
          && s.m.roots[r].id !in s.cancelled
          && (r == IN_CLUSTER_ROOT_ID || STORE_ROOT_PREFIX <= r))
    && (forall r, r' :: r in s.m.roots && r' in s.m.roots && s.m.roots[r].id == s.m.roots[r'].id ==> r == r')
  }

  ghost predicate Live(m: Maps, id: nat)
  {
    exists r :: r in m.roots && m.roots[r].id == id
  }

  /** Every root state ever activated is current or cancelled. */
  ghost predicate NoLeak(s: State)
  {
    && (forall id :: id in s.cancelled ==> id < s.nextID)
    && (forall id: nat :: id < s.nextID ==> id in s.cancelled || Live(s.m, id))
  }

  ghost predicate Named(o: Options, s: State, universe: iset<string>)
  {
    && (forall k :: k in s.m.profiles ==> k in universe && s.m.profiles[k] == o.contextName(k))
  }

  /** The inventory contexts in the store are exactly the recorded ones. */
  ghost predicate Agreement(s: State)
  {
    && (forall k :: k in s.m.profiles ==> s.m.profiles[k] in s.store && s.store[s.m.profiles[k]].inventory)
    && (forall n :: n in s.store && s.store[n].inventory ==> n in s.m.profiles.Values)
  }

  ghost predicate Inv(o: Options, s: State, universe: iset<string>)
  {
    && RootsSound(s) && NoLeak(s)
    && KeysOwned(s.m) && Contained(s.m)
    && Named(o, s, universe) && Agreement(s)
  }

  /** What the surroundings promise about an event. */
  ghost predicate Proper(o: Options, e: Event, universe: iset<string>)
  {
    match e
    case Upsert(st, p) => SlashFree(p) && KeyOf(st, p) in universe
    case Delete(st, p) => SlashFree(p)
    case InitialSync(_, listed) => forall p :: p in listed ==> SlashFree(p)
    case SetSeed(name, _) => forall k :: k in universe ==> o.contextName(k) != name
    case _ => true
  }

  // Store agreement: pruning profiles and removing their contexts go together.

  lemma PrunedAgreement(o: Options, s: State, s': State, keys: set<string>, universe: iset<string>)
    requires Distinct(o, universe) && Named(o, s, universe) && Agreement(s)
    requires s'.m.profiles == s.m.profiles - keys && s'.store == s.store - NamesOf(s.m, keys)
    ensures Named(o, s', universe) && Agreement(s')
  {
  }

  lemma AddedAgreement(o: Options, s: State, s': State, key: string, universe: iset<string>)
    requires Named(o, s, universe) && Agreement(s) && key in universe
    requires s'.m.profiles == s.m.profiles[key := o.contextName(key)]
    requires s'.store == s.store[o.contextName(key) := InventoryContext()]
    ensures Named(o, s', universe) && Agreement(s')
  {
  }

  // Roots: removing some and cancelling them, or replacing one and cancelling its predecessor.

  lemma RootsRemoved(s: State, s': State, rootIDs: set<string>)
    requires RootsSound(s) && NoLeak(s)
    requires s'.m.roots == s.m.roots - rootIDs && s'.nextID == s.nextID
    requires s'.cancelled == s.cancelled + IDsOf(s.m, rootIDs)
    ensures RootsSound(s') && NoLeak(s')
  {
    forall id: nat | id < s'.nextID ensures id in s'.cancelled || Live(s'.m, id) {
      if id !in s'.cancelled {
        var r :| r in s.m.roots && s.m.roots[r].id == id;
        assert r in s'.m.roots;
      }
    }
  }

  lemma RootReplacedSound(s: State, s': State, st: RootState)
    requires RootsSound(s)
    requires st.id == s.nextID && s.nextID !in s.cancelled
    requires st.rootID == IN_CLUSTER_ROOT_ID || STORE_ROOT_PREFIX <= st.rootID
    requires s'.m.roots == s.m.roots[st.rootID := st] && s'.nextID == s.nextID + 1
    requires s'.cancelled == s.cancelled + IDsOf(s.m, {st.rootID})
    ensures RootsSound(s')
  {
    assert forall r :: r in s'.m.roots && r != st.rootID ==> s'.m.roots[r].id !in IDsOf(s.m, {st.rootID});
  }

  lemma RootReplaced(s: State, s': State, st: RootState)
    requires RootsSound(s) && NoLeak(s)
    requires st.id == s.nextID && (st.rootID == IN_CLUSTER_ROOT_ID || STORE_ROOT_PREFIX <= st.rootID)
    requires s'.m.roots == s.m.roots[st.rootID := st] && s'.nextID == s.nextID + 1
    requires s'.cancelled == s.cancelled + IDsOf(s.m, {st.rootID})
    ensures RootsSound(s') && NoLeak(s')
  {
    RootReplacedSound(s, s', st);
    forall id: nat | id < s'.nextID ensures id in s'.cancelled || Live(s'.m, id) {
      if id == st.id {
        assert s'.m.roots[st.rootID].id == id;
      } else if id !in s'.cancelled {
        var r :| r in s.m.roots && s.m.roots[r].id == id;
        assert r in s'.m.roots && s'.m.roots[r].id == id;
      }
    }
  }

  lemma SeenOwned(st: RootState, listed: seq<Profile>, k: string)
    requires forall p :: p in listed ==> SlashFree(p)
    requires k in Seen(st, listed)
    ensures Owned(k, st.rootID)
  {
  }

  lemma UpsertKeepsInv(o: Options, s: State, st: RootState, p: Profile, universe: iset<string>)
    requires Distinct(o, universe) && Inv(o, s, universe)
    requires SlashFree(p) && KeyOf(st, p) in universe
    ensures Inv(o, Upserted(o, s, st, p), universe)
  {
    var key := KeyOf(st, p);
    assert Owned(key, st.rootID);
    if !p.selected {
      PruneKeepsInv(o, s, st, key, universe);
    } else if Current(s.m, st) {
      var m := RecordRootProfile(s.m, st, key);
      SectionKeepsOwnership(s.m, Record(st, key));
      SectionContainment(s.m, Record(st, key));
      if st.id !in s.cancelled && p.builds && p.accepted {
        SectionKeepsOwnership(m, Synced(st, key, o.contextName(key)));
        SectionContainment(m, Synced(st, key, o.contextName(key)));
        AddedAgreement(o, s, Upserted(o, s, st, p), key, universe);
      }
      assert Upserted(o, s, st, p).m.roots == s.m.roots;
      RootsRemoved(s, Upserted(o, s, st, p), {});
    }
  }

  lemma PruneKeepsInv(o: Options, s: State, st: RootState, key: string, universe: iset<string>)
    requires Distinct(o, universe) && Inv(o, s, universe) && Owned(key, st.rootID)
    ensures Inv(o, WithRemoved(s, PruneClusterProfile(s.m, st, key)), universe)
  {
    var s' := WithRemoved(s, PruneClusterProfile(s.m, st, key));
    SectionKeepsOwnership(s.m, PruneOne(st, key));
    SectionContainment(s.m, PruneOne(st, key));
    PrunedAgreement(o, s, s', if Current(s.m, st) then {key} else {}, universe);
    RootsRemoved(s, s', {});
  }

  lemma InitialSyncKeepsInv(o: Options, s: State, st: RootState, listed: seq<Profile>, universe: iset<string>)
    requires Distinct(o, universe) && Inv(o, s, universe) && forall p :: p in listed ==> SlashFree(p)
    ensures Inv(o, WithRemoved(s, CompleteRootSync(s.m, st, Seen(st, listed))), universe)
  {
    var seen := Seen(st, listed);
    var s' := WithRemoved(s, CompleteRootSync(s.m, st, seen));
    forall k | k in seen ensures Owned(k, st.rootID) {
      SeenOwned(st, listed, k);
    }
    SectionKeepsOwnership(s.m, CompleteSync(st, seen));
    SectionContainment(s.m, CompleteSync(st, seen));
    PrunedAgreement(o, s, s', if Current(s.m, st) then KeysOf(s.m, st.rootID) - seen else {}, universe);
    RootsRemoved(s, s', {});
  }

  lemma StopRootKeepsInv(o: Options, s: State, rootID: string, universe: iset<string>)
    requires Distinct(o, universe) && Inv(o, s, universe)
    ensures Inv(o, WithRemoved(s, StopRoot(s.m, rootID)).(cancelled := s.cancelled + IDsOf(s.m, {rootID})), universe)
  {
    var s' := WithRemoved(s, StopRoot(s.m, rootID)).(cancelled := s.cancelled + IDsOf(s.m, {rootID}));
    SectionKeepsOwnership(s.m, Stop(rootID));
    SectionContainment(s.m, Stop(rootID));
    PrunedAgreement(o, s, s', KeysOf(s.m, rootID), universe);
    RootsRemoved(s, s', {rootID});
  }

  lemma MissingStoppedKeepsInv(o: Options, s: State, loaded: bool, universe: iset<string>)
    requires Distinct(o, universe) && Inv(o, s, universe)
    ensures Inv(o, MissingStopped(o, s, loaded), universe)
  {
    var missing := Missing(s.m, PresentRoots(o, s.store, loaded), Loaded(o, loaded));
    var s' := MissingStopped(o, s, loaded);
    SectionKeepsOwnership(s.m, StopSome(missing));
    SectionContainment(s.m, StopSome(missing));
    PrunedAgreement(o, s, s', KeysOfAll(s.m, missing), universe);
    RootsRemoved(s, s', missing);
  }

  /** Changing only the no-CRD marks changes nothing the invariant speaks of. */
  lemma MarksDoNotMatter(o: Options, s: State, noCRD: map<string, Time>, universe: iset<string>)
    requires Inv(o, s, universe)
    ensures Inv(o, s.(m := s.m.(noCRD := noCRD)), universe)
  {
  }

  /** A superseded root state changes nothing, whatever its callbacks deliver. */
  lemma SupersededChangesNothing(o: Options, s: State, e: Event)
    requires Enabled(o, s, e) && (e.Upsert? || e.Delete? || e.NoCRDError? || e.InitialSync?)
    requires !Current(s.m, e.st)
    ensures Step(o, s, e) == s
  {
  }

  /** A no-CRD report is a mark followed by stopping the root. */
  lemma NoCRDIsMarkThenStop(o: Options, s: State, st: RootState, now: Time)
    requires Current(s.m, st)
    ensures var s1 := s.(m := s.m.(noCRD := s.m.noCRD[st.serverURL := now + o.noCRDCacheTTL]));
      Step(o, s, NoCRDError(st, now))
        == WithRemoved(s1, StopRoot(s1.m, st.rootID)).(cancelled := s1.cancelled + IDsOf(s1.m, {st.rootID}))
  {
    assert IDsOf(s.m, {st.rootID}) == {st.id};
  }

  lemma NoCRDKeepsInv(o: Options, s: State, st: RootState, now: Time, universe: iset<string>)
    requires Distinct(o, universe) && Inv(o, s, universe)
    ensures Inv(o, Step(o, s, NoCRDError(st, now)), universe)
  {
    if Current(s.m, st) {
      var noCRD := s.m.noCRD[st.serverURL := now + o.noCRDCacheTTL];
      MarksDoNotMatter(o, s, noCRD, universe);
      StopRootKeepsInv(o, s.(m := s.m.(noCRD := noCRD)), st.rootID, universe);
      NoCRDIsMarkThenStop(o, s, st, now);
    } else {
      SupersededChangesNothing(o, s, NoCRDError(st, now));
    }
  }

  lemma ReconcileRootKeepsInv(o: Options, s: State, rootID: string, config: Config, creates: bool, now: Time,
                              universe: iset<string>)
    requires Distinct(o, universe) && Inv(o, s, universe)
    requires rootID == IN_CLUSTER_ROOT_ID || STORE_ROOT_PREFIX <= rootID
    ensures Inv(o, ReconcileRoot(s, rootID, config, creates, now), universe)
  {
    var s1 := s.(m := ForgetExpiredNoCRD(s.m, config.serverURL, now));
    MarksDoNotMatter(o, s, s1.m.noCRD, universe);
    if s.stopped {
    } else if LiveNoCRD(s.m, config.serverURL, now) {
      StopRootKeepsInv(o, s1, rootID, universe);
    } else if !Matches(s1.m, rootID, config.serverURL, config.fingerprint) && creates {
      var s' := ReconcileRoot(s, rootID, config, creates, now);
      RootReplaced(s1, s', RootState(s1.nextID, rootID, config.serverURL, config.fingerprint));
      SectionContainment(s1.m, Activate(RootState(s1.nextID, rootID, config.serverURL, config.fingerprint)));
    }
  }

  lemma {:induction false} ReconcileEachKeepsInv(o: Options, s: State, order: seq<string>,
      desired: map<string, Config>, creates: set<string>, now: Time, universe: iset<string>)
    requires Distinct(o, universe) && Inv(o, s, universe)
    requires forall r :: r in order ==> r in desired
    requires forall r :: r in desired ==> r == IN_CLUSTER_ROOT_ID || STORE_ROOT_PREFIX <= r
    ensures Inv(o, ReconcileEach(s, order, desired, creates, now), universe)
    decreases |order|
  {
    if order != [] {
      ReconcileRootKeepsInv(o, s, order[0], desired[order[0]], order[0] in creates, now, universe);
      ReconcileEachKeepsInv(o, ReconcileRoot(s, order[0], desired[order[0]], order[0] in creates, now),
                            order[1..], desired, creates, now, universe);
    }
  }

  lemma SeedsKeepInv(o: Options, s: State, e: Event, universe: iset<string>)
    requires Inv(o, s, universe) && Enabled(o, s, e) && Proper(o, e, universe) && (e.SetSeed? || e.DropSeed?)
    ensures Inv(o, Step(o, s, e), universe)
  {
    var s' := Step(o, s, e);
    forall k | k in s'.m.profiles ensures s'.m.profiles[k] in s'.store && s'.store[s'.m.profiles[k]].inventory {
      assert s.m.profiles[k] != e.name;
    }
    RootsRemoved(s, s', {});
  }

  lemma InvStep(o: Options, s: State, e: Event, universe: iset<string>)
    requires Distinct(o, universe) && Inv(o, s, universe) && Enabled(o, s, e) && Proper(o, e, universe)
    ensures Inv(o, Step(o, s, e), universe)
  {
    match e
    case Upsert(st, p) => UpsertKeepsInv(o, s, st, p, universe);
    case Delete(st, p) =>
      assert Owned(KeyOf(st, p), st.rootID);
      PruneKeepsInv(o, s, st, KeyOf(st, p), universe);
    case NoCRDError(st, now) => NoCRDKeepsInv(o, s, st, now, universe);
    case InitialSync(st, listed) => InitialSyncKeepsInv(o, s, st, listed, universe);
    case Reconcile(order, loaded, creates, now) =>
      if !s.stopped {
        MissingStoppedKeepsInv(o, s, loaded, universe);
        ReconcileEachKeepsInv(o, MissingStopped(o, s, loaded), order, DesiredRoots(o, s.store, loaded),
                              creates, now, universe);
      }
    case StopAll =>
      var s' := Step(o, s, e);
      RootsRemoved(s, s', s.m.roots.Keys);
      forall k | k in s'.m.profiles ensures Tracked(s'.m, k) {
        var r :| r in s.m.keysByRoot && k in s.m.keysByRoot[r];
        assert r in s'.m.keysByRoot && k in s'.m.keysByRoot[r];
      }
    case _ => SeedsKeepInv(o, s, e, universe);
  }

  // ------------------------------------------------------------ main results over runs

  ghost predicate ValidRun(o: Options, s: State, es: seq<Event>, universe: iset<string>)
    decreases |es|
  {
    es == [] ||
    (Enabled(o, s, es[0]) && Proper(o, es[0], universe) && ValidRun(o, Step(o, s, es[0]), es[1..], universe))
  }

  ghost function Run(o: Options, s: State, es: seq<Event>, universe: iset<string>): State
    requires ValidRun(o, s, es, universe)
    decreases |es|
  {
    if es == [] then s else Run(o, Step(o, s, es[0]), es[1..], universe)
  }

  lemma {:induction false} InvRun(o: Options, s: State, es: seq<Event>, universe: iset<string>)
    requires Distinct(o, universe) && Inv(o, s, universe) && ValidRun(o, s, es, universe)
    ensures Inv(o, Run(o, s, es, universe), universe)
    decreases |es|
  {
    if es != [] {
      InvStep(o, s, es[0], universe);
      InvRun(o, Step(o, s, es[0]), es[1..], universe);
    }
  }

  lemma {:induction false} ReconcileEachSupersedes(s: State, order: seq<string>, desired: map<string, Config>,
                                                   creates: set<string>, now: Time, st: RootState)
    requires (forall r :: r in order ==> r in desired) && st.id < s.nextID && !Current(s.m, st)
    ensures var s' := ReconcileEach(s, order, desired, creates, now); st.id < s'.nextID && !Current(s'.m, st)
    decreases |order|
  {
    if order != [] {
      ReconcileEachSupersedes(ReconcileRoot(s, order[0], desired[order[0]], order[0] in creates, now),
                              order[1..], desired, creates, now, st);
    }
  }

  lemma SupersedesStep(o: Options, s: State, e: Event, st: RootState)
    requires Enabled(o, s, e) && st.id < s.nextID && !Current(s.m, st)
    ensures st.id < Step(o, s, e).nextID && !Current(Step(o, s, e).m, st)
  {
    if e.Reconcile? && !s.stopped {
      ReconcileEachSupersedes(MissingStopped(o, s, e.storeRootsLoaded), e.order,
                              DesiredRoots(o, s.store, e.storeRootsLoaded), e.creates, e.now, st);
    }
  }

  /**
   A root state that has been superseded -- replaced, stopped, or found without the CRD -- never
   becomes current again, and whatever its callbacks still deliver, at any later point of any
   run, changes no map and no context and cancels nothing.
   */
  lemma {:induction false} SupersededForever(o: Options, s: State, es: seq<Event>, universe: iset<string>,
                                             st: RootState, e: Event)
    requires ValidRun(o, s, es, universe) && st.id < s.nextID && !Current(s.m, st)
    requires (e.Upsert? || e.Delete? || e.NoCRDError? || e.InitialSync?) && e.st == st
    ensures var s' := Run(o, s, es, universe); Enabled(o, s', e) && Step(o, s', e) == s'
    decreases |es|
  {
    if es == [] {
      SupersededChangesNothing(o, s, e);
    } else {
      SupersedesStep(o, s, es[0], st);
      SupersededForever(o, Step(o, s, es[0]), es[1..], universe, st, e);
    }
  }

  /** A runner that has just been built, over a store without inventory contexts. */
  ghost predicate Initial(s: State)
  {
    && s.m == Maps(map[], map[], map[], map[]) && s.cancelled == {} && s.nextID == 0 && !s.stopped
    && forall n :: n in s.store ==> !s.store[n].inventory
  }

  /**
   Inventory agreement after any run of reconciles, callbacks and seed changes: a profile with a
   context is filed under exactly one root, and the store holds an inventory context under
   a name exactly when some profile recorded that name.
   */
  lemma InventoryAgreement(o: Options, s0: State, es: seq<Event>, universe: iset<string>)
    requires Distinct(o, universe) && Initial(s0) && ValidRun(o, s0, es, universe)
    ensures var s := Run(o, s0, es, universe);
      && (forall k :: k in s.m.profiles ==> Tracked(s.m, k))
      && (forall k, r, r' ::
            r in s.m.keysByRoot && r' in s.m.keysByRoot && k in s.m.keysByRoot[r] && k in s.m.keysByRoot[r']
            ==> r == r')
      && (forall n :: (n in s.store && s.store[n].inventory) <==> n in s.m.profiles.Values)
      && (forall k :: k in s.m.profiles ==> s.m.profiles[k] == o.contextName(k))
  {
    InvRun(o, s0, es, universe);
    var s := Run(o, s0, es, universe);
    forall k, r, r' | r in s.m.keysByRoot && r' in s.m.keysByRoot
      && k in s.m.keysByRoot[r] && k in s.m.keysByRoot[r']
      ensures r == r'
    {
      OneOwner(k, r, r');
    }
  }

  lemma {:induction false} CountRoots(roots: map<string, RootState>, ids: set<nat>)
    requires forall r, r' :: r in roots && r' in roots && roots[r].id == roots[r'].id ==> r == r'
    requires forall id :: id in ids <==> exists r :: r in roots && roots[r].id == id
    ensures |ids| == |roots|
    decreases |roots|
  {
    if roots == map[] {
      assert ids == {};
    } else {
      var r :| r in roots;
      var roots' := roots - {r};
      var ids' := ids - {roots[r].id};
      forall id | id in ids' ensures exists q :: q in roots' && roots'[q].id == id {
        var q :| q in roots && roots[q].id == id;
        assert q in roots';
      }
      CountRoots(roots', ids');
    }
  }

  /**
   No leaked informer: after any run every root state ever activated is current or cancelled,
   never both, and the informers still live are as many as the entries of roots.
   */
  lemma NoLeakedInformer(o: Options, s0: State, es: seq<Event>, universe: iset<string>)
    requires Distinct(o, universe) && Initial(s0) && ValidRun(o, s0, es, universe)
    ensures var s := Run(o, s0, es, universe);
      && (forall id: nat :: id < s.nextID ==> (id in s.cancelled <==> !Live(s.m, id)))
      && |set id: nat | id < s.nextID && id !in s.cancelled| == |s.m.roots|
  {
    InvRun(o, s0, es, universe);
    var s := Run(o, s0, es, universe);
    var live := set id: nat | id < s.nextID && id !in s.cancelled;
    assert forall id: nat :: id in live <==> Live(s.m, id);
    CountRoots(s.m.roots, live);
  }
}
