/**
 class Runner of backend/pkg/clusterinventory/clusterinventory.go, in place. Every method is
 proved against the value-level functions of InventoryModel, about which InventoryRuns and
 InventoryConvergence prove what holds over whole runs.
 */
module InventoryRunner {
  import opened Wrappers
  import opened InventoryModel

  function AsSet<T>(xs: seq<T>): set<T>
  {
    set x | x in xs
  }

  lemma AsSetAppend<T>(xs: seq<T>, x: T)
    ensures AsSet(xs + [x]) == AsSet(xs) + {x}
  {
  }

  class Runner {
    const options: Options
    var roots: map<string, RootState>
    var profiles: map<string, string>
    var profileKeysByRoot: map<string, set<string>>
    var noCRD: map<string, Time>
    /** The Headlamp context store. */
    var store: map<string, Context>
    /** Root states whose cancel function was called. */
    var cancelled: set<nat>
    var nextID: nat
    /** The context Run was given is done. */
    var stopped: bool

    ghost function Tables(): Maps
      reads this
    {
      Maps(roots, profiles, profileKeysByRoot, noCRD)
    }

    ghost function Contents(): State
      reads this
    {
      State(Tables(), store, cancelled, nextID, stopped)
    }

    constructor (options: Options, store: map<string, Context>)
      ensures Contents() == State(Maps(map[], map[], map[], map[]), store, {}, 0, false)
      ensures this.options == options
    {
      this.options := options;
      this.store := store;
      roots, profiles, profileKeysByRoot, noCRD := map[], map[], map[], map[];
      cancelled, nextID, stopped := {}, 0, false;
    }

    method RemoveContexts(contextNames: seq<string>)
      modifies this`store
      ensures store == old(store) - AsSet(contextNames)
    {
      for i := 0 to |contextNames|
        invariant store == old(store) - AsSet(contextNames[..i])
      {
        store := store - {contextNames[i]};
        assert contextNames[..i + 1] == contextNames[..i] + [contextNames[i]];
        AsSetAppend(contextNames[..i], contextNames[i]);
      }
      assert contextNames[..|contextNames|] == contextNames;
    }

    method PruneProfileLocked(profileKey: string) returns (contextNames: seq<string>)
      modifies this`profiles
      ensures profiles == old(profiles) - {profileKey}
      ensures AsSet(contextNames) == NamesOf(old(Tables()), {profileKey})
    {
      if profileKey !in profiles {
        return [];
      }
      contextNames := [profiles[profileKey]];
      profiles := profiles - {profileKey};
    }

    /** The loop shared by pruneRootLocked and completeRootSyncFromCache. */
    method PruneProfilesLocked(keys: set<string>) returns (contextNames: seq<string>)
      modifies this`profiles
      ensures profiles == old(profiles) - keys
      ensures AsSet(contextNames) == NamesOf(old(Tables()), keys)
    {
      contextNames := [];
      var todo := keys;
      while todo != {}
        invariant todo <= keys
        invariant profiles == old(profiles) - (keys - todo)
        invariant AsSet(contextNames) == NamesOf(old(Tables()), keys - todo)
      {
        var key :| key in todo;
        ghost var before := profiles;
        var names := PruneProfileLocked(key);
        assert AsSet(contextNames + names) == AsSet(contextNames) + AsSet(names);
        contextNames := contextNames + names;
        todo := todo - {key};
        assert keys - todo == keys - todo - {key} + {key};
      }
      assert keys - todo == keys;
    }

    method PruneRootLocked(rootID: string) returns (contextNames: seq<string>)
      modifies this`profiles, this`profileKeysByRoot
      ensures (Tables(), AsSet(contextNames)) == PruneRoot(old(Tables()), rootID)
    {
      var keys := if rootID in profileKeysByRoot then profileKeysByRoot[rootID] else {};
      contextNames := PruneProfilesLocked(keys);
      profileKeysByRoot := profileKeysByRoot - {rootID};
    }

    predicate IsCurrentRoot(st: RootState)
      reads this
    {
      st.rootID in roots && roots[st.rootID] == st
    }

    method RecordRootProfile(st: RootState, profileKey: string) returns (current: bool)
      modifies this`profileKeysByRoot
      ensures Tables() == InventoryModel.RecordRootProfile(old(Tables()), st, profileKey)
      ensures current == Current(old(Tables()), st)
    {
      if !IsCurrentRoot(st) {
        return false;
      }
      if st.rootID !in profileKeysByRoot {
        profileKeysByRoot := profileKeysByRoot[st.rootID := {}];
      }
      profileKeysByRoot := profileKeysByRoot[st.rootID := profileKeysByRoot[st.rootID] + {profileKey}];
      return true;
    }

    method RecordSyncedProfile(st: RootState, profileKey: string, contextName: string)
      modifies this`profiles
      ensures Tables() == InventoryModel.RecordSyncedProfile(old(Tables()), st, profileKey, contextName)
    {
      if !IsCurrentRoot(st) {
        return;
      }
      profiles := profiles[profileKey := contextName];
    }

    method PruneClusterProfile(st: RootState, profileKey: string)
      modifies this`profiles, this`profileKeysByRoot, this`store
      ensures Contents() ==
        WithRemoved(old(Contents()), InventoryModel.PruneClusterProfile(old(Tables()), st, profileKey))
    {
      if !IsCurrentRoot(st) {
        assert store - {} == store;
        return;
      }
      if st.rootID in profileKeysByRoot {
        profileKeysByRoot := profileKeysByRoot[st.rootID := profileKeysByRoot[st.rootID] - {profileKey}];
      }
      var contextNames := PruneProfileLocked(profileKey);
      RemoveContexts(contextNames);
    }

    /** handleClusterProfileUpsert with syncClusterProfile, run without interleaving. */
    method HandleClusterProfileUpsert(st: RootState, p: Profile)
      modifies this`profiles, this`profileKeysByRoot, this`store
      ensures Contents() == Upserted(options, old(Contents()), st, p)
    {
      var profileKey := MakeProfileKey(st.rootID, p.namespace, p.name);
      if !p.selected {
        PruneClusterProfile(st, profileKey);
        return;
      }
      var current := RecordRootProfile(st, profileKey);
      if !current {
        return;
      }
      if st.id in cancelled || !IsCurrentRoot(st) {
        return;
      }
      if !p.builds || !IsCurrentRoot(st) {
        return;
      }
      var contextName := options.contextName(profileKey);
      if !p.accepted {
        return;
      }
      store := store[contextName := InventoryContext()];
      RecordSyncedProfile(st, profileKey, contextName);
    }

    method HandleClusterProfileDelete(st: RootState, p: Profile)
      modifies this`profiles, this`profileKeysByRoot, this`store
      ensures Contents() == Step(options, old(Contents()), Delete(st, p))
    {
      PruneClusterProfile(st, MakeProfileKey(st.rootID, p.namespace, p.name));
    }

    method CompleteRootSyncFromCache(st: RootState, listed: seq<Profile>)
      modifies this`profiles, this`profileKeysByRoot, this`store
      ensures Contents() == Step(options, old(Contents()), InitialSync(st, listed))
    {
      var seen: set<string> := {};
      for i := 0 to |listed|
        invariant seen == Seen(st, listed[..i])
      {
        assert listed[..i + 1] == listed[..i] + [listed[i]];
        if listed[i].selected {
          seen := seen + {MakeProfileKey(st.rootID, listed[i].namespace, listed[i].name)};
        }
      }
      assert listed[..|listed|] == listed;
      if !IsCurrentRoot(st) {
        assert store - {} == store;
        return;
      }
      var previous := if st.rootID in profileKeysByRoot then profileKeysByRoot[st.rootID] else {};
      profileKeysByRoot := profileKeysByRoot[st.rootID := seen];
      var contextNames := PruneProfilesLocked(previous - seen);
      RemoveContexts(contextNames);
    }

    method StopRoot(rootID: string)
      modifies this`roots, this`profiles, this`profileKeysByRoot, this`store, this`cancelled
      ensures Contents() == WithRemoved(old(Contents()), InventoryModel.StopRoot(old(Tables()), rootID))
        .(cancelled := old(cancelled) + IDsOf(old(Tables()), {rootID}))
    {
      var cancels: set<nat> := {};
      if rootID in roots {
        cancels := {roots[rootID].id};
        roots := roots - {rootID};
      }
      var contextNames := PruneRootLocked(rootID);
      RemoveContexts(contextNames);
      cancelled := cancelled + cancels;
    }

    /** One iteration of stopMissingRoots; `done` are the roots already stopped. */
    method StopMissingRoot(rootID: string, contextNames: seq<string>, ghost before: Maps, ghost done: set<string>)
      returns (contextNames': seq<string>)
      requires rootID in roots && rootID !in done && rootID in before.roots
      requires (Tables(), AsSet(contextNames)) == StopRoots(before, done)
      modifies this`roots, this`profiles, this`profileKeysByRoot
      ensures (Tables(), AsSet(contextNames')) == StopRoots(before, done + {rootID})
      ensures IDsOf(before, done + {rootID}) == IDsOf(before, done) + {before.roots[rootID].id}
    {
      roots := roots - {rootID};
      ghost var middle := Tables();
      var names := PruneRootLocked(rootID);
      StopOneMore(before, done, rootID, middle);
      contextNames' := contextNames + names;
      assert AsSet(contextNames') == AsSet(contextNames) + AsSet(names);
    }

    method StopMissingRoots(presentRoots: set<string>, storeRootsLoaded: bool)
      modifies this`roots, this`profiles, this`profileKeysByRoot, this`store, this`cancelled
      ensures var missing := Missing(old(Tables()), presentRoots, storeRootsLoaded);
        Contents() == WithRemoved(old(Contents()), StopRoots(old(Tables()), missing))
          .(cancelled := old(cancelled) + IDsOf(old(Tables()), missing))
    {
      ghost var before := Tables();
      ghost var missing := Missing(before, presentRoots, storeRootsLoaded);
      var cancels: set<nat> := {};
      var contextNames: seq<string> := [];
      var todo := roots.Keys;
      ghost var done: set<string> := {};
      StopNone(before);
      assert AsSet(contextNames) == {};
      while todo != {}
        invariant todo <= before.roots.Keys && todo * done == {} && done <= missing <= done + todo
        invariant (Tables(), AsSet(contextNames)) == StopRoots(before, done)
        invariant cancels == IDsOf(before, done)
        invariant store == old(store) && cancelled == old(cancelled)
      {
        var rootID :| rootID in todo;
        todo := todo - {rootID};
        if rootID in presentRoots {
          continue;
        }
        if rootID != IN_CLUSTER_ROOT_ID && (!storeRootsLoaded || !(STORE_ROOT_PREFIX <= rootID)) {
          continue;
        }
        cancels := cancels + {roots[rootID].id};
        contextNames := StopMissingRoot(rootID, contextNames, before, done);
        done := done + {rootID};
      }
      assert done == missing;
      RemoveContexts(contextNames);
      cancelled := cancelled + cancels;
    }

    static lemma StopNone(m: Maps)
      ensures StopRoots(m, {}) == (m, {}) && IDsOf(m, {}) == {}
    {
      assert KeysOfAll(m, {}) == {} && NamesOf(m, {}) == {};
      assert m.roots - {} == m.roots && m.profiles - {} == m.profiles && m.keysByRoot - {} == m.keysByRoot;
    }

    /** Pruning one more root after `done` were stopped. */
    static lemma StopOneMore(before: Maps, done: set<string>, rootID: string, middle: Maps)
      requires rootID !in done && rootID in before.roots
      requires middle == StopRoots(before, done).0.(roots := before.roots - done - {rootID})
      ensures PruneRoot(middle, rootID).0 == StopRoots(before, done + {rootID}).0
      ensures StopRoots(before, done).1 + PruneRoot(middle, rootID).1 == StopRoots(before, done + {rootID}).1
      ensures IDsOf(before, done + {rootID}) == IDsOf(before, done) + {before.roots[rootID].id}
    {
      assert KeysOf(middle, rootID) == KeysOf(before, rootID);
      assert KeysOfAll(before, done + {rootID}) == KeysOfAll(before, done) + KeysOf(before, rootID);
      assert before.roots - (done + {rootID}) == before.roots - done - {rootID};
      assert before.keysByRoot - (done + {rootID}) == before.keysByRoot - done - {rootID};
    }

    method HandleNoCRDError(st: RootState, now: Time)
      modifies this`roots, this`profiles, this`profileKeysByRoot, this`noCRD, this`store, this`cancelled
      ensures Contents() == Step(options, old(Contents()), NoCRDError(st, now))
    {
      if !IsCurrentRoot(st) {
        assert store - {} == store && cancelled + {} == cancelled;
        return;
      }
      noCRD := noCRD[st.serverURL := now + options.noCRDCacheTTL];
      roots := roots - {st.rootID};
      var contextNames := PruneRootLocked(st.rootID);
      RemoveContexts(contextNames);
      cancelled := cancelled + {st.id};
    }

    method HasNoCRD(serverURL: string, now: Time) returns (marked: bool)
      modifies this`noCRD
      ensures Tables() == ForgetExpiredNoCRD(old(Tables()), serverURL, now)
      ensures marked == LiveNoCRD(old(Tables()), serverURL, now)
    {
      if serverURL !in noCRD {
        return false;
      }
      if !(now < noCRD[serverURL]) {
        noCRD := noCRD - {serverURL};
        return false;
      }
      return true;
    }

    method ActivateRoot(st: RootState) returns (previous: Option<RootState>, current: bool)
      modifies this`roots
      ensures Tables() == InventoryModel.ActivateRoot(old(Tables()), st)
      ensures current == Matches(old(Tables()), st.rootID, st.serverURL, st.fingerprint)
      ensures !current ==>
        previous == if st.rootID in old(roots) then Some(old(roots)[st.rootID]) else None
    {
      previous := if st.rootID in roots then Some(roots[st.rootID]) else None;
      if previous.Some? && previous.value.serverURL == st.serverURL && previous.value.fingerprint == st.fingerprint {
        return None, true;
      }
      roots := roots[st.rootID := st];
      return previous, false;
    }

    method ReconcileRoot(rootID: string, config: Config, creates: bool, now: Time)
      modifies this
      ensures Contents() == InventoryModel.ReconcileRoot(old(Contents()), rootID, config, creates, now)
    {
      if stopped {
        return;
      }
      var marked := HasNoCRD(config.serverURL, now);
      if marked {
        StopRoot(rootID);
        return;
      }
      if rootID in roots && roots[rootID].serverURL == config.serverURL
         && roots[rootID].fingerprint == config.fingerprint {
        return;
      }
      if !creates {
        return;
      }
      var st := RootState(nextID, rootID, config.serverURL, config.fingerprint);
      nextID := nextID + 1;
      var previous, current := ActivateRoot(st);
      // Only another goroutine activating the same root in between could make `current` true.
      assert !current;
      if previous.Some? {
        cancelled := cancelled + {previous.value.id};
      }
      assert cancelled == old(cancelled) + IDsOf(old(Tables()), {rootID});
    }

    /** `order` is the sorted list of desired root ids; `creates` those whose client can be built. */
    method ReconcileRoots(order: seq<string>, storeRootsLoaded: bool, creates: set<string>, now: Time)
      requires Enabled(options, Contents(), Reconcile(order, storeRootsLoaded, creates, now))
      modifies this
      ensures Contents() == Step(options, old(Contents()), Reconcile(order, storeRootsLoaded, creates, now))
    {
      if stopped {
        return;
      }
      var present := PresentRoots(options, store, storeRootsLoaded);
      var desired := DesiredRoots(options, store, storeRootsLoaded);
      StopMissingRoots(present, Loaded(options, storeRootsLoaded));
      ghost var s0 := Contents();
      assert s0 == MissingStopped(options, old(Contents()), storeRootsLoaded);
      var i := 0;
      while i < |order|
        invariant 0 <= i <= |order|
        invariant forall r :: r in order ==> r in desired
        invariant ReconcileEach(s0, order, desired, creates, now)
          == ReconcileEach(Contents(), order[i..], desired, creates, now)
      {
        assert order[i..][0] == order[i] && order[i..][1..] == order[i + 1..];
        ReconcileRoot(order[i], desired[order[i]], order[i] in creates, now);
        i := i + 1;
      }
    }

    method StopAllRoots()
      modifies this`roots, this`cancelled, this`stopped
      ensures Contents() == Step(options, old(Contents()), StopAll)
    {
      stopped := true;
      var cancels: set<nat> := {};
      var todo := roots.Keys;
      while todo != {}
        invariant todo == roots.Keys && todo <= old(roots).Keys && stopped && cancelled == old(cancelled)
        invariant roots == old(roots) - (old(roots).Keys - todo)
        invariant cancels == IDsOf(old(Tables()), old(roots).Keys - todo)
      {
        var rootID :| rootID in todo;
        todo := todo - {rootID};
        cancels := cancels + {roots[rootID].id};
        roots := roots - {rootID};
      }
      cancelled := cancelled + cancels;
      assert old(roots).Keys - todo == old(roots).Keys;
      assert roots == map[];
    }
  }
}
