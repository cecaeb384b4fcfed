/** One reconcile reaches the desired roots, and a second one has nothing left to do. */
module InventoryConvergence {
  import opened InventoryModel
  import opened InventoryRuns

  /** The root is where reconcileRoot wants it, and its server's mark is not an expired one. */
  predicate Settled(s: State, rootID: string, config: Config, now: Time)
  {
    if config.serverURL in s.m.noCRD
    then now < s.m.noCRD[config.serverURL] && rootID !in s.m.roots && rootID !in s.m.keysByRoot
    else Matches(s.m, rootID, config.serverURL, config.fingerprint)
  }

  lemma ReconcileRootSettles(s: State, rootID: string, config: Config, now: Time)
    requires !s.stopped
    ensures Settled(ReconcileRoot(s, rootID, config, true, now), rootID, config, now)
  {
  }

  lemma SettledStays(s: State, rootID: string, config: Config, other: string, config': Config, creates: bool, now: Time)
    requires Settled(s, rootID, config, now) && other != rootID
    ensures Settled(ReconcileRoot(s, other, config', creates, now), rootID, config, now)
  {
  }

  lemma SettledIsFixed(s: State, rootID: string, config: Config, creates: bool, now: Time)
    requires Settled(s, rootID, config, now)
    ensures ReconcileRoot(s, rootID, config, creates, now) == s
  {
  }

  lemma {:induction false} EachKeepsSettled(s: State, order: seq<string>, desired: map<string, Config>,
                                            creates: set<string>, now: Time, rootID: string, config: Config)
    requires (forall r :: r in order ==> r in desired) && rootID !in order && Settled(s, rootID, config, now)
    ensures Settled(ReconcileEach(s, order, desired, creates, now), rootID, config, now)
    decreases |order|
  {
    if order != [] {
      SettledStays(s, rootID, config, order[0], desired[order[0]], order[0] in creates, now);
      EachKeepsSettled(ReconcileRoot(s, order[0], desired[order[0]], order[0] in creates, now),
                       order[1..], desired, creates, now, rootID, config);
    }
  }

  lemma {:induction false} EachSettles(s: State, order: seq<string>, desired: map<string, Config>,
                                       creates: set<string>, now: Time, rootID: string)
    requires !s.stopped && forall r :: r in order ==> r in desired && r in creates
    requires forall i, j :: 0 <= i < j < |order| ==> order[i] != order[j]
    requires rootID in order
    ensures Settled(ReconcileEach(s, order, desired, creates, now), rootID, desired[rootID], now)
    decreases |order|
  {
    var s1 := ReconcileRoot(s, order[0], desired[order[0]], true, now);
    if order[0] == rootID {
      ReconcileRootSettles(s, rootID, desired[rootID], now);
      EachKeepsSettled(s1, order[1..], desired, creates, now, rootID, desired[rootID]);
    } else {
      assert rootID in order[1..];
      EachSettles(s1, order[1..], desired, creates, now, rootID);
    }
  }

  lemma {:induction false} AllSettledIsFixed(s: State, order: seq<string>, desired: map<string, Config>,
                                             creates: set<string>, now: Time)
    requires forall r :: r in order ==> r in desired && Settled(s, r, desired[r], now)
    ensures ReconcileEach(s, order, desired, creates, now) == s
    decreases |order|
  {
    if order != [] {
      assert order[0] in order;
      SettledIsFixed(s, order[0], desired[order[0]], order[0] in creates, now);
      AllSettledIsFixed(s, order[1..], desired, creates, now);
    }
  }

  /** Roots outside the enumeration are left alone; none appears from elsewhere. */
  lemma {:induction false} EachTouchesOnlyOrder(s: State, order: seq<string>, desired: map<string, Config>,
                                                creates: set<string>, now: Time, rootID: string)
    requires (forall r :: r in order ==> r in desired) && rootID !in order
    ensures rootID in ReconcileEach(s, order, desired, creates, now).m.roots <==> rootID in s.m.roots
    decreases |order|
  {
    if order != [] {
      EachTouchesOnlyOrder(ReconcileRoot(s, order[0], desired[order[0]], order[0] in creates, now),
                           order[1..], desired, creates, now, rootID);
    }
  }

  /** A mark that is live at `now` is never touched; a live one cannot come from nowhere. */
  lemma {:induction false} EachKeepsLiveMarks(s: State, order: seq<string>, desired: map<string, Config>,
                                              creates: set<string>, now: Time, serverURL: string)
    requires forall r :: r in order ==> r in desired
    ensures LiveNoCRD(ReconcileEach(s, order, desired, creates, now).m, serverURL, now)
       <==> LiveNoCRD(s.m, serverURL, now)
    decreases |order|
  {
    if order != [] {
      EachKeepsLiveMarks(ReconcileRoot(s, order[0], desired[order[0]], order[0] in creates, now),
                         order[1..], desired, creates, now, serverURL);
    }
  }

  // ------------------------------------------------------------ seeds survive a reconcile

  /** Only inventory contexts differ between the two stores. */
  ghost predicate SameSeeds(store: map<string, Context>, store': map<string, Context>)
  {
    && (forall n :: n in store' ==> n in store && store'[n] == store[n])
    && (forall n :: n in store && !store[n].inventory ==> n in store')
  }

  lemma SameSeedRoots(store: map<string, Context>, store': map<string, Context>)
    requires SameSeeds(store, store')
    ensures SeedRoots(store) == SeedRoots(store') && ConfiguredRoots(store) == ConfiguredRoots(store')
  {
  }

  lemma SameSeedConfig(store: map<string, Context>, store': map<string, Context>, r: string)
    requires SameSeeds(store, store') && r in ConfiguredRoots(store) && r in ConfiguredRoots(store')
    ensures SeedConfigs(store)[r] == SeedConfigs(store')[r]
  {
  }

  lemma SameSeedsSameRoots(o: Options, store: map<string, Context>, store': map<string, Context>, loaded: bool)
    requires SameSeeds(store, store')
    ensures PresentRoots(o, store', loaded) == PresentRoots(o, store, loaded)
    ensures DesiredRoots(o, store', loaded) == DesiredRoots(o, store, loaded)
  {
    SameSeedRoots(store, store');
    forall r | r in ConfiguredRoots(store) ensures SeedConfigs(store)[r] == SeedConfigs(store')[r] {
      SameSeedConfig(store, store', r);
    }
    assert SeedConfigs(store) == SeedConfigs(store');
  }

  lemma ReconcileRootKeepsSeeds(o: Options, s: State, rootID: string, config: Config, creates: bool, now: Time,
                                universe: iset<string>)
    requires Inv(o, s, universe)
    ensures SameSeeds(s.store, ReconcileRoot(s, rootID, config, creates, now).store)
  {
  }

  lemma {:induction false} EachKeepsSeeds(o: Options, s: State, order: seq<string>, desired: map<string, Config>,
                                          creates: set<string>, now: Time, universe: iset<string>)
    requires Distinct(o, universe) && Inv(o, s, universe)
    requires forall r :: r in order ==> r in desired
    requires forall r :: r in desired ==> r == IN_CLUSTER_ROOT_ID || STORE_ROOT_PREFIX <= r
    ensures SameSeeds(s.store, ReconcileEach(s, order, desired, creates, now).store)
    decreases |order|
  {
    if order != [] {
      var s1 := ReconcileRoot(s, order[0], desired[order[0]], order[0] in creates, now);
      ReconcileRootKeepsSeeds(o, s, order[0], desired[order[0]], order[0] in creates, now, universe);
      ReconcileRootKeepsInv(o, s, order[0], desired[order[0]], order[0] in creates, now, universe);
      EachKeepsSeeds(o, s1, order[1..], desired, creates, now, universe);
    }
  }

  lemma ReconcileKeepsSeeds(o: Options, s: State, order: seq<string>, creates: set<string>, now: Time,
                            universe: iset<string>)
    requires Distinct(o, universe) && Inv(o, s, universe) && Enabled(o, s, Reconcile(order, true, creates, now))
    ensures SameSeeds(s.store, Step(o, s, Reconcile(order, true, creates, now)).store)
  {
    if !s.stopped {
      MissingStoppedKeepsInv(o, s, true, universe);
      EachKeepsSeeds(o, MissingStopped(o, s, true), order, DesiredRoots(o, s.store, true), creates, now, universe);
    }
  }

  // ------------------------------------------------------------ main results

  /**
   After one reconcile with the store loaded and every client created: a desired root is
   active with the desired server and fingerprint, unless its server is marked as lacking the
   CRD, and then it is not active; and no root is active whose seed is not present.
   */
  lemma ReconcileConverges(o: Options, s: State, order: seq<string>, creates: set<string>, now: Time,
                           universe: iset<string>)
    requires Distinct(o, universe) && Inv(o, s, universe) && !s.stopped
    requires Enabled(o, s, Reconcile(order, true, creates, now)) && forall r :: r in order ==> r in creates
    ensures var desired := DesiredRoots(o, s.store, true);
      var s' := Step(o, s, Reconcile(order, true, creates, now));
      && (forall r :: r in desired ==>
            if LiveNoCRD(s.m, desired[r].serverURL, now) then r !in s'.m.roots
            else Matches(s'.m, r, desired[r].serverURL, desired[r].fingerprint))
      && (forall r :: r in s'.m.roots ==> r in PresentRoots(o, s.store, true))
  {
    var desired := DesiredRoots(o, s.store, true);
    var s0 := MissingStopped(o, s, true);
    var s' := Step(o, s, Reconcile(order, true, creates, now));
    forall r | r in desired
      ensures if LiveNoCRD(s.m, desired[r].serverURL, now) then r !in s'.m.roots
              else Matches(s'.m, r, desired[r].serverURL, desired[r].fingerprint)
    {
      EachSettles(s0, order, desired, creates, now, r);
      EachKeepsLiveMarks(s0, order, desired, creates, now, desired[r].serverURL);
    }
    forall r | r in s'.m.roots ensures r in PresentRoots(o, s.store, true) {
      if r !in order {
        EachTouchesOnlyOrder(s0, order, desired, creates, now, r);
      }
    }
  }

  lemma NothingMissing(o: Options, s: State)
    requires forall r :: r in s.m.roots ==> r in PresentRoots(o, s.store, true)
    ensures MissingStopped(o, s, true) == s
  {
  }

  /** Reconciling again at the same instant changes nothing: no root, profile, mark or context. */
  lemma ReconcileIdempotent(o: Options, s: State, order: seq<string>, creates: set<string>, now: Time,
                            order': seq<string>, creates': set<string>, universe: iset<string>)
    requires Distinct(o, universe) && Inv(o, s, universe) && !s.stopped
    requires Enabled(o, s, Reconcile(order, true, creates, now)) && forall r :: r in order ==> r in creates
    requires Enabled(o, Step(o, s, Reconcile(order, true, creates, now)), Reconcile(order', true, creates', now))
    ensures var s' := Step(o, s, Reconcile(order, true, creates, now));
      Step(o, s', Reconcile(order', true, creates', now)) == s'
  {
    var s' := Step(o, s, Reconcile(order, true, creates, now));
    var s0 := MissingStopped(o, s, true);
    var desired := DesiredRoots(o, s.store, true);
    ReconcileConverges(o, s, order, creates, now, universe);
    ReconcileKeepsSeeds(o, s, order, creates, now, universe);
    SameSeedsSameRoots(o, s.store, s'.store, true);
    NothingMissing(o, s');
    NeverStops(s0, order, desired, creates, now);
    forall r | r in order' ensures Settled(s', r, desired[r], now) {
      EachSettles(s0, order, desired, creates, now, r);
    }
    AllSettledIsFixed(s', order', desired, creates', now);
  }

  lemma {:induction false} NeverStops(s: State, order: seq<string>, desired: map<string, Config>,
                                      creates: set<string>, now: Time)
    requires forall r :: r in order ==> r in desired
    ensures ReconcileEach(s, order, desired, creates, now).stopped == s.stopped
    decreases |order|
  {
    if order != [] {
      NeverStops(ReconcileRoot(s, order[0], desired[order[0]], order[0] in creates, now),
                 order[1..], desired, creates, now);
    }
  }
}
