/**
 backend/pkg/clusterinventory/clusterinventory.go: the maps of Runner, one function per
 critical section, and the callbacks built from them. A rootState never changes after it is
 built, so it is a record; `id` is its identity as a pointer.
 */
module InventoryModel {
  import opened Wrappers

  type Time = int

  const IN_CLUSTER_ROOT_ID: string := "in-cluster"
  const STORE_ROOT_PREFIX: string := "store/"

  datatype RootState = RootState(id: nat, rootID: string, serverURL: string, fingerprint: string)

  datatype Maps = Maps(
    roots: map<string, RootState>,
    profiles: map<string, string>,
    keysByRoot: map<string, set<string>>,
    noCRD: map<string, Time>)

  function MakeProfileKey(rootID: string, namespace: string, name: string): string
  {
    rootID + "/" + (namespace + "/" + name)
  }

  predicate Current(m: Maps, st: RootState)
  {
    st.rootID in m.roots && m.roots[st.rootID] == st
  }

  function KeysOf(m: Maps, rootID: string): set<string>
  {
    if rootID in m.keysByRoot then m.keysByRoot[rootID] else {}
  }

  /** The context names recorded for the keys. */
  function NamesOf(m: Maps, keys: set<string>): set<string>
  {
    set k | k in keys && k in m.profiles :: m.profiles[k]
  }

  predicate Matches(m: Maps, rootID: string, serverURL: string, fingerprint: string)
  {
    rootID in m.roots && m.roots[rootID].serverURL == serverURL && m.roots[rootID].fingerprint == fingerprint
  }

  // ------------------------------------------------------------ critical sections

  function RecordRootProfile(m: Maps, st: RootState, key: string): Maps
  {
    if !Current(m, st) then m
    else m.(keysByRoot := m.keysByRoot[st.rootID := KeysOf(m, st.rootID) + {key}])
  }

  function RecordSyncedProfile(m: Maps, st: RootState, key: string, contextName: string): Maps
  {
    if !Current(m, st) then m else m.(profiles := m.profiles[key := contextName])
  }

  /** The second component lists the contexts to remove from the store. */
  function PruneClusterProfile(m: Maps, st: RootState, key: string): (Maps, set<string>)
  {
    if !Current(m, st) then (m, {})
    else
      var keys := if st.rootID in m.keysByRoot
                  then m.keysByRoot[st.rootID := m.keysByRoot[st.rootID] - {key}] else m.keysByRoot;
      (m.(keysByRoot := keys, profiles := m.profiles - {key}), NamesOf(m, {key}))
  }

  function CompleteRootSync(m: Maps, st: RootState, seen: set<string>): (Maps, set<string>)
  {
    if !Current(m, st) then (m, {})
    else
      var gone := KeysOf(m, st.rootID) - seen;
      (m.(keysByRoot := m.keysByRoot[st.rootID := seen], profiles := m.profiles - gone), NamesOf(m, gone))
  }

  function PruneRoot(m: Maps, rootID: string): (Maps, set<string>)
  {
    (m.(keysByRoot := m.keysByRoot - {rootID}, profiles := m.profiles - KeysOf(m, rootID)),
     NamesOf(m, KeysOf(m, rootID)))
  }

  function StopRoot(m: Maps, rootID: string): (Maps, set<string>)
  {
    var (m', names) := PruneRoot(m, rootID);
    (m'.(roots := m'.roots - {rootID}), names)
  }

  /** The roots a reconcile stops because their seed is gone. */
  function Missing(m: Maps, present: set<string>, storeRootsLoaded: bool): set<string>
  {
    set r | r in m.roots && r !in present
         && (r == IN_CLUSTER_ROOT_ID || (storeRootsLoaded && STORE_ROOT_PREFIX <= r))
  }

  function KeysOfAll(m: Maps, rootIDs: set<string>): set<string>
  {
    set r, k | r in rootIDs && r in m.keysByRoot && k in m.keysByRoot[r] :: k
  }

  function StopRoots(m: Maps, rootIDs: set<string>): (Maps, set<string>)
  {
    (m.(roots := m.roots - rootIDs, keysByRoot := m.keysByRoot - rootIDs,
        profiles := m.profiles - KeysOfAll(m, rootIDs)),
     NamesOf(m, KeysOfAll(m, rootIDs)))
  }

  function MarkRootNoCRD(m: Maps, st: RootState, expiresAt: Time): (Maps, set<string>)
  {
    if !Current(m, st) then (m, {})
    else StopRoot(m.(noCRD := m.noCRD[st.serverURL := expiresAt]), st.rootID)
  }

  predicate LiveNoCRD(m: Maps, serverURL: string, now: Time)
  {
    serverURL in m.noCRD && now < m.noCRD[serverURL]
  }

  /** hasNoCRD also forgets an expired mark. */
  function ForgetExpiredNoCRD(m: Maps, serverURL: string, now: Time): Maps
  {
    if serverURL in m.noCRD && !LiveNoCRD(m, serverURL, now) then m.(noCRD := m.noCRD - {serverURL}) else m
  }

  function ActivateRoot(m: Maps, st: RootState): Maps
  {
    if Matches(m, st.rootID, st.serverURL, st.fingerprint) then m else m.(roots := m.roots[st.rootID := st])
  }

  // ------------------------------------------------------------ callbacks

  /** What identifies a REST config: normalized server and fingerprint, taken to be injective. */
  datatype Config = Config(serverURL: string, fingerprint: string)

  /** config is None when RESTConfig() fails. */
  datatype Context = Context(inventory: bool, internal: bool, config: Option<Config>)

  /** A ClusterProfile as the callbacks see it: selector verdict, whether its context can be
      built from its access providers, whether the store accepts it. */
  datatype Profile = Profile(namespace: string, name: string, selected: bool, builds: bool, accepted: bool)

  datatype Options = Options(hub: Option<Config>, discoverFromStore: bool, noCRDCacheTTL: int,
                             contextName: string -> string)

  /** Root ids are handed out in order of activation: 0 .. nextID. */
  datatype State = State(m: Maps, store: map<string, Context>, cancelled: set<nat>, nextID: nat, stopped: bool)

  datatype Event =
    | Upsert(st: RootState, profile: Profile)
    | Delete(st: RootState, profile: Profile)
    | NoCRDError(st: RootState, now: Time)
    | InitialSync(st: RootState, listed: seq<Profile>)
    | Reconcile(order: seq<string>, storeRootsLoaded: bool, creates: set<string>, now: Time)
    | StopAll
    | SetSeed(name: string, context: Context)
    | DropSeed(name: string)

  function InventoryContext(): Context
  {
    Context(true, false, None)
  }

  function KeyOf(st: RootState, p: Profile): string
  {
    MakeProfileKey(st.rootID, p.namespace, p.name)
  }

  function Seen(st: RootState, listed: seq<Profile>): set<string>
  {
    set p | p in listed && p.selected :: KeyOf(st, p)
  }

  function WithRemoved(s: State, result: (Maps, set<string>)): State
  {
    s.(m := result.0, store := s.store - result.1)
  }

  function Upserted(o: Options, s: State, st: RootState, p: Profile): State
  {
    var key := KeyOf(st, p);
    if !p.selected then WithRemoved(s, PruneClusterProfile(s.m, st, key))
    else if !Current(s.m, st) then s
    else
      var m := RecordRootProfile(s.m, st, key);
      if st.id !in s.cancelled && p.builds && p.accepted then
        s.(m := RecordSyncedProfile(m, st, key, o.contextName(key)),
           store := s.store[o.contextName(key) := InventoryContext()])
      else s.(m := m)
  }

  function StoreRootID(name: string): string
  {
    STORE_ROOT_PREFIX + name
  }

  predicate Seed(c: Context)
  {
    !c.inventory && !c.internal
  }

  function SeedRoots(store: map<string, Context>): set<string>
  {
    set n | n in store && Seed(store[n]) :: StoreRootID(n)
  }

  /** Seeds whose RESTConfig() succeeds. */
  function ConfiguredRoots(store: map<string, Context>): set<string>
  {
    set n | n in store && Seed(store[n]) && store[n].config.Some? :: StoreRootID(n)
  }

  function SeedConfigs(store: map<string, Context>): map<string, Config>
  {
    map r | r in ConfiguredRoots(store) :: store[r[|STORE_ROOT_PREFIX|..]].config.value
  }

  function PresentRoots(o: Options, store: map<string, Context>, loaded: bool): set<string>
  {
    (if o.hub.Some? then {IN_CLUSTER_ROOT_ID} else {})
    + (if o.discoverFromStore && loaded then SeedRoots(store) else {})
  }

  function DesiredRoots(o: Options, store: map<string, Context>, loaded: bool): map<string, Config>
  {
    (if o.hub.Some? then map[IN_CLUSTER_ROOT_ID := o.hub.value] else map[])
    + (if o.discoverFromStore && loaded then SeedConfigs(store) else map[])
  }

  /** storeRootsLoaded stays true when the store is not consulted at all. */
  function Loaded(o: Options, loaded: bool): bool
  {
    !o.discoverFromStore || loaded
  }

  function IDsOf(m: Maps, rootIDs: set<string>): set<nat>
  {
    set r | r in rootIDs && r in m.roots :: m.roots[r].id
  }

  function MissingStopped(o: Options, s: State, loaded: bool): State
  {
    var missing := Missing(s.m, PresentRoots(o, s.store, loaded), Loaded(o, loaded));
    WithRemoved(s, StopRoots(s.m, missing)).(cancelled := s.cancelled + IDsOf(s.m, missing))
  }

  function ReconcileRoot(s: State, rootID: string, config: Config, creates: bool, now: Time): State
  {
    var s1 := s.(m := ForgetExpiredNoCRD(s.m, config.serverURL, now));
    if s.stopped then s
    else if LiveNoCRD(s.m, config.serverURL, now) then
      WithRemoved(s1, StopRoot(s1.m, rootID)).(cancelled := s1.cancelled + IDsOf(s1.m, {rootID}))
    else if Matches(s1.m, rootID, config.serverURL, config.fingerprint) || !creates then s1
    else
      s1.(m := ActivateRoot(s1.m, RootState(s1.nextID, rootID, config.serverURL, config.fingerprint)),
          cancelled := s1.cancelled + IDsOf(s1.m, {rootID}), nextID := s1.nextID + 1)
  }

  function ReconcileEach(s: State, order: seq<string>, desired: map<string, Config>, creates: set<string>, now: Time)
    : State
    requires forall r :: r in order ==> r in desired
    decreases |order|
  {
    if order == [] then s
    else ReconcileEach(ReconcileRoot(s, order[0], desired[order[0]], order[0] in creates, now),
                       order[1..], desired, creates, now)
  }

  /** sort.Strings makes `order` one particular enumeration; any will do. */
  ghost predicate Enumerates(order: seq<string>, desired: map<string, Config>)
  {
    && (forall r :: r in order <==> r in desired)
    && (forall i, j :: 0 <= i < j < |order| ==> order[i] != order[j])
  }

  ghost predicate Enabled(o: Options, s: State, e: Event)
  {
    match e
    case Reconcile(order, loaded, _, _) => !s.stopped ==> Enumerates(order, DesiredRoots(o, s.store, loaded))
    case SetSeed(name, context) => !context.inventory
    case DropSeed(name) => name in s.store ==> !s.store[name].inventory
    case _ => true
  }

  function Step(o: Options, s: State, e: Event): State
    requires Enabled(o, s, e)
  {
    match e
    case Upsert(st, p) => Upserted(o, s, st, p)
    case Delete(st, p) => WithRemoved(s, PruneClusterProfile(s.m, st, KeyOf(st, p)))
    case NoCRDError(st, now) =>
      WithRemoved(s, MarkRootNoCRD(s.m, st, now + o.noCRDCacheTTL))
        .(cancelled := s.cancelled + if Current(s.m, st) then {st.id} else {})
    case InitialSync(st, listed) => WithRemoved(s, CompleteRootSync(s.m, st, Seen(st, listed)))
    case Reconcile(order, loaded, creates, now) =>
      if s.stopped then s
      else ReconcileEach(MissingStopped(o, s, loaded), order, DesiredRoots(o, s.store, loaded), creates, now)
    case StopAll =>
      s.(m := s.m.(roots := map[]), cancelled := s.cancelled + IDsOf(s.m, s.m.roots.Keys), stopped := true)
    case SetSeed(name, context) => s.(store := s.store[name := context])
    case DropSeed(name) => s.(store := s.store - {name})
  }
}
