/**
 The context store against the runner's maps, critical section by critical section. AddContext
 comes before recordSyncedProfile takes the lock, and RemoveContext after the pruning section
 has released it; sections, adds and removals of all roots interleave in between.
 */
module InventoryStore {
  import opened Wrappers
  import opened InventoryModel
  import opened InventoryRuns

  /** A callback that has added the context for a key and not yet tried to record it. */
  datatype Pending = Pending(st: RootState, key: string)

  /**
   `store` are the names of the inventory contexts in the store; `removing` those pruned from the
   maps by some section whose RemoveContext is still to come, once for each such section.
   */
  datatype State = State(m: Maps, store: set<string>, adding: set<Pending>, removing: multiset<string>)

  datatype Label =
    | Locks(section: Section)
    | Adds(p: Pending)
    | Records(p: Pending)
    | Removes(name: string)

  /** The contexts a section hands over for removal. */
  function Handed(m: Maps, c: Section): set<string>
  {
    match c
    case PruneOne(st, key) => PruneClusterProfile(m, st, key).1
    case CompleteSync(st, seen) => CompleteRootSync(m, st, seen).1
    case Stop(rootID) => StopRoot(m, rootID).1
    case StopSome(rootIDs) => StopRoots(m, rootIDs).1
    case MarkNoCRD(st, expiresAt) => MarkRootNoCRD(m, st, expiresAt).1
    case _ => {}
  }

  predicate Enabled(s: State, l: Label)
  {
    match l
    case Locks(c) => !c.Synced?
    case Adds(p) => p !in s.adding
    case Records(p) => p in s.adding
    case Removes(name) => name in s.removing
  }

  function Step(contextName: string -> string, s: State, l: Label): State
    requires Enabled(s, l)
  {
    match l
    case Locks(c) => s.(m := Perform(s.m, c), removing := s.removing + multiset(Handed(s.m, c)))
    case Adds(p) => s.(store := s.store + {contextName(p.key)}, adding := s.adding + {p})
    case Records(p) =>
      s.(m := RecordSyncedProfile(s.m, p.st, p.key, contextName(p.key)), adding := s.adding - {p})
    case Removes(name) => s.(store := s.store - {name}, removing := s.removing - multiset{name})
  }

  predicate ValidRun(contextName: string -> string, s: State, ls: seq<Label>)
    decreases |ls|
  {
    ls == [] || (Enabled(s, ls[0]) && ValidRun(contextName, Step(contextName, s, ls[0]), ls[1..]))
  }

  function Exec(contextName: string -> string, s: State, ls: seq<Label>): State
    requires ValidRun(contextName, s, ls)
    decreases |ls|
  {
    if ls == [] then s else Exec(contextName, Step(contextName, s, ls[0]), ls[1..])
  }

  const INIT := State.State(Maps(map[], map[], map[], map[]), {}, {}, multiset{})

  function Recorded(m: Maps): set<string>
  {
    set k | k in m.profiles :: m.profiles[k]
  }

  function Added(contextName: string -> string, adding: set<Pending>): set<string>
  {
    set p | p in adding :: contextName(p.key)
  }

  /** Profiles record the names of their keys. */
  predicate Named(contextName: string -> string, m: Maps)
  {
    forall k :: k in m.profiles ==> m.profiles[k] == contextName(k)
  }

  /** Every context in the store is recorded, or being added or removed; and the first two are there. */
  ghost predicate Agrees(contextName: string -> string, s: State)
  {
    && (forall n :: n in s.store ==> n in Recorded(s.m) || n in Added(contextName, s.adding) || n in s.removing)
    && (forall n :: n in Recorded(s.m) || n in Added(contextName, s.adding) ==> n in s.store)
  }

  /**
   The two ways to lose agreement: a superseded root's callback leaves the context it added
   without a record, and a late removal takes a context that was added anew.
   */
  predicate Orphans(contextName: string -> string, s: State, l: Label)
  {
    l.Records? && !Current(s.m, l.p.st) &&
    var n := contextName(l.p.key);
    n !in Recorded(s.m) && n !in Added(contextName, s.adding - {l.p}) && n !in s.removing
  }

  predicate TakesAnew(contextName: string -> string, s: State, l: Label)
  {
    l.Removes? && (l.name in Recorded(s.m) || l.name in Added(contextName, s.adding))
  }

  /** A pruning section hands over exactly the names of the profiles it drops. */
  lemma SectionHandsOver(contextName: string -> string, m: Maps, c: Section)
    requires Named(contextName, m) && !c.Synced?
    ensures Named(contextName, Perform(m, c))
    ensures Recorded(Perform(m, c)) <= Recorded(m) <= Recorded(Perform(m, c)) + Handed(m, c)
  {
    var m' := Perform(m, c);
    assert forall k :: k in m.profiles && k !in m'.profiles ==> m.profiles[k] in Handed(m, c);
    forall n | n in Recorded(m) ensures n in Recorded(m') + Handed(m, c) {
      var k :| k in m.profiles && m.profiles[k] == n;
      assert k in m'.profiles ==> m'.profiles[k] == n;
    }
  }

  lemma RecordingStep(contextName: string -> string, s: State, p: Pending)
    requires Named(contextName, s.m) && Agrees(contextName, s) && p in s.adding
    ensures var s' := Step(contextName, s, Records(p));
      && Named(contextName, s'.m)
      && (Agrees(contextName, s') <==> !Orphans(contextName, s, Records(p)))
  {
    var s' := Step(contextName, s, Records(p));
    var n := contextName(p.key);
    assert n in s.store;
    assert Added(contextName, s.adding) == Added(contextName, s.adding - {p}) + {n};
    if Current(s.m, p.st) {
      assert p.key in s'.m.profiles;
      forall r | r in Recorded(s'.m) ensures r in Recorded(s.m) + {n} {
        var k :| k in s'.m.profiles && s'.m.profiles[k] == r;
        assert k != p.key ==> k in s.m.profiles;
      }
      forall r | r in Recorded(s.m) ensures r in Recorded(s'.m) {
        var k :| k in s.m.profiles && s.m.profiles[k] == r;
        assert k in s'.m.profiles && s'.m.profiles[k] == r;
      }
    }
  }

  lemma LockedStep(contextName: string -> string, s: State, c: Section)
    requires Named(contextName, s.m) && Agrees(contextName, s) && !c.Synced?
    ensures var s' := Step(contextName, s, Locks(c)); Named(contextName, s'.m) && Agrees(contextName, s')
  {
    SectionHandsOver(contextName, s.m, c);
  }

  /**
   Store agreement at every critical section: each step keeps it, but for a recording that comes
   after its root was superseded and a removal that comes after its context was added anew, and
   those break it.
   */
  lemma StoreAgreementStep(contextName: string -> string, s: State, l: Label)
    requires Named(contextName, s.m) && Agrees(contextName, s) && Enabled(s, l)
    ensures var s' := Step(contextName, s, l);
      && Named(contextName, s'.m)
      && (Agrees(contextName, s') <==> !Orphans(contextName, s, l) && !TakesAnew(contextName, s, l))
  {
    match l
    case Locks(c) => LockedStep(contextName, s, c);
    case Adds(p) =>
      assert Added(contextName, s.adding + {p}) == Added(contextName, s.adding) + {contextName(p.key)};
    case Records(p) => RecordingStep(contextName, s, p);
    case Removes(name) =>
      var s' := Step(contextName, s, l);
      assert forall n :: n != name && n in s.removing ==> n in s'.removing;
  }

  ghost predicate Undisturbed(contextName: string -> string, s: State, ls: seq<Label>)
    requires ValidRun(contextName, s, ls)
    decreases |ls|
  {
    ls == [] ||
    (!Orphans(contextName, s, ls[0]) && !TakesAnew(contextName, s, ls[0])
     && Undisturbed(contextName, Step(contextName, s, ls[0]), ls[1..]))
  }

  lemma {:induction false} StoreAgreementRun(contextName: string -> string, s: State, ls: seq<Label>)
    requires Named(contextName, s.m) && Agrees(contextName, s)
    requires ValidRun(contextName, s, ls) && Undisturbed(contextName, s, ls)
    ensures Agrees(contextName, Exec(contextName, s, ls))
    decreases |ls|
  {
    if ls != [] {
      StoreAgreementStep(contextName, s, ls[0]);
      StoreAgreementRun(contextName, Step(contextName, s, ls[0]), ls[1..]);
    }
  }

  /**
   Over every interleaving without those two steps the store holds the recorded contexts, those
   added and not yet recorded, and none but these and those on their way out; with no add and
   no removal pending, exactly the recorded ones.
   */
  lemma StoreAgreement(contextName: string -> string, ls: seq<Label>)
    requires ValidRun(contextName, INIT, ls) && Undisturbed(contextName, INIT, ls)
    ensures var s := Exec(contextName, INIT, ls);
      && Agrees(contextName, s)
      && (s.adding == {} && s.removing == multiset{} ==> s.store == Recorded(s.m))
  {
    StoreAgreementRun(contextName, INIT, ls);
  }

  lemma OneStep(contextName: string -> string, s: State, l: Label, ls: seq<Label>)
    requires Enabled(s, l) && ValidRun(contextName, Step(contextName, s, l), ls)
    ensures ValidRun(contextName, s, [l] + ls)
    ensures Exec(contextName, s, [l] + ls) == Exec(contextName, Step(contextName, s, l), ls)
  {
    assert ([l] + ls)[1..] == ls;
  }

  /**
   The orphan: between AddContext and recordSyncedProfile the root is replaced. Nothing is pending
   afterwards and no profile records the context, so no section will hand it over for removal
   unless a later callback records it.
   */
  lemma SupersededRootLeavesOrphan(contextName: string -> string, st: RootState, next: RootState, key: string)
    requires st.rootID == next.rootID && st.serverURL != next.serverURL
    ensures var p := Pending(st, key);
      var ls := [Locks(Activate(st)), Locks(Record(st, key)), Adds(p), Locks(Activate(next)), Records(p)];
      && ValidRun(contextName, INIT, ls)
      && var s := Exec(contextName, INIT, ls);
         s.adding == {} && s.removing == multiset{} && s.m.profiles == map[] && s.store == {contextName(key)}
  {
    var p := Pending(st, key);
    var s1 := Step(contextName, INIT, Locks(Activate(st)));
    var s2 := Step(contextName, s1, Locks(Record(st, key)));
    var s3 := Step(contextName, s2, Adds(p));
    var s4 := Step(contextName, s3, Locks(Activate(next)));
    OneStep(contextName, s4, Records(p), []);
    OneStep(contextName, s3, Locks(Activate(next)), [Records(p)] + []);
    var tail := [Locks(Activate(next))] + ([Records(p)] + []);
    OneStep(contextName, s2, Adds(p), tail);
    OneStep(contextName, s1, Locks(Record(st, key)), [Adds(p)] + tail);
    OneStep(contextName, INIT, Locks(Activate(st)), [Locks(Record(st, key))] + ([Adds(p)] + tail));
    assert [Locks(Activate(st)), Locks(Record(st, key)), Adds(p), Locks(Activate(next)), Records(p)]
        == [Locks(Activate(st))] + ([Locks(Record(st, key))] + ([Adds(p)] + tail));
  }

  lemma FourSteps(contextName: string -> string, s: State, a: Label, s1: State, b: Label, s2: State,
                  c: Label, s3: State, d: Label, f: State)
    requires Enabled(s, a) && Step(contextName, s, a) == s1
    requires Enabled(s1, b) && Step(contextName, s1, b) == s2
    requires Enabled(s2, c) && Step(contextName, s2, c) == s3
    requires Enabled(s3, d) && Step(contextName, s3, d) == f
    ensures ValidRun(contextName, s, [a, b, c, d]) && Exec(contextName, s, [a, b, c, d]) == f
  {
    OneStep(contextName, s3, d, []);
    assert [d] + [] == [d];
    OneStep(contextName, s2, c, [d]);
    assert [c] + [d] == [c, d];
    OneStep(contextName, s1, b, [c, d]);
    assert [b] + [c, d] == [b, c, d];
    OneStep(contextName, s, a, [b, c, d]);
    assert [a] + [b, c, d] == [a, b, c, d];
  }

  /** A recorded name taken out of the store behind an upsert of the same key. */
  lemma RemovedBehindUpsert(contextName: string -> string, s: State, st: RootState, key: string)
    requires Current(s.m, st) && s.adding == {} && contextName(key) in s.removing
    ensures var p, n := Pending(st, key), contextName(key);
      var ls := [Locks(Record(st, key)), Adds(p), Records(p), Removes(n)];
      && ValidRun(contextName, s, ls)
      && var f := Exec(contextName, s, ls); f.adding == {} && n in Recorded(f.m) && n !in f.store
  {
    var p, n := Pending(st, key), contextName(key);
    var s1 := Step(contextName, s, Locks(Record(st, key)));
    var s2 := Step(contextName, s1, Adds(p));
    var s3 := Step(contextName, s2, Records(p));
    var f := Step(contextName, s3, Removes(n));
    assert key in f.m.profiles && f.m.profiles[key] == n;
    FourSteps(contextName, s, Locks(Record(st, key)), s1, Adds(p), s2, Records(p), s3, Removes(n), f);
  }

  /**
   The late removal: an initial sync prunes a profile; before it calls RemoveContext the profile
   appears again and is recorded. The removal then takes the context of a recorded profile.
   */
  lemma LateRemovalTakesContext(contextName: string -> string, s: State, st: RootState, key: string)
    requires Current(s.m, st) && key in KeysOf(s.m, st.rootID) && key in s.m.profiles
    requires s.m.profiles[key] == contextName(key) && s.adding == {}
    ensures var p, n := Pending(st, key), contextName(key);
      var ls := [Locks(CompleteSync(st, KeysOf(s.m, st.rootID) - {key}))]
              + [Locks(Record(st, key)), Adds(p), Records(p), Removes(n)];
      && ValidRun(contextName, s, ls)
      && var f := Exec(contextName, s, ls); f.adding == {} && n in Recorded(f.m) && n !in f.store
  {
    var p, n := Pending(st, key), contextName(key);
    var c := CompleteSync(st, KeysOf(s.m, st.rootID) - {key});
    assert n in Handed(s.m, c);
    RemovedBehindUpsert(contextName, Step(contextName, s, Locks(c)), st, key);
    OneStep(contextName, s, Locks(c), [Locks(Record(st, key)), Adds(p), Records(p), Removes(n)]);
  }
}
