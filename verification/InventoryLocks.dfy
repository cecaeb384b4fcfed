/**
 Root states of the Cluster Inventory runner, critical section by critical section. A section
 takes a root out of the map under the lock, but its informer is cancelled only after unlocking;
 reconciles and callbacks of all roots interleave in between.
 */
module InventoryLocks {
  import opened Wrappers
  import opened InventoryModel
  import opened InventoryRuns

  /**
   `built` are root states that newRootInformer has made and nobody has activated, `doomed` those
   taken out of the map whose cancel function is about to be called.
   */
  datatype State = State(m: Maps, built: map<nat, RootState>, doomed: set<nat>, cancelled: set<nat>, nextID: nat)

  datatype Label =
    | Builds(rootID: string, serverURL: string, fingerprint: string)
    | Abandons(id: nat)
    | Locks(section: Section)
    | StopsAll
    | Cancels(id: nat)

  /** The root states whose cancel functions a section collects. */
  function Collected(m: Maps, c: Section): set<nat>
  {
    match c
    case Stop(rootID) => IDsOf(m, {rootID})
    case StopSome(rootIDs) => IDsOf(m, rootIDs)
    case MarkNoCRD(st, _) => if Current(m, st) then {st.id} else {}
    case Activate(st) =>
      if Matches(m, st.rootID, st.serverURL, st.fingerprint) then {st.id} else IDsOf(m, {st.rootID})
    case _ => {}
  }

  predicate Enabled(s: State, l: Label)
  {
    match l
    case Abandons(id) => id in s.built
    case Locks(Activate(st)) => st.id in s.built && s.built[st.id] == st
    case Cancels(id) => id in s.doomed
    case _ => true
  }

  function Step(s: State, l: Label): State
    requires Enabled(s, l)
  {
    match l
    case Builds(rootID, serverURL, fingerprint) =>
      s.(built := s.built[s.nextID := RootState(s.nextID, rootID, serverURL, fingerprint)], nextID := s.nextID + 1)
    case Abandons(id) => s.(built := s.built - {id}, cancelled := s.cancelled + {id})
    case Locks(c) =>
      s.(m := Perform(s.m, c), doomed := s.doomed + Collected(s.m, c),
         built := if c.Activate? then s.built - {c.st.id} else s.built)
    case StopsAll => s.(m := s.m.(roots := map[]), doomed := s.doomed + IDsOf(s.m, s.m.roots.Keys))
    case Cancels(id) => s.(doomed := s.doomed - {id}, cancelled := s.cancelled + {id})
  }

  predicate ValidRun(s: State, ls: seq<Label>)
    decreases |ls|
  {
    ls == [] || (Enabled(s, ls[0]) && ValidRun(Step(s, ls[0]), ls[1..]))
  }

  function Exec(s: State, ls: seq<Label>): State
    requires ValidRun(s, ls)
    decreases |ls|
  {
    if ls == [] then s else Exec(Step(s, ls[0]), ls[1..])
  }

  const INIT := State.State(Maps(map[], map[], map[], map[]), map[], {}, {}, 0)

  ghost predicate Keyed(s: State)
  {
    && (forall r :: r in s.m.roots ==> s.m.roots[r].rootID == r)
    && (forall id :: id in s.built ==> s.built[id].id == id)
    && (forall r, r' :: r in s.m.roots && r' in s.m.roots && s.m.roots[r].id == s.m.roots[r'].id ==> r == r')
  }

  /** Every root state is in exactly one place: built, active, doomed or cancelled. */
  ghost predicate OnePlace(s: State, id: nat)
  {
    && (id in s.built || Live(s.m, id) || id in s.doomed || id in s.cancelled <==> id < s.nextID)
    && !(id in s.built && Live(s.m, id)) && !(id in s.built && id in s.doomed)
    && !(id in s.built && id in s.cancelled) && !(Live(s.m, id) && id in s.doomed)
    && !(Live(s.m, id) && id in s.cancelled) && !(id in s.doomed && id in s.cancelled)
  }

  ghost predicate Inv(s: State)
  {
    Keyed(s) && forall id: nat :: OnePlace(s, id)
  }

  /** Taking roots out of the map moves exactly their states from active to doomed. */
  lemma RootsTaken(s: State, s': State, rootIDs: set<string>)
    requires Inv(s)
    requires s' == s.(m := s'.m, doomed := s.doomed + IDsOf(s.m, rootIDs)) && s'.m.roots == s.m.roots - rootIDs
    ensures Inv(s')
  {
    forall id: nat ensures OnePlace(s', id) {
      assert OnePlace(s, id);
      assert Live(s'.m, id) <==> Live(s.m, id) && id !in IDsOf(s.m, rootIDs) by {
        if r :| r in s.m.roots && s.m.roots[r].id == id && r !in rootIDs {
          assert r in s'.m.roots;
        }
      }
    }
  }

  lemma ActivationStep(s: State, st: RootState)
    requires Inv(s) && st.id in s.built && s.built[st.id] == st
    ensures Inv(Step(s, Locks(Activate(st))))
  {
    var s' := Step(s, Locks(Activate(st)));
    assert OnePlace(s, st.id);
    forall id: nat ensures OnePlace(s', id) {
      assert OnePlace(s, id);
      if !Matches(s.m, st.rootID, st.serverURL, st.fingerprint) {
        if id == st.id {
          assert s'.m.roots[st.rootID].id == id;
        } else if r :| r in s.m.roots && s.m.roots[r].id == id && r != st.rootID {
          assert r in s'.m.roots && s'.m.roots[r].id == id;
        }
      }
    }
    forall r | r in s.m.roots ensures s.m.roots[r].id != st.id {
      assert s.m.roots[r].id == st.id ==> Live(s.m, st.id);
    }
  }

  lemma InvStep(s: State, l: Label)
    requires Inv(s) && Enabled(s, l)
    ensures Inv(Step(s, l))
  {
    var s' := Step(s, l);
    if l.Locks? && l.section.Activate? {
      ActivationStep(s, l.section.st);
    } else if l.Locks? {
      var c := l.section;
      RootsTaken(s, s', if c.Stop? then {c.rootID} else if c.StopSome? then c.rootIDs
                        else if c.MarkNoCRD? && Current(s.m, c.st) then {c.st.rootID} else {});
    } else if l.StopsAll? {
      RootsTaken(s, s', s.m.roots.Keys);
    } else {
      forall id: nat ensures OnePlace(s', id) {
        assert OnePlace(s, id) && OnePlace(s, s.nextID);
      }
    }
  }

  lemma {:induction false} InvRun(s: State, ls: seq<Label>)
    requires Inv(s) && ValidRun(s, ls)
    ensures Inv(Exec(s, ls))
    decreases |ls|
  {
    if ls != [] {
      InvStep(s, ls[0]);
      InvRun(Step(s, ls[0]), ls[1..]);
    }
  }

  /** Informers that run: activated, and not cancelled. */
  ghost function Running(s: State): set<nat>
  {
    set id: nat | id < s.nextID && id !in s.built && id !in s.cancelled
  }

  /**
   No leaked informer, at every critical section of every interleaving: a root state that was
   activated is the current entry of its root, or about to be cancelled, or cancelled, and only
   one of these; so the informers running number as many as the entries of roots and those about
   to be cancelled.
   */
  lemma NoLeakedInformerBetweenLocks(ls: seq<Label>)
    requires ValidRun(INIT, ls)
    ensures var s := Exec(INIT, ls);
      && (forall id: nat :: OnePlace(s, id))
      && |Running(s)| == |s.m.roots| + |s.doomed|
  {
    assert Inv(INIT);
    InvRun(INIT, ls);
    var s := Exec(INIT, ls);
    var live := Running(s) - s.doomed;
    forall id: nat ensures id in live <==> Live(s.m, id) {
      assert OnePlace(s, id);
    }
    forall id | id in s.doomed ensures id in Running(s) {
      assert OnePlace(s, id);
    }
    assert Running(s) == live + s.doomed;
    CountRoots(s.m.roots, live);
  }

  /** Cancelling never stands in the way of a successor: what is doomed or cancelled is not current. */
  lemma DoomedIsSuperseded(ls: seq<Label>, st: RootState)
    requires ValidRun(INIT, ls)
    requires var s := Exec(INIT, ls); st.id in s.doomed || st.id in s.cancelled
    ensures !Current(Exec(INIT, ls).m, st)
  {
    assert Inv(INIT);
    InvRun(INIT, ls);
    var s := Exec(INIT, ls);
    assert OnePlace(s, st.id);
    assert Current(s.m, st) ==> Live(s.m, st.id);
  }
}
