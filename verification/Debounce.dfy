/**
 backend/cmd/server.go, setupKubeConfigStoreWatcher: store notifications restart a timer, and
 only the callback of the newest generation goes on to sync. Stop may come too late, when the
 timer has already expired and its callback is waiting for the mutex; and nothing keeps the
 syncs of two generations apart once both are past the gate.
 */
module Debounce {
  import opened Wrappers

  /**
   `version` counts store changes. `notifiedAt` maps a generation to the version its
   notification followed. A callback of generation g is in `expired` until it has the mutex, then,
   past the gate, in `passed` until it reads the context keys, then in `syncing` until
   SyncWatchers returns. `readAt` keeps the version it read, `failed` the generations whose
   GetContextKeys returned an error. `gate` logs the generations let through, `synced` those
   whose SyncWatchers has returned, in that order.
   */
  datatype State = State(
    generation: nat, timer: Option<nat>, expired: set<nat>, passed: set<nat>, syncing: set<nat>,
    readAt: map<nat, nat>, failed: set<nat>, gate: seq<nat>, synced: seq<nat>,
    version: nat, notifiedAt: map<nat, nat>)

  const INIT := State(0, None, {}, {}, {}, map[], {}, [], [], 0, map[])

  datatype Label =
    | Changes
    | Notifies
    | Expires
    | Gates(g: nat)
    | Reads(g: nat)
    | ReadFails(g: nat)
    | Syncs(g: nat)

  predicate Enabled(s: State, l: Label)
  {
    match l
    case Changes => true
    case Notifies => true
    case Expires => s.timer.Some?
    case Gates(g) => g in s.expired
    case Reads(g) => g in s.passed
    case ReadFails(g) => g in s.passed
    case Syncs(g) => g in s.syncing
  }

  function Step(s: State, l: Label): State
    requires Enabled(s, l)
  {
    match l
    case Changes => s.(version := s.version + 1)
    case Notifies =>
      s.(generation := s.generation + 1, timer := Some(s.generation + 1),
         notifiedAt := s.notifiedAt[s.generation + 1 := s.version])
    case Expires => s.(timer := None, expired := s.expired + {s.timer.value})
    case Gates(g) =>
      var s' := s.(expired := s.expired - {g});
      if g == s.generation then s'.(passed := s'.passed + {g}, gate := s'.gate + [g]) else s'
    case Reads(g) =>
      s.(passed := s.passed - {g}, syncing := s.syncing + {g}, readAt := s.readAt[g := s.version])
    case ReadFails(g) => s.(passed := s.passed - {g}, failed := s.failed + {g})
    case Syncs(g) => s.(syncing := s.syncing - {g}, synced := s.synced + [g])
  }

  predicate ValidRun(s: State, ls: seq<Label>)
    decreases |ls|
  {
    ls == [] || (Enabled(s, ls[0]) && ValidRun(Step(s, ls[0]), ls[1..]))
  }

  function Exec(s: State, ls: seq<Label>): State
    requires ValidRun(s, ls)
    decreases |ls|
  {
    if ls == [] then s else Exec(Step(s, ls[0]), ls[1..])
  }

  // ------------------------------------------------------------ the invariant

  /** The newest generation is on its way or past the gate. */
  ghost predicate NotLost(s: State)
  {
    s.generation > 0 ==>
      s.timer == Some(s.generation) || s.generation in s.expired || s.generation in s.gate
  }

  ghost predicate Bounded(s: State)
  {
    && (s.timer.Some? ==> s.timer.value == s.generation && s.generation !in s.expired && s.generation !in s.gate)
    && (forall g :: g in s.notifiedAt <==> 1 <= g <= s.generation)
    && (s.timer.Some? ==> s.generation > 0)
    && (forall g :: g in s.expired ==> 1 <= g <= s.generation && g !in s.gate)
    && (forall g :: g in s.gate ==> 1 <= g <= s.generation)
    && (forall i, j :: 0 <= i < j < |s.gate| ==> s.gate[i] != s.gate[j])
  }

  /** A generation past the gate is in exactly one place. */
  ghost predicate OnePlace(s: State)
  {
    && (forall g :: g in s.gate <==> g in s.passed || g in s.failed || g in s.readAt)
    && (forall g :: g in s.readAt <==> g in s.syncing || g in s.synced)
    && (forall g :: g in s.passed ==> g !in s.failed && g !in s.readAt)
    && (forall g :: g in s.failed ==> g !in s.readAt)
    && (forall g :: g in s.syncing ==> g !in s.synced)
    && (forall i, j :: 0 <= i < j < |s.synced| ==> s.synced[i] != s.synced[j])
  }

  ghost predicate ReadsAreLate(s: State)
  {
    && (forall g :: g in s.notifiedAt ==> s.notifiedAt[g] <= s.version)
    && (forall g, h :: g in s.readAt && 1 <= h <= g && h in s.notifiedAt ==> s.notifiedAt[h] <= s.readAt[g])
  }

  ghost predicate Inv(s: State)
  {
    NotLost(s) && Bounded(s) && OnePlace(s) && ReadsAreLate(s)
  }

  lemma PlacesStep(s: State, l: Label)
    requires Bounded(s) && OnePlace(s) && Enabled(s, l)
    ensures OnePlace(Step(s, l))
  {
  }

  lemma BoundedStep(s: State, l: Label)
    requires Bounded(s) && Enabled(s, l)
    ensures Bounded(Step(s, l))
  {
  }

  lemma InvStep(s: State, l: Label)
    requires Inv(s) && Enabled(s, l)
    ensures Inv(Step(s, l))
  {
    BoundedStep(s, l);
    PlacesStep(s, l);
  }

  lemma {:induction false} InvRun(s: State, ls: seq<Label>)
    requires Inv(s) && ValidRun(s, ls)
    ensures Inv(Exec(s, ls))
    decreases |ls|
  {
    if ls != [] {
      InvStep(s, ls[0]);
      InvRun(Step(s, ls[0]), ls[1..]);
    }
  }

  // ------------------------------------------------------------ nothing is lost

  /**
   In every interleaving of changes, notifications, callbacks and syncs: the newest generation has
   a pending timer or callback or has passed the gate; no generation passes twice; and a
   callback reads the context keys no earlier than every notification counted up to its generation.
   */
  lemma NothingLost(ls: seq<Label>)
    requires ValidRun(INIT, ls)
    ensures var s := Exec(INIT, ls);
      && (s.generation > 0 ==>
            s.timer == Some(s.generation) || s.generation in s.expired || s.generation in s.gate)
      && (forall i, j :: 0 <= i < j < |s.gate| ==> s.gate[i] != s.gate[j])
      && (forall g, h :: g in s.readAt && 1 <= h <= g ==> h in s.notifiedAt && s.notifiedAt[h] <= s.readAt[g])
  {
    InvRun(INIT, ls);
  }

  /** No timer is armed and no callback is under way. */
  predicate Settled(s: State)
  {
    s.generation > 0 && s.timer.None? && s.expired == {} && s.passed == {} && s.syncing == {}
  }

  /**
   When everything has settled, a sync for the newest notification has been run with keys at
   least as new as every notification -- unless reading the keys failed for it, in which case
   nothing retries.
   */
  lemma QuiescentMeansSynced(ls: seq<Label>)
    requires ValidRun(INIT, ls) && Settled(Exec(INIT, ls))
    ensures var s := Exec(INIT, ls);
      && (s.generation in s.synced <==> s.generation !in s.failed)
      && (s.generation in s.synced ==>
            s.generation in s.readAt
            && forall h :: h in s.notifiedAt ==> s.notifiedAt[h] <= s.readAt[s.generation])
  {
    InvRun(INIT, ls);
  }

  // ------------------------------------------------------------ which syncs are still to come

  lemma {:induction false} GenerationGrows(s: State, ls: seq<Label>)
    requires ValidRun(s, ls)
    ensures s.generation <= Exec(s, ls).generation
    decreases |ls|
  {
    if ls != [] {
      GenerationGrows(Step(s, ls[0]), ls[1..]);
    }
  }

  /** From s on only callbacks already past the gate got anywhere. */
  ghost predicate NothingNew(s: State, f: State)
  {
    && s.synced <= f.synced && s.failed <= f.failed
    && (forall i :: |s.synced| <= i < |f.synced| ==> f.synced[i] in s.syncing + s.passed)
    && (forall g :: g in s.syncing ==> g in f.syncing || g in f.synced)
    && (forall g :: g in s.passed ==> g in f.passed || g in f.failed || g in f.syncing || g in f.synced)
  }

  lemma NothingNewStep(s: State, l: Label, f: State)
    requires Inv(s) && Enabled(s, l) && NothingNew(Step(s, l), f)
    requires s.generation in s.gate && Step(s, l).generation == s.generation
    ensures NothingNew(s, f)
  {
    var s1 := Step(s, l);
    var n := |s.synced|;
    if l.Syncs? {
      assert s1.synced[n] == l.g && f.synced[n] == l.g;
    }
    assert forall i :: n <= i < |s1.synced| ==> f.synced[i] == s1.synced[i];
  }

  /** With the newest generation past the gate, the only syncs still to come are those under way. */
  lemma {:induction false} RemainingSyncs(s: State, ls: seq<Label>)
    requires Inv(s) && ValidRun(s, ls) && s.generation in s.gate && Exec(s, ls).generation == s.generation
    ensures NothingNew(s, Exec(s, ls))
    decreases |ls|
  {
    if ls != [] {
      var s1 := Step(s, ls[0]);
      InvStep(s, ls[0]);
      GenerationGrows(s1, ls[1..]);
      assert s1.generation >= s.generation && s.generation in s1.gate;
      RemainingSyncs(s1, ls[1..]);
      NothingNewStep(s, ls[0], Exec(s, ls));
    }
  }

  // ------------------------------------------------------------ whether the last word is up to date

  /** What generation g read is no older than the newest notification. */
  predicate UpToDate(s: State, g: nat)
  {
    g in s.readAt && s.generation in s.notifiedAt && s.notifiedAt[s.generation] <= s.readAt[g]
  }

  /** Reads are never redone, and later reads are of later versions. */
  ghost predicate ReadsGrow(s: State, f: State)
  {
    && s.version <= f.version
    && (forall g :: g in s.readAt ==> g in f.readAt && f.readAt[g] == s.readAt[g])
    && (forall g :: g in f.readAt && g !in s.readAt ==> s.version <= f.readAt[g])
    && (forall g :: g in s.notifiedAt ==> g in f.notifiedAt && f.notifiedAt[g] == s.notifiedAt[g])
  }

  lemma {:induction false} ReadsGrowRun(s: State, ls: seq<Label>)
    requires Inv(s) && ValidRun(s, ls)
    ensures ReadsGrow(s, Exec(s, ls))
    decreases |ls|
  {
    if ls != [] {
      InvStep(s, ls[0]);
      assert ReadsGrow(s, Step(s, ls[0]));
      ReadsGrowRun(Step(s, ls[0]), ls[1..]);
    }
  }

  /** The sync that returned last covers the newest notification. */
  predicate LastWordUpToDate(f: State)
  {
    f.synced != [] && UpToDate(f, f.synced[|f.synced| - 1])
  }

  /** However the callbacks under way go on, the last word will cover the newest notification. */
  ghost predicate SureToEndUpToDate(s: State)
  {
    forall ls :: ValidRun(s, ls) && Settled(Exec(s, ls)) && Exec(s, ls).generation == s.generation ==>
      LastWordUpToDate(Exec(s, ls))
  }

  lemma EndsUpToDate(s: State, ls: seq<Label>)
    requires Inv(s) && s.generation in s.syncing && forall h :: h in s.syncing ==> UpToDate(s, h)
    requires ValidRun(s, ls) && Settled(Exec(s, ls)) && Exec(s, ls).generation == s.generation
    ensures LastWordUpToDate(Exec(s, ls))
  {
    var f := Exec(s, ls);
    InvRun(s, ls);
    RemainingSyncs(s, ls);
    ReadsGrowRun(s, ls);
    assert s.generation in f.synced && s.generation !in s.synced;
    assert |f.synced| > |s.synced|;
    var h := f.synced[|f.synced| - 1];
    assert h in s.syncing + s.passed && h in f.synced;
  }

  lemma Compose(s: State, a: seq<Label>, b: seq<Label>)
    requires ValidRun(s, a) && ValidRun(Exec(s, a), b)
    ensures ValidRun(s, a + b) && Exec(s, a + b) == Exec(Exec(s, a), b)
    decreases |a|
  {
    if a == [] {
      assert a + b == b;
    } else {
      assert (a + b)[1..] == a[1..] + b;
      Compose(Step(s, a[0]), a[1..], b);
    }
  }

  /** Callbacks of older generations that still wait for the mutex come to nothing. */
  lemma {:induction false} DropExpired(s: State) returns (ls: seq<Label>)
    requires s.generation !in s.expired
    ensures ValidRun(s, ls) && Exec(s, ls) == s.(expired := {})
    decreases |s.expired|
  {
    if s.expired == {} {
      return [];
    }
    var g :| g in s.expired;
    var rest := DropExpired(Step(s, Gates(g)));
    ls := [Gates(g)] + rest;
    OneStep(s, Gates(g), Step(s, Gates(g)), rest, s.(expired := {}));
  }

  /** Every callback past the gate reads the keys. */
  lemma {:induction false} ReadPassed(s: State) returns (ls: seq<Label>)
    ensures ValidRun(s, ls)
    ensures Exec(s, ls) == s.(passed := {}, syncing := s.syncing + s.passed, readAt := Exec(s, ls).readAt)
    decreases |s.passed|
  {
    if s.passed == {} {
      assert s.syncing + s.passed == s.syncing;
      return [];
    }
    var g :| g in s.passed;
    var s1 := Step(s, Reads(g));
    var rest := ReadPassed(s1);
    assert s1.syncing + s1.passed == s.syncing + s.passed;
    ls := [Reads(g)] + rest;
    OneStep(s, Reads(g), s1, rest, Exec(s1, rest));
  }

  /** Every sync returns, h's last of all. */
  lemma {:induction false} FinishWith(s: State, h: nat) returns (ls: seq<Label>, synced: seq<nat>)
    requires h in s.syncing
    ensures synced != [] && synced[|synced| - 1] == h
    ensures ValidRun(s, ls) && Exec(s, ls) == s.(syncing := {}, synced := synced)
    decreases |s.syncing|
  {
    if s.syncing == {h} {
      ls, synced := [Syncs(h)] + [], s.synced + [h];
      OneStep(s, Syncs(h), Step(s, Syncs(h)), [], s.(syncing := {}, synced := synced));
    } else {
      var g :| g in s.syncing && g != h;
      var rest;
      rest, synced := FinishWith(Step(s, Syncs(g)), h);
      ls := [Syncs(g)] + rest;
      OneStep(s, Syncs(g), Step(s, Syncs(g)), rest, s.(syncing := {}, synced := synced));
    }
  }

  /** Any sync under way can have the last word, even if no read ever fails. */
  lemma CanEndWith(s: State, h: nat) returns (ls: seq<Label>)
    requires Inv(s) && s.generation in s.syncing && h in s.syncing
    ensures ValidRun(s, ls) && Settled(Exec(s, ls)) && Exec(s, ls).generation == s.generation
    ensures Exec(s, ls).failed == s.failed
    ensures UpToDate(s, h) <==> LastWordUpToDate(Exec(s, ls))
  {
    var a := DropExpired(s);
    var s1 := s.(expired := {});
    var b := ReadPassed(s1);
    var s2 := Exec(s1, b);
    var c, synced := FinishWith(s2, h);
    Compose(s1, b, c);
    Compose(s, a, b + c);
    ls := a + (b + c);
    assert Exec(s, ls) == s2.(syncing := {}, synced := synced);
    ReadsGrowRun(s, ls);
  }

  /**
   While the sync of the newest generation is under way: the last word is sure to cover the
   newest notification exactly when every sync under way read keys at least that new. What
   callbacks read from then on is new enough in any case.
   */
  lemma LastWordIsUpToDate(ls: seq<Label>)
    requires ValidRun(INIT, ls)
    requires Exec(INIT, ls).generation in Exec(INIT, ls).syncing
    ensures var s := Exec(INIT, ls);
      SureToEndUpToDate(s) <==> forall h :: h in s.syncing ==> UpToDate(s, h)
  {
    InvRun(INIT, ls);
    var s := Exec(INIT, ls);
    if forall h :: h in s.syncing ==> UpToDate(s, h) {
      forall more | ValidRun(s, more) && Settled(Exec(s, more)) && Exec(s, more).generation == s.generation
        ensures LastWordUpToDate(Exec(s, more))
      {
        EndsUpToDate(s, more);
      }
    } else {
      var h :| h in s.syncing && !UpToDate(s, h);
      var more := CanEndWith(s, h);
    }
  }

  lemma OneStep(s: State, l: Label, s': State, ls: seq<Label>, f: State)
    requires Enabled(s, l) && Step(s, l) == s' && ValidRun(s', ls) && Exec(s', ls) == f
    ensures ValidRun(s, [l] + ls) && Exec(s, [l] + ls) == f
  {
    assert ([l] + ls)[1..] == ls;
  }

  /** One round: a change is notified, and its callback reads the keys. */
  lemma Round(s: State)
    requires s.timer.None? && s.expired == {} && s.passed == {} && s.generation + 1 !in s.syncing
    ensures var g := s.generation + 1; var ls := [Changes, Notifies, Expires, Gates(g), Reads(g)];
      && ValidRun(s, ls)
      && Exec(s, ls) == s.(generation := g, version := s.version + 1, notifiedAt := s.notifiedAt[g := s.version + 1],
                           gate := s.gate + [g], readAt := s.readAt[g := s.version + 1], syncing := s.syncing + {g})
  {
    var g := s.generation + 1;
    var s1 := Step(s, Changes);
    var s2 := Step(s1, Notifies);
    var s3 := Step(s2, Expires);
    var s4 := Step(s3, Gates(g));
    var s5 := Step(s4, Reads(g));
    OneStep(s4, Reads(g), s5, [], s5);
    OneStep(s3, Gates(g), s4, [Reads(g)] + [], s5);
    OneStep(s2, Expires, s3, [Gates(g)] + ([Reads(g)] + []), s5);
    OneStep(s1, Notifies, s2, [Expires] + ([Gates(g)] + ([Reads(g)] + [])), s5);
    OneStep(s, Changes, s1, [Notifies] + ([Expires] + ([Gates(g)] + ([Reads(g)] + []))), s5);
    assert [Changes, Notifies, Expires, Gates(g), Reads(g)]
        == [Changes] + ([Notifies] + ([Expires] + ([Gates(g)] + ([Reads(g)] + []))));
  }

  lemma TwoReturns(s: State, g: nat, h: nat)
    requires s.syncing == {g, h} && g != h
    ensures ValidRun(s, [Syncs(g), Syncs(h)])
    ensures Exec(s, [Syncs(g), Syncs(h)]) == s.(syncing := {}, synced := s.synced + [g] + [h])
  {
    var s1 := Step(s, Syncs(g));
    OneStep(s1, Syncs(h), Step(s1, Syncs(h)), [], Step(s1, Syncs(h)));
    OneStep(s, Syncs(g), s1, [Syncs(h)] + [], Step(s1, Syncs(h)));
    assert [Syncs(g), Syncs(h)] == [Syncs(g)] + ([Syncs(h)] + []);
  }

  /** It happens: two rounds, and the older sync returns after the newer one. */
  lemma StaleSyncCanFinishLast()
    ensures var first := [Changes, Notifies, Expires, Gates(1), Reads(1)];
      var second := [Changes, Notifies, Expires, Gates(2), Reads(2)];
      var ls := first + (second + [Syncs(2), Syncs(1)]);
      && ValidRun(INIT, ls)
      && var s := Exec(INIT, ls); Settled(s) && s.synced == [2, 1] && !LastWordUpToDate(s)
  {
    var first := [Changes, Notifies, Expires, Gates(1), Reads(1)];
    var second := [Changes, Notifies, Expires, Gates(2), Reads(2)];
    Round(INIT);
    var s1 := Exec(INIT, first);
    Round(s1);
    var s2 := Exec(s1, second);
    TwoReturns(s2, 2, 1);
    Compose(s1, second, [Syncs(2), Syncs(1)]);
    Compose(INIT, first, second + [Syncs(2), Syncs(1)]);
    assert Exec(INIT, first + (second + [Syncs(2), Syncs(1)])) == s2.(syncing := {}, synced := [2, 1]);
  }

  // ------------------------------------------------------------ in place

  /** The variables the listener closure captures; `run` is the state they are part of. */
  class Watcher {
    var generation: nat
    /** The armed timer, by the generation it was created for. */
    var syncTimer: Option<nat>
    ghost var run: State

    ghost predicate Valid()
      reads this
    {
      run.generation == generation && run.timer == syncTimer && Inv(run)
    }

    constructor ()
      ensures Valid() && run == INIT
    {
      generation, syncTimer, run := 0, None, INIT;
    }

    method OnContextChange()
      requires Valid()
      modifies this
      ensures Valid() && run == Step(old(run), Notifies)
    {
      InvStep(run, Notifies);
      run := Step(run, Notifies);
      generation := generation + 1;
      var currentGen := generation;
      if syncTimer.Some? {
        syncTimer := None;
      }
      syncTimer := Some(currentGen);
    }

    /** The locked part of the timer callback goes on exactly when no notification came after its own. */
    method TimerFired(currentGen: nat) returns (goesOn: bool)
      requires Valid() && currentGen in run.expired
      modifies this`run
      ensures Valid() && run == Step(old(run), Gates(currentGen))
      ensures goesOn <==> forall g :: g in run.notifiedAt ==> g <= currentGen
      ensures goesOn <==> currentGen in run.passed
    {
      InvStep(run, Gates(currentGen));
      assert generation in run.notifiedAt;
      assert currentGen !in run.gate;
      run := Step(run, Gates(currentGen));
      if currentGen != generation {
        return false;
      }
      return true;
    }
  }
}
