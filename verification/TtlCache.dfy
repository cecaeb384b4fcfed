/**
 backend/pkg/cache/cache.go: a string-keyed cache with optional deadlines, swept in the
 background. Refined to a plain map of deadlines that is never swept.
 */
module TtlCache {
  import opened Wrappers

  type Time = int

  /** expiresAt is None for Go's zero time: the entry never expires. */
  datatype Entry<+T> = Entry(value: T, expiresAt: Option<Time>)

  type Store<T> = map<string, Entry<T>>

  predicate Live<T>(e: Entry<T>, now: Time)
  {
    e.expiresAt.None? || now < e.expiresAt.value
  }

  /** What one sweep removes: deadlines strictly in the past. */
  predicate Swept<T>(e: Entry<T>, now: Time)
  {
    e.expiresAt.Some? && e.expiresAt.value < now
  }

  function Put<T>(s: Store<T>, key: string, value: T, ttl: int, now: Time): Store<T>
  {
    s[key := Entry(value, if ttl == 0 then None else Some(now + ttl))]
  }

  /** UpdateTTL reads the clock twice: to test liveness and to compute the new deadline. */
  function Extend<T>(s: Store<T>, key: string, ttl: int, checkedAt: Time, now: Time): Store<T>
  {
    if key in s && Live(s[key], checkedAt)
    then s[key := s[key].(expiresAt := Some(now + ttl))]
    else s
  }

  function Sweep<T>(s: Store<T>, now: Time): Store<T>
  {
    map k | k in s && !Swept(s[k], now) :: s[k]
  }

  /** What readers can observe at an instant. */
  function View<T>(s: Store<T>, now: Time): map<string, T>
  {
    map k | k in s && Live(s[k], now) :: s[k].value
  }

  // ------------------------------------------------------------ runs

  /**
   `at` is the clock when the operation takes effect. CleanUp reads the clock before it takes
   the lock: writes with later readings may come in between.
   */
  datatype Op<+T> =
    | Set(key: string, value: T, ttl: int, at: Time)
    | Delete(key: string, at: Time)
    | UpdateTTL(key: string, ttl: int, checkedAt: Time, at: Time)
    | CleanUp(readAt: Time, at: Time)

  function Apply<T>(s: Store<T>, op: Op<T>): Store<T>
  {
    match op
    case Set(k, v, ttl, at) => Put(s, k, v, ttl, at)
    case Delete(k, _) => s - {k}
    case UpdateTTL(k, ttl, checkedAt, at) => Extend(s, k, ttl, checkedAt, at)
    case CleanUp(readAt, _) => Sweep(s, readAt)
  }

  function Run<T>(s: Store<T>, ops: seq<Op<T>>): Store<T>
    decreases |ops|
  {
    if ops == [] then s else Run(Apply(s, ops[0]), ops[1..])
  }

  /** The same operations on a map that is never swept. */
  function RunPlain<T>(s: Store<T>, ops: seq<Op<T>>): Store<T>
    decreases |ops|
  {
    if ops == [] then s
    else RunPlain(if ops[0].CleanUp? then s else Apply(s, ops[0]), ops[1..])
  }

  /**
   What a monotone clock makes of a run: operations take effect in the order of `at`, `now` is
   not before the last of them, and a sweep's reading is no later than the sweep.
   */
  predicate Monotone<T>(ops: seq<Op<T>>, from: Time, now: Time)
  {
    if ops == [] then from <= now
    else
      && from <= ops[0].at
      && (ops[0].UpdateTTL? ==> from <= ops[0].checkedAt <= ops[0].at)
      && (ops[0].CleanUp? ==> ops[0].readAt <= ops[0].at)
      && Monotone(ops[1..], ops[0].at, now)
  }

  /** The swept store is the plain one minus entries whose deadline has passed. */
  ghost predicate Refines<T(!new)>(s: Store<T>, plain: Store<T>, now: Time)
  {
    && (forall k :: k in s ==> k in plain && plain[k] == s[k])
    && (forall k :: k in plain && k !in s ==> Swept(plain[k], now))
  }

  lemma RefinesView<T(!new)>(s: Store<T>, plain: Store<T>, now: Time)
    requires Refines(s, plain, now)
    ensures View(s, now) == View(plain, now)
  {
  }

  lemma RefinesStep<T(!new)>(s: Store<T>, plain: Store<T>, from: Time, op: Op<T>)
    requires Refines(s, plain, from) && from <= op.at
    requires op.UpdateTTL? ==> from <= op.checkedAt <= op.at
    requires op.CleanUp? ==> op.readAt <= op.at
    ensures Refines(Apply(s, op), if op.CleanUp? then plain else Apply(plain, op), op.at)
  {
  }

  lemma {:induction false} RefinesRun<T(!new)>(s: Store<T>, plain: Store<T>, ops: seq<Op<T>>, from: Time, now: Time)
    requires Refines(s, plain, from) && Monotone(ops, from, now)
    ensures Refines(Run(s, ops), RunPlain(plain, ops), now)
    decreases |ops|
  {
    if ops != [] {
      var op := ops[0];
      RefinesStep(s, plain, from, op);
      RefinesRun(Apply(s, op), if op.CleanUp? then plain else Apply(plain, op), ops[1..], op.at, now);
    }
  }

  /** Over every run, Get and GetAll at any later instant cannot tell that sweeping happened. */
  lemma SweepingIsInvisible<T(!new)>(ops: seq<Op<T>>, from: Time, now: Time)
    requires Monotone(ops, from, now)
    ensures View(Run(map[], ops), now) == View(RunPlain(map[], ops), now)
  {
    RefinesRun<T>(map[], map[], ops, from, now);
    RefinesView(Run(map[], ops), RunPlain(map[], ops), now);
  }

  /** Once a key is dead it stays dead until it is set again; UpdateTTL cannot revive it. */
  lemma {:induction false} NoResurrection<T(!new)>(s: Store<T>, key: string, ops: seq<Op<T>>, from: Time, now: Time)
    requires Monotone(ops, from, now)
    requires key !in View(s, from)
    requires forall i :: 0 <= i < |ops| && ops[i].Set? ==> ops[i].key != key
    ensures key !in View(Run(s, ops), now)
    decreases |ops|
  {
    if ops != [] {
      var op := ops[0];
      assert ops[0] in ops;
      assert key !in View(Apply(s, op), op.at);
      NoResurrection(Apply(s, op), key, ops[1..], op.at, now);
    }
  }

  // ------------------------------------------------------------ what is read, by the history of a key

  /** What a key's own operations leave to be read, and until when. */
  datatype Reading<+T> = Nothing | Held(value: T, until: Option<Time>)

  predicate ReadableAt<T>(r: Reading<T>, at: Time)
  {
    r.Held? && (r.until.None? || at < r.until.value)
  }

  function Next<T>(r: Reading<T>, op: Op<T>, key: string): Reading<T>
  {
    match op
    case Set(k, value, ttl, at) => if k == key then Held(value, if ttl == 0 then None else Some(at + ttl)) else r
    case Delete(k, _) => if k == key then Nothing else r
    case UpdateTTL(k, ttl, checkedAt, at) =>
      if k == key && ReadableAt(r, checkedAt) then Held(r.value, Some(at + ttl)) else r
    case CleanUp(_, _) => r
  }

  /** Sets, deletes and extensions of the key, one after the other; sweeps play no part. */
  function Expect<T>(r: Reading<T>, ops: seq<Op<T>>, key: string): Reading<T>
    decreases |ops|
  {
    if ops == [] then r else Expect(Next(r, ops[0], key), ops[1..], key)
  }

  lemma {:induction false} PlainFollowsHistory<T>(plain: Store<T>, r: Reading<T>, ops: seq<Op<T>>, key: string)
    requires r == if key in plain then Held(plain[key].value, plain[key].expiresAt) else Nothing
    ensures var p := RunPlain(plain, ops);
      Expect(r, ops, key) == if key in p then Held(p[key].value, p[key].expiresAt) else Nothing
    decreases |ops|
  {
    if ops != [] {
      PlainFollowsHistory(if ops[0].CleanUp? then plain else Apply(plain, ops[0]), Next(r, ops[0], key), ops[1..], key);
    }
  }

  /**
   After any run with a monotone clock a read finds a key exactly when its own history says so:
   the value last set and not deleted, until its TTL after that set, or after the last extension
   that came in time.
   */
  lemma ReadsFollowHistory<T(!new)>(ops: seq<Op<T>>, from: Time, now: Time, key: string)
    requires Monotone(ops, from, now)
    ensures var r := Expect(Nothing, ops, key); var view := View(Run(map[], ops), now);
      && (key in view <==> ReadableAt(r, now))
      && (key in view ==> view[key] == r.value)
  {
    SweepingIsInvisible(ops, from, now);
    PlainFollowsHistory(map[], Nothing, ops, key);
  }

  /** A value set at `setAt` is read at a later instant exactly within its TTL; a zero TTL never ends. */
  lemma SetThenRead<T>(s: Store<T>, key: string, value: T, ttl: int, setAt: Time, at: Time)
    ensures var view := View(Put(s, key, value, ttl, setAt), at);
      && (key in view <==> ttl == 0 || at < setAt + ttl)
      && (key in view ==> view[key] == value)
  {
  }

  /** A value that could be read at the check is, after the extension, read exactly within the new TTL. */
  lemma ExtendThenRead<T>(s: Store<T>, key: string, ttl: int, checkedAt: Time, extendedAt: Time, at: Time)
    requires key in View(s, checkedAt)
    ensures var view := View(Extend(s, key, ttl, checkedAt, extendedAt), at);
      && (key in view <==> at < extendedAt + ttl)
      && (key in view ==> view[key] == View(s, checkedAt)[key])
  {
  }

  /** A sweep leaves exactly the entries without a deadline and those whose deadline is not past. */
  lemma SweepLeavesExactly<T>(s: Store<T>, now: Time, key: string)
    ensures key in Sweep(s, now) <==> key in s && (s[key].expiresAt.None? || now <= s[key].expiresAt.value)
    ensures key in Sweep(s, now) ==> Sweep(s, now)[key] == s[key]
  {
  }

  // ------------------------------------------------------------ every stored value leaves exactly once

  function Stored<T>(op: Op<T>, key: string): nat
  {
    if op.Set? && op.key == key then 1 else 0
  }

  function Evicted<T>(s: Store<T>, op: Op<T>, key: string): nat
  {
    if op.CleanUp? && key in s && Swept(s[key], op.readAt) then 1 else 0
  }

  /** Values of `key` displaced by a new Set or by a Delete. */
  function Displaced<T>(s: Store<T>, op: Op<T>, key: string): nat
  {
    if (op.Set? || op.Delete?) && op.key == key && key in s then 1 else 0
  }

  function Stores<T>(ops: seq<Op<T>>, key: string): nat
  {
    if ops == [] then 0 else Stored(ops[0], key) + Stores(ops[1..], key)
  }

  function Evictions<T>(s: Store<T>, ops: seq<Op<T>>, key: string): nat
    decreases |ops|
  {
    if ops == [] then 0 else Evicted(s, ops[0], key) + Evictions(Apply(s, ops[0]), ops[1..], key)
  }

  function Displacements<T>(s: Store<T>, ops: seq<Op<T>>, key: string): nat
    decreases |ops|
  {
    if ops == [] then 0 else Displaced(s, ops[0], key) + Displacements(Apply(s, ops[0]), ops[1..], key)
  }

  function Present<T>(s: Store<T>, key: string): nat
  {
    if key in s then 1 else 0
  }

  /**
   Conservation over any run: a value once stored is overwritten or deleted, or reported
   to onEvicted, or still there -- and only one of these.
   */
  lemma {:induction false} ValuesLeaveExactlyOnce<T>(s: Store<T>, ops: seq<Op<T>>, key: string)
    ensures Present(s, key) + Stores(ops, key)
         == Evictions(s, ops, key) + Displacements(s, ops, key) + Present(Run(s, ops), key)
    decreases |ops|
  {
    if ops != [] {
      ValuesLeaveExactlyOnce(Apply(s, ops[0]), ops[1..], key);
    }
  }

  // ------------------------------------------------------------ the cache object

  /** time.Now(): any number of ticks may pass between two readings. */
  class Clock {
    var now: Time

    method Read() returns (t: Time)
      modifies this
      ensures t == now && old(now) <= now
    {
      var ticks: nat :| true;
      now := now + ticks;
      t := now;
    }
  }

  class Cache<T(!new)> {
    const clock: Clock
    var store: Store<T>
    var hasCallback: bool
    /** The same history without sweeping. */
    ghost var plain: Store<T>

    ghost predicate Valid()
      reads this, clock
    {
      Refines(store, plain, clock.now)
    }

    constructor (clock: Clock)
      ensures Valid() && this.clock == clock && plain == map[]
    {
      this.clock := clock;
      store, plain, hasCallback := map[], map[], false;
    }

    method SetOnEvicted()
      modifies this`hasCallback
      ensures hasCallback
    {
      hasCallback := true;
    }

    method SetWithTTL(key: string, value: T, ttl: int)
      requires Valid()
      modifies this`store, this`plain, clock
      ensures Valid() && clock.now >= old(clock.now)
      ensures ttl == 0 ==> plain == old(plain)[key := Entry(value, None)] && clock.now == old(clock.now)
      ensures ttl != 0 ==> plain == old(plain)[key := Entry(value, Some(clock.now + ttl))]
    {
      var expiresAt: Option<Time> := None;
      if ttl != 0 {
        var now := clock.Read();
        expiresAt := Some(now + ttl);
      }
      store := store[key := Entry(value, expiresAt)];
      plain := plain[key := Entry(value, expiresAt)];
    }

    method Delete(key: string)
      requires Valid()
      modifies this`store, this`plain
      ensures Valid()
      ensures plain == old(plain) - {key} && store == old(store) - {key}
    {
      store := store - {key};
      plain := plain - {key};
    }

    /** The answer is the one the unswept map gives at the instant of return. */
    method Get(key: string) returns (r: Option<T>)
      requires Valid()
      modifies clock
      ensures Valid() && clock.now >= old(clock.now)
      ensures r == if key in View(plain, clock.now) then Some(View(plain, clock.now)[key]) else None
    {
      if key !in store {
        return None;
      }
      var value := store[key];
      if value.expiresAt.None? {
        return Some(value.value);
      }
      var now := clock.Read();
      if now < value.expiresAt.value {
        return Some(value.value);
      }
      return None;
    }

    /**
     Each entry is tested against its own clock reading: everything selected that is still
     live at the end is returned, and nothing that was already dead at the start.
     */
    method GetAll(select: string -> bool) returns (values: map<string, T>)
      requires Valid()
      modifies clock
      ensures Valid() && clock.now >= old(clock.now)
      ensures forall k :: k in View(plain, clock.now) && select(k) ==> k in values
      ensures forall k :: k in values ==>
        select(k) && k in View(plain, old(clock.now)) && values[k] == View(plain, old(clock.now))[k]
    {
      values := map[];
      var todo := store.Keys;
      while todo != {}
        invariant todo <= store.Keys && old(clock.now) <= clock.now
        invariant forall k :: k in values ==>
          k in store && select(k) && Live(store[k], old(clock.now)) && values[k] == store[k].value
        invariant forall k :: k in store && k !in todo && select(k) && Live(store[k], clock.now) ==> k in values
      {
        var key :| key in todo;
        todo := todo - {key};
        if select(key) {
          var value := store[key];
          if value.expiresAt.None? {
            values := values[key := value.value];
          } else {
            var now := clock.Read();
            if now < value.expiresAt.value {
              values := values[key := value.value];
            }
          }
        }
      }
      assert Refines(store, plain, clock.now);
      RefinesView(store, plain, clock.now);
    }

    /** The error says whether a sweep already removed the entry; the deadlines do not depend on it. */
    method UpdateTTL(key: string, ttl: int) returns (found: bool)
      requires Valid()
      modifies this`store, this`plain, clock
      ensures Valid() && clock.now >= old(clock.now)
      ensures found <==> key in old(store)
      ensures exists checkedAt ::
        old(clock.now) <= checkedAt <= clock.now && plain == Extend(old(plain), key, ttl, checkedAt, clock.now)
      ensures key in View(old(plain), clock.now) ==>
        plain == old(plain)[key := Entry(old(plain)[key].value, Some(clock.now + ttl))]
      ensures key !in View(old(plain), old(clock.now)) ==> plain == old(plain)
    {
      if key !in store {
        assert plain == Extend(plain, key, ttl, clock.now, clock.now);
        return false;
      }
      found := true;
      var value := store[key];
      var live := value.expiresAt.None?;
      ghost var checkedAt := clock.now;
      if !live {
        var now := clock.Read();
        checkedAt := now;
        live := now < value.expiresAt.value;
      }
      if live {
        var now := clock.Read();
        store := store[key := value.(expiresAt := Some(now + ttl))];
        plain := plain[key := value.(expiresAt := Some(now + ttl))];
      }
      assert plain == Extend(old(plain), key, ttl, checkedAt, clock.now);
    }

    /**
     One tick of the janitor after it has read the clock: any calls may have come between the
     reading and the lock. The result lists the callback invocations in order.
     */
    method CleanUp(now: Time) returns (reported: seq<(string, T)>)
      requires Valid() && now <= clock.now
      modifies this`store
      ensures Valid()
      ensures store == Sweep(old(store), now)
      ensures !hasCallback ==> reported == []
      ensures hasCallback ==> forall k, v :: (k, v) in reported <==>
        k in old(store) && k !in store && old(store)[k].value == v
      ensures forall i, j :: 0 <= i < j < |reported| ==> reported[i].0 != reported[j].0
    {
      var evicted: seq<(string, T)> := [];
      var todo := store.Keys;
      while todo != {}
        invariant todo <= old(store).Keys && todo <= store.Keys
        invariant forall k :: k in store <==> k in old(store) && (k in todo || !Swept(old(store)[k], now))
        invariant forall k :: k in store ==> store[k] == old(store)[k]
        invariant forall i :: 0 <= i < |evicted| ==>
          && evicted[i].0 in old(store) && evicted[i].0 !in store
          && evicted[i].1 == old(store)[evicted[i].0].value
        invariant forall k :: k in old(store) && k !in store ==> (k, old(store)[k].value) in evicted
        invariant forall i, j :: 0 <= i < j < |evicted| ==> evicted[i].0 != evicted[j].0
      {
        var key :| key in todo;
        todo := todo - {key};
        var value := store[key];
        if value.expiresAt.Some? && value.expiresAt.value < now {
          evicted := evicted + [(key, value.value)];
          store := store - {key};
        }
      }
      reported := if hasCallback then evicted else [];
    }
  }
}
