/**
 app/electron/plugin-management.ts, convertAnnotations: a flat record of "/"-separated keys
 becomes nested objects, built in place by moving `current` down and writing into it.
 An object reference is an index into the heap of objects allocated so far; the heap holds own
 properties. Reading a name the object does not own may still find one it inherits, and then
 `current` leaves the objects being built.
 */
module Annotations {
  import opened Wrappers
  import opened GoStrings

  datatype JsValue = Str(text: string) | Obj(ref: nat)

  type Heap = seq<map<string, JsValue>>

  /** A record with its keys already split at "/". */
  type Record = map<seq<string>, string>

  const ROOT: nat := 0

  /** An accessor every object inherits; assigning a string to it stores nothing. */
  const PROTO: string := "__proto__"

  /** What an object literal inherits from Object.prototype; none of it is falsy. */
  const INHERITED: set<string> := {
    PROTO, "constructor", "hasOwnProperty", "isPrototypeOf", "propertyIsEnumerable", "toLocaleString",
    "toString", "valueOf", "__defineGetter__", "__defineSetter__", "__lookupGetter__", "__lookupSetter__"
  }

  function SplitKeys(annotations: map<string, string>): Record
  {
    map parts | parts in (set k | k in annotations :: Split(k, '/')) && Join(parts, '/') in annotations
      :: annotations[Join(parts, '/')]
  }

  /** Where `parts` leads through own properties; None when a step leads nowhere. */
  function Walk(h: Heap, o: nat, parts: seq<string>): Option<JsValue>
    decreases |parts|
  {
    if parts == [] then Some(Obj(o))
    else if o >= |h| || parts[0] !in h[o] then None
    else match h[o][parts[0]]
      case Str(text) => if |parts| == 1 then Some(Str(text)) else None
      case Obj(child) => Walk(h, child, parts[1..])
  }

  /** No key is a proper prefix of another. */
  ghost predicate PrefixFree(keys: set<seq<string>>)
  {
    forall a, b :: a in keys && b in keys && a <= b ==> a == b
  }

  /** No name before the last is inherited, and the last one can be stored. */
  ghost predicate Ordinary(key: seq<string>)
  {
    key != [] && (forall i :: 0 <= i < |key| - 1 ==> key[i] !in INHERITED) && Last(key) != PROTO
  }

  /** The records that convert faithfully. */
  ghost predicate Convertible(keys: set<seq<string>>)
  {
    PrefixFree(keys) && forall k :: k in keys ==> Ordinary(k)
  }

  /** Walking along each key yields its value. */
  ghost predicate Faithful(h: Heap, record: Record)
  {
    forall parts :: parts in record ==> Walk(h, ROOT, parts) == Some(Str(record[parts]))
  }

  /** Flattening gives nothing but the record. */
  ghost predicate NothingElse(h: Heap, record: Record)
  {
    forall parts, text :: Walk(h, ROOT, parts) == Some(Str(text)) ==>
      parts in record && record[parts] == text
  }

  // ------------------------------------------------------------ walking

  lemma {:induction false} WalkSnoc(h: Heap, o: nat, parts: seq<string>, last: string)
    ensures Walk(h, o, parts + [last]) ==
      match Walk(h, o, parts)
      case Some(Obj(p)) => if p < |h| && last in h[p] then Some(h[p][last]) else None
      case _ => None
    decreases |parts|
  {
    var all := parts + [last];
    if parts == [] {
      assert all[1..] == [];
    } else {
      assert all[1..] == parts[1..] + [last];
      if o < |h| && parts[0] in h[o] && h[o][parts[0]].Obj? {
        WalkSnoc(h, h[o][parts[0]].ref, parts[1..], last);
      }
    }
  }

  /** Nothing lies beyond a string. */
  lemma {:induction false} StringsEndWalks(h: Heap, o: nat, parts: seq<string>, more: seq<string>)
    requires Walk(h, o, parts).Some? && Walk(h, o, parts).value.Str? && more != []
    ensures Walk(h, o, parts + more) == None
    decreases |parts|
  {
    assert (parts + more)[1..] == parts[1..] + more;
    if h[o][parts[0]].Obj? {
      StringsEndWalks(h, h[o][parts[0]].ref, parts[1..], more);
    }
  }

  /** An object can be faithful to prefix-free records only. */
  lemma FaithfulNeedsPrefixFree(h: Heap, record: Record)
    requires Faithful(h, record)
    ensures PrefixFree(record.Keys)
  {
    forall a, b | a in record && b in record && a <= b ensures a == b {
      if a != b {
        assert b == a + b[|a|..];
        StringsEndWalks(h, ROOT, a, b[|a|..]);
        assert false;
      }
    }
  }

  lemma {:induction false} JoinOfSplit(s: string, sep: char)
    ensures Join(Split(s, sep), sep) == s
  {
    if s != "" {
      JoinOfSplit(s[1..], sep);
      assert s == [s[0]] + s[1..];
    }
  }

  /** Splitting loses nothing: the split record is the annotations, key for key. */
  lemma SplitKeysFaithful(annotations: map<string, string>)
    ensures forall k :: k in annotations ==>
      Split(k, '/') in SplitKeys(annotations) && SplitKeys(annotations)[Split(k, '/')] == annotations[k]
    ensures forall parts :: parts in SplitKeys(annotations) ==>
      parts != [] && Join(parts, '/') in annotations && Split(Join(parts, '/'), '/') == parts
  {
    forall k | k in annotations ensures Join(Split(k, '/'), '/') == k {
      JoinOfSplit(k, '/');
    }
    forall parts | parts in SplitKeys(annotations)
      ensures parts != [] && Split(Join(parts, '/'), '/') == parts
    {
      var k :| k in annotations && Split(k, '/') == parts;
      JoinOfSplit(k, '/');
    }
  }

  // ------------------------------------------------------------ the shape kept while building

  /** The path below the root at which each object sits. */
  type Paths = seq<seq<string>>

  function Front(parts: seq<string>): seq<string>
  {
    if parts == [] then [] else parts[..|parts| - 1]
  }

  function Last(parts: seq<string>): string
    requires parts != []
  {
    parts[|parts| - 1]
  }

  /** The object o sits at `dir` and holds `value` under `name`. */
  ghost predicate At(h: Heap, path: Paths, o: nat, dir: seq<string>, name: string, value: JsValue)
  {
    o < |h| == |path| && path[o] == dir && name in h[o] && h[o][name] == value
  }

  /** Every object but the root is the value at its path. */
  ghost predicate Parents(h: Heap, path: Paths)
    requires |h| == |path|
  {
    forall p {:trigger Front(path[p])} :: 0 < p < |h| ==>
      path[p] != [] && exists o :: At(h, path, o, Front(path[p]), Last(path[p]), Obj(p))
  }

  /** Every object sits at its own path, and is the value at that path. */
  ghost predicate Tree(h: Heap, path: Paths)
  {
    && 0 < |h| == |path| && path[ROOT] == []
    && (forall o, p :: 0 <= o < |h| && 0 <= p < |h| && path[o] == path[p] ==> o == p)
    && (forall o, x :: 0 <= o < |h| && x in h[o] && h[o][x].Obj? ==>
          h[o][x].ref < |h| && path[h[o][x].ref] == path[o] + [x])
    && Parents(h, path)
  }

  /** The strings in the tree are exactly those of the record. */
  ghost predicate Holds(h: Heap, path: Paths, record: Record)
    requires |h| == |path|
  {
    && (forall o, x :: 0 <= o < |h| && x in h[o] && h[o][x].Str? ==>
          path[o] + [x] in record && record[path[o] + [x]] == h[o][x].text)
    && (forall parts {:trigger Front(parts)} :: parts in record ==>
          parts != [] && exists o :: At(h, path, o, Front(parts), Last(parts), Str(record[parts])))
  }

  /** Objects lie on the way to some key. */
  ghost predicate OnTheWay(path: Paths, keys: set<seq<string>>)
  {
    forall o :: 0 < o < |path| ==> exists k :: k in keys && path[o] < k
  }

  lemma {:induction false} WalkReaches(h: Heap, path: Paths, p: nat)
    requires Tree(h, path) && p < |h|
    ensures Walk(h, ROOT, path[p]) == Some(Obj(p))
    decreases |path[p]|
  {
    if p != ROOT {
      var dir := Front(path[p]);
      var o: nat :| At(h, path, o, dir, Last(path[p]), Obj(p));
      WalkReaches(h, path, o);
      WalkSnoc(h, ROOT, dir, Last(path[p]));
      assert dir + [Last(path[p])] == path[p];
    }
  }

  /** The object a walk ends at sits at the path walked. */
  lemma {:induction false} WalkEndsAtPath(h: Heap, path: Paths, parts: seq<string>, p: nat)
    requires Tree(h, path) && Walk(h, ROOT, parts) == Some(Obj(p))
    ensures p < |h| && path[p] == parts
    decreases |parts|
  {
    if parts != [] {
      assert parts == Front(parts) + [Last(parts)];
      WalkSnoc(h, ROOT, Front(parts), Last(parts));
      WalkEndsAtPath(h, path, Front(parts), Walk(h, ROOT, Front(parts)).value.ref);
    }
  }

  lemma StringsAreRecorded(h: Heap, path: Paths, record: Record, parts: seq<string>, text: string)
    requires Tree(h, path) && Holds(h, path, record) && Walk(h, ROOT, parts) == Some(Str(text))
    ensures parts in record && record[parts] == text
  {
    assert parts == Front(parts) + [Last(parts)];
    WalkSnoc(h, ROOT, Front(parts), Last(parts));
    WalkEndsAtPath(h, path, Front(parts), Walk(h, ROOT, Front(parts)).value.ref);
  }

  lemma RecordedAreFound(h: Heap, path: Paths, record: Record, parts: seq<string>)
    requires Tree(h, path) && Holds(h, path, record) && parts in record
    ensures Walk(h, ROOT, parts) == Some(Str(record[parts]))
  {
    var dir := Front(parts);
    var o: nat :| At(h, path, o, dir, Last(parts), Str(record[parts]));
    WalkReaches(h, path, o);
    WalkSnoc(h, ROOT, dir, Last(parts));
    assert dir + [Last(parts)] == parts;
  }

  lemma TreeIsFaithful(h: Heap, path: Paths, record: Record)
    requires Tree(h, path) && Holds(h, path, record)
    ensures Faithful(h, record) && NothingElse(h, record)
  {
    forall parts | parts in record ensures Walk(h, ROOT, parts) == Some(Str(record[parts])) {
      RecordedAreFound(h, path, record, parts);
    }
    forall parts, text | Walk(h, ROOT, parts) == Some(Str(text))
      ensures parts in record && record[parts] == text
    {
      StringsAreRecorded(h, path, record, parts, text);
    }
  }

  // ------------------------------------------------------------ one key runs into nothing

  /** In a prefix-free record a key being inserted never runs into a string on its way. */
  lemma NoStringOnTheWay(h: Heap, path: Paths, record: Record, keys: set<seq<string>>, key: seq<string>, o: nat, i: nat)
    requires record.Keys <= keys && key in keys && key !in record && PrefixFree(keys)
    requires |h| == |path| && Holds(h, path, record)
    requires o < |h| && i < |key| && path[o] == key[..i]
    ensures key[i] in h[o] ==> h[o][key[i]].Obj?
  {
    assert path[o] + [key[i]] == key[..i + 1];
    assert key[..i + 1] <= key;
  }

  /** ... and nothing sits yet where its leaf goes. */
  lemma LeafIsNew(h: Heap, path: Paths, record: Record, keys: set<seq<string>>, key: seq<string>, o: nat)
    requires record.Keys <= keys && key in keys && key !in record && key != [] && PrefixFree(keys)
    requires Tree(h, path) && Holds(h, path, record) && OnTheWay(path, keys)
    requires o < |h| && path[o] == Front(key)
    ensures Last(key) !in h[o]
  {
    assert path[o] + [Last(key)] == key;
    NoStringOnTheWay(h, path, record, keys, key, o, |key| - 1);
    assert key !in path;
  }

  /** The path of a new child is taken by nobody. */
  lemma PathIsNew(h: Heap, path: Paths, o: nat, part: string)
    requires Tree(h, path) && o < |h| && part !in h[o]
    ensures path[o] + [part] !in path
  {
    var at := path[o] + [part];
    assert Front(at) == path[o] && Last(at) == part;
    forall p | 0 <= p < |path| ensures path[p] != at {
      if p != ROOT {
        var q: nat :| At(h, path, q, Front(path[p]), Last(path[p]), Obj(p));
      }
    }
  }

  // ------------------------------------------------------------ the two writes

  /** A new empty object hung below o. */
  function Grow(h: Heap, o: nat, part: string): Heap
    requires o < |h|
  {
    h[o := h[o][part := Obj(|h|)]] + [map[]]
  }

  function Put(h: Heap, o: nat, part: string, text: string): Heap
    requires o < |h|
  {
    h[o := h[o][part := Str(text)]]
  }

  /** The assignment `o[part] = text`. */
  function Assign(h: Heap, o: nat, part: string, text: string): Heap
    requires o < |h|
  {
    if part == PROTO then h else Put(h, o, part, text)
  }

  /** Prefix-freeness alone is not enough: the record {"__proto__": "x"} is lost. */
  lemma ProtoKeyIsLost()
    ensures var record: Record := map[[PROTO] := "x"];
      PrefixFree(record.Keys) && !Convertible(record.Keys) && !Faithful(Assign([map[]], ROOT, PROTO, "x"), record)
  {
    var record: Record := map[[PROTO] := "x"];
    assert [PROTO] in record && Last([PROTO]) == PROTO;
    assert Walk([map[]], ROOT, [PROTO]) == None;
  }

  /** Nor is this one convertible: the first step finds the function Object. */
  lemma ConstructorKeyIsNotConvertible()
    ensures PrefixFree({["constructor", "name"]}) && !Convertible({["constructor", "name"]})
  {
    var key := ["constructor", "name"];
    assert key[0] in INHERITED && !Ordinary(key);
    assert key in {key};
  }

  lemma StillAtAfterGrow(h: Heap, path: Paths, o: nat, part: string, p: nat,
                         dir: seq<string>, name: string, v: JsValue)
    requires o < |h| && part !in h[o] && At(h, path, p, dir, name, v)
    ensures At(Grow(h, o, part), path + [path[o] + [part]], p, dir, name, v)
  {
  }

  lemma GrowParents(h: Heap, path: Paths, o: nat, part: string)
    requires o < |h| == |path| && part !in h[o] && Parents(h, path)
    ensures Parents(Grow(h, o, part), path + [path[o] + [part]])
  {
    var at := path[o] + [part];
    var h': Heap, path' := Grow(h, o, part), path + [at];
    forall p | 0 < p < |h'|
      ensures path'[p] != [] && exists q :: At(h', path', q, Front(path'[p]), Last(path'[p]), Obj(p))
    {
      if p == |h| {
        assert Front(at) == path[o] && At(h', path', o, Front(at), Last(at), Obj(p));
      } else {
        var dir, name := Front(path[p]), Last(path[p]);
        var q: nat :| At(h, path, q, dir, name, Obj(p));
        StillAtAfterGrow(h, path, o, part, q, dir, name, Obj(p));
      }
    }
  }

  lemma GrowTree(h: Heap, path: Paths, o: nat, part: string)
    requires Tree(h, path) && o < |h| && part !in h[o]
    ensures Tree(Grow(h, o, part), path + [path[o] + [part]])
  {
    PathIsNew(h, path, o, part);
    GrowParents(h, path, o, part);
    var h': Heap, path' := Grow(h, o, part), path + [path[o] + [part]];
    forall q, x: string | 0 <= q < |h'| && x in h'[q] && h'[q][x].Obj?
      ensures h'[q][x].ref < |h'| && path'[h'[q][x].ref] == path'[q] + [x]
    {
      assert q < |h|;
      if q != o || x != part {
        assert x in h[q] && h'[q][x] == h[q][x];
      }
    }
  }

  lemma GrowHolds(h: Heap, path: Paths, o: nat, part: string, record: Record)
    requires Tree(h, path) && Holds(h, path, record) && o < |h| && part !in h[o]
    ensures Holds(Grow(h, o, part), path + [path[o] + [part]], record)
  {
    var h': Heap, path' := Grow(h, o, part), path + [path[o] + [part]];
    forall parts | parts in record
      ensures parts != [] && exists q :: At(h', path', q, Front(parts), Last(parts), Str(record[parts]))
    {
      var dir, name := Front(parts), Last(parts);
      var q: nat :| At(h, path, q, dir, name, Str(record[parts]));
      StillAtAfterGrow(h, path, o, part, q, dir, name, Str(record[parts]));
    }
  }

  lemma StillAtAfterPut(h: Heap, path: Paths, o: nat, part: string, text: string, p: nat,
                         dir: seq<string>, name: string, v: JsValue)
    requires o < |h| && part !in h[o] && At(h, path, p, dir, name, v)
    ensures At(Put(h, o, part, text), path, p, dir, name, v)
  {
  }

  lemma PutParents(h: Heap, path: Paths, o: nat, part: string, text: string)
    requires o < |h| == |path| && part !in h[o] && Parents(h, path)
    ensures Parents(Put(h, o, part, text), path)
  {
    var h' := Put(h, o, part, text);
    forall p | 0 < p < |h'|
      ensures path[p] != [] && exists q :: At(h', path, q, Front(path[p]), Last(path[p]), Obj(p))
    {
      var dir, name := Front(path[p]), Last(path[p]);
      var q: nat :| At(h, path, q, dir, name, Obj(p));
      StillAtAfterPut(h, path, o, part, text, q, dir, name, Obj(p));
    }
  }

  /** Writing a leaf moves no object. */
  lemma PutTree(h: Heap, path: Paths, o: nat, part: string, text: string)
    requires Tree(h, path) && o < |h| && part !in h[o]
    ensures Tree(Put(h, o, part, text), path)
  {
    PutParents(h, path, o, part, text);
  }

  /** Writing the leaf of `key` completes it. */
  lemma PutHolds(h: Heap, path: Paths, o: nat, record: Record, key: seq<string>, text: string)
    requires Tree(h, path) && Holds(h, path, record)
    requires key != [] && key !in record && o < |h| && path[o] == Front(key) && Last(key) !in h[o]
    ensures Holds(Put(h, o, Last(key), text), path, record[key := text])
  {
    assert key == path[o] + [Last(key)];
    var h', record' := Put(h, o, Last(key), text), record[key := text];
    forall parts | parts in record'
      ensures parts != [] && exists q :: At(h', path, q, Front(parts), Last(parts), Str(record'[parts]))
    {
      var dir, name := Front(parts), Last(parts);
      if parts == key {
        assert At(h', path, o, dir, name, Str(text));
      } else {
        var q: nat :| At(h, path, q, dir, name, Str(record[parts]));
        StillAtAfterPut(h, path, o, Last(key), text, q, dir, name, Str(record[parts]));
      }
    }
    forall q, x: string | 0 <= q < |h'| && x in h'[q] && h'[q][x].Str?
      ensures path[q] + [x] in record' && record'[path[q] + [x]] == h'[q][x].text
    {
      if q != o || x != Last(key) {
        assert x in h[q] && h'[q][x] == h[q][x];
        assert path[q] + [x] in record;
      }
    }
  }

  // ------------------------------------------------------------ in place

  /** What has been entered once the first n keys of the order have been visited. */
  ghost predicate Entered(entered: Record, annotations: map<string, string>, order: seq<string>, n: nat)
    requires n <= |order|
  {
    var record := SplitKeys(annotations);
    && (forall parts :: parts in entered <==> parts in record && Join(parts, '/') in order[..n])
    && (forall parts :: parts in entered ==> entered[parts] == record[parts])
  }

  lemma EnteredNext(entered: Record, annotations: map<string, string>, order: seq<string>, n: nat)
    requires n < |order| && Entered(entered, annotations, order, n)
    requires order[n] in annotations && order[n] !in order[..n]
    ensures Split(order[n], '/') in SplitKeys(annotations) && Split(order[n], '/') !in entered
    ensures Entered(entered[Split(order[n], '/') := annotations[order[n]]], annotations, order, n + 1)
  {
    SplitKeysFaithful(annotations);
    JoinOfSplit(order[n], '/');
    assert order[..n + 1] == order[..n] + [order[n]];
  }

  lemma EnteredAll(entered: Record, annotations: map<string, string>, order: seq<string>)
    requires Entered(entered, annotations, order, |order|)
    requires forall k :: k in order <==> k in annotations
    ensures entered == SplitKeys(annotations)
  {
  }

  /** References never leave the objects allocated so far. */
  ghost predicate Closed(h: Heap)
  {
    0 < |h| && forall o, x :: 0 <= o < |h| && x in h[o] && h[o][x].Obj? ==> h[o][x].ref < |h|
  }

  /**
   What holds while a record is entered, `stored` being what has got into the heap; of a record
   that is not prefix-free only that references are good.
   */
  ghost predicate Building(h: Heap, path: Paths, stored: Record, keys: set<seq<string>>)
  {
    && Closed(h)
    && (PrefixFree(keys) ==> Tree(h, path) && Holds(h, path, stored) && OnTheWay(path, keys))
  }

  /** No object was created under a name that objects inherit. */
  ghost predicate OwnPlain(h: Heap)
  {
    forall o, x :: 0 <= o < |h| && x in h[o] && h[o][x].Obj? ==> x !in INHERITED
  }

  /** The last assignment for a key. */
  lemma StoreLeaf(h: Heap, path: Paths, o: nat, stored: Record, keys: set<seq<string>>, key: seq<string>, value: string)
    requires Building(h, path, stored, keys) && o < |h|
    requires stored.Keys <= keys && key in keys && key !in stored && key != []
    requires PrefixFree(keys) ==> path[o] == Front(key)
    ensures Building(Put(h, o, Last(key), value), path, stored[key := value], keys)
    ensures OwnPlain(h) ==> OwnPlain(Put(h, o, Last(key), value))
  {
    if PrefixFree(keys) {
      LeafIsNew(h, path, stored, keys, key, o);
      PutTree(h, path, o, Last(key), value);
      PutHolds(h, path, o, stored, key, value);
    }
  }

  /** `current` is one of the objects being built, or something found elsewhere. */
  datatype Place = Here(ref: nat) | Elsewhere

  class Converter {
    var objects: Heap
    /** The names that at present are inherited and not falsy. */
    var inherited: set<string>
    ghost var path: Paths
    /** Some key has led outside the objects being built. */
    ghost var strayed: bool

    constructor ()
      ensures objects == [map[]] && path == [[]] && inherited == INHERITED && !strayed
    {
      objects, path, inherited, strayed := [map[]], [[]], INHERITED, false;
    }

    ghost predicate Untouched(keys: set<seq<string>>)
      reads this
    {
      !strayed ==> inherited == INHERITED && (PrefixFree(keys) ==> OwnPlain(objects))
    }

    /** One step down: the object under `part`, created if nothing is found there. */
    method Descend(current: nat, part: string, ghost i: nat, ghost key: seq<string>,
                   ghost stored: Record, ghost keys: set<seq<string>>)
      returns (next: Place)
      requires Building(objects, path, stored, keys) && Untouched(keys) && current < |objects|
      requires stored.Keys <= keys && key in keys && key !in stored
      requires i + 1 < |key| && part == key[i]
      requires PrefixFree(keys) ==> path[current] == key[..i]
      modifies this`objects, this`path
      ensures Building(objects, path, stored, keys) && Untouched(keys)
      ensures next.Here? ==> next.ref < |objects| && (PrefixFree(keys) ==> path[next.ref] == key[..i + 1])
      ensures next.Elsewhere? <==>
        if part in old(objects)[current]
        then old(objects)[current][part].Str? && old(objects)[current][part].text != ""
        else part in inherited
      ensures next.Here? ==>
        current < |objects| && part in objects[current] && objects[current][part] == Obj(next.ref)
      ensures next.Elsewhere? || (part in old(objects)[current] && old(objects)[current][part].Obj?) ==>
        objects == old(objects)
      ensures PrefixFree(keys) && !strayed ==> (next.Here? <==> part !in INHERITED)
    {
      assert key[..i + 1] == key[..i] + [part];
      if PrefixFree(keys) {
        NoStringOnTheWay(objects, path, stored, keys, key, current, i);
      }
      if part !in objects[current] && part in inherited {
        return Elsewhere;
      }
      if part !in objects[current] || objects[current][part] == Str("") {
        if PrefixFree(keys) {
          GrowTree(objects, path, current, part);
          GrowHolds(objects, path, current, part, stored);
          assert key[..i + 1] < key;
          path := path + [path[current] + [part]];
        }
        next := Here(|objects|);
        objects := Grow(objects, current, part);
      } else {
        match objects[current][part]
        case Obj(child) => next := Here(child);
        case Str(_) => next := Elsewhere;
      }
    }

    /**
     The rest of a key that has led to a built-in object or into a string: it may throw, and it
     may leave other names inherited, but it cannot reach the objects being built.
     */
    method Stray() returns (threw: bool)
      modifies this`inherited, this`strayed
      ensures strayed && PROTO in inherited
    {
      var names: set<string> := *;
      inherited := names + {PROTO};
      threw := *;
      strayed := true;
    }

    /** The body of the outer loop: enters one key; `kept` says whether its value was stored. */
    method Enter(key: seq<string>, value: string, ghost stored: Record, ghost keys: set<seq<string>>)
      returns (threw: bool, ghost kept: bool)
      requires Building(objects, path, stored, keys) && Untouched(keys)
      requires stored.Keys <= keys && key in keys && key !in stored && key != []
      modifies this
      ensures Building(objects, path, if kept then stored[key := value] else stored, keys) && Untouched(keys)
      ensures threw ==> !kept
      ensures old(strayed) ==> strayed
      ensures strayed && !old(strayed) ==> !kept
      ensures PrefixFree(keys) && !old(strayed) ==> (kept <==> Ordinary(key))
    {
      threw := false;
      kept := false;
      var current: nat := ROOT;
      var i := 0;
      while i < |key| - 1
        invariant 0 <= i <= |key| - 1
        invariant Building(objects, path, stored, keys) && Untouched(keys) && current < |objects|
        invariant strayed == old(strayed)
        invariant PrefixFree(keys) ==> path[current] == key[..i]
        invariant PrefixFree(keys) && !strayed ==> forall j :: 0 <= j < i ==> key[j] !in INHERITED
      {
        var next := Descend(current, key[i], i, key, stored, keys);
        if next.Elsewhere? {
          threw := Stray();
          return;
        }
        current := next.ref;
        i := i + 1;
      }
      if key[i] == PROTO {
        assert Assign(objects, current, key[i], value) == objects;
        return;
      }
      kept := true;
      assert key[..i] == Front(key);
      StoreLeaf(objects, path, current, stored, keys, key, value);
      objects := Assign(objects, current, key[i], value);
    }

    /**
     In whatever order the keys are visited, and whatever happens outside the objects being built:
     the conversion succeeds and is faithful exactly for records of which no key is a proper
     segment-prefix of another, none but a last segment is an inherited name, and no last segment
     is "__proto__". Then nothing but the record can be found in the object.
     */
    method ConvertAnnotations(annotations: map<string, string>, order: seq<string>)
      returns (threw: bool)
      requires objects == [map[]] && path == [[]] && inherited == INHERITED && !strayed
      requires forall k :: k in order <==> k in annotations
      requires forall i, j :: 0 <= i < j < |order| ==> order[i] != order[j]
      modifies this
      ensures Convertible(SplitKeys(annotations).Keys) <==> !threw && Faithful(objects, SplitKeys(annotations))
      ensures Convertible(SplitKeys(annotations).Keys) ==> NothingElse(objects, SplitKeys(annotations))
    {
      ghost var record := SplitKeys(annotations);
      threw := false;
      ghost var entered: Record := map[];
      ghost var stored: Record := map[];
      var n := 0;
      while n < |order|
        invariant 0 <= n <= |order|
        invariant Entered(entered, annotations, order, n)
        invariant Building(objects, path, stored, record.Keys) && Untouched(record.Keys)
        invariant Accounted(stored, entered, strayed, record.Keys)
      {
        var key := order[n];
        EnteredNext(entered, annotations, order, n);
        ghost var kept: bool;
        ghost var before := strayed;
        threw, kept := Enter(Split(key, '/'), annotations[key], stored, record.Keys);
        AccountedNext(stored, entered, before, strayed, record.Keys, Split(key, '/'), annotations[key], kept);
        if threw {
          return;
        }
        entered := entered[Split(key, '/') := annotations[key]];
        stored := if kept then stored[Split(key, '/') := annotations[key]] else stored;
        n := n + 1;
      }
      EnteredAll(entered, annotations, order);
      Finish(objects, path, stored, record, strayed);
    }
  }

  /** Everything entered was stored exactly if all of it was ordinary; if so nothing strayed. */
  ghost predicate Accounted(stored: Record, entered: Record, strayed: bool, keys: set<seq<string>>)
  {
    && entered.Keys <= keys
    && (forall k :: k in stored ==> k in entered && stored[k] == entered[k])
    && (entered.Keys <= stored.Keys ==> !strayed)
    && (PrefixFree(keys) ==> (entered.Keys <= stored.Keys <==> forall k :: k in entered ==> Ordinary(k)))
  }

  lemma AccountedNext(stored: Record, entered: Record, before: bool, strayed: bool, keys: set<seq<string>>,
                      key: seq<string>, value: string, kept: bool)
    requires Accounted(stored, entered, before, keys) && key in keys && key !in entered
    requires before ==> strayed
    requires strayed && !before ==> !kept
    requires PrefixFree(keys) && !before ==> (kept <==> Ordinary(key))
    ensures Accounted(if kept then stored[key := value] else stored, entered[key := value], strayed, keys)
    ensures Convertible(keys) ==> kept
  {
    var entered', stored' := entered[key := value], if kept then stored[key := value] else stored;
    assert key in entered';
    if entered'.Keys <= stored'.Keys {
      assert key in stored' && kept;
      forall k | k in entered ensures k in stored {
        assert k in entered'.Keys && k in stored';
      }
    }
    assert kept && entered.Keys <= stored.Keys ==> entered'.Keys <= stored'.Keys;
  }

  /** What is in the heap at the end decides. */
  lemma Finish(h: Heap, path: Paths, stored: Record, record: Record, strayed: bool)
    requires Building(h, path, stored, record.Keys) && Accounted(stored, record, strayed, record.Keys)
    ensures Convertible(record.Keys) <==> Faithful(h, record)
    ensures Convertible(record.Keys) ==> NothingElse(h, record)
  {
    if Convertible(record.Keys) {
      assert stored == record;
      TreeIsFaithful(h, path, record);
    }
    if Faithful(h, record) {
      FaithfulNeedsPrefixFree(h, record);
      forall k | k in record ensures k in stored {
        StringsAreRecorded(h, path, stored, k, record[k]);
      }
    }
  }
}
