/** Nested state values and the persistent-map operations the container relies on
    (`getIn`, `setIn`, shallow `merge`), stated with the semantics of Immutable.js 3. */
module Tree {
  import opened Results

  /** A value held in the state: an Immutable Map keyed by strings, or any other
      JavaScript value, which the container never looks into (an opaque atom). */
  datatype Value = Atom(id: int) | Node(children: map<string, Value>)

  /** The empty Map a new Store starts with. */
  const Empty: Value := Node(map[])

  /** `m.get(k)`, with `None` for a missing key. */
  function Find(m: map<string, Value>, k: string): (r: Option<Value>)
    ensures r.Some? <==> k in m
    ensures r.Some? ==> r.value == m[k]
  {
    if k in m then Some(m[k]) else None
  }

  /** `t.getIn(path, notSet)`: walk the path one key at a time; a missing key, or a
      value that is not a map in the middle of the path, yields `notSet`. */
  function GetIn(t: Value, path: seq<string>, notSet: Value): Value
    decreases path
  {
    if path == [] then t
    else match t
      case Atom(_) => notSet
      case Node(m) => if path[0] in m then GetIn(m[path[0]], path[1..], notSet) else notSet
  }

  /** Every key of `path` is present, each one inside a map. */
  predicate Defined(t: Value, path: seq<string>)
    decreases path
  {
    path == [] || (t.Node? && path[0] in t.children && Defined(t.children[path[0]], path[1..]))
  }

  /** A read through a missing segment yields the default. */
  lemma {:induction false} GetInMissing(t: Value, path: seq<string>, notSet: Value)
    requires !Defined(t, path)
    ensures GetIn(t, path, notSet) == notSet
    decreases path
  {
    if t.Node? && path[0] in t.children {
      GetInMissing(t.children[path[0]], path[1..], notSet);
    }
  }

  /** A read along a present path does not depend on the default. */
  lemma {:induction false} GetInDefined(t: Value, path: seq<string>, d1: Value, d2: Value)
    requires Defined(t, path)
    ensures GetIn(t, path, d1) == GetIn(t, path, d2)
    decreases path
  {
    if path != [] {
      GetInDefined(t.children[path[0]], path[1..], d1, d2);
    }
  }

  /** `setIn` can walk `path` from `existing` (`None` is a missing entry): every value
      met before the last key is a map or is missing. */
  predicate Settable(existing: Option<Value>, path: seq<string>)
    decreases path
  {
    path == [] ||
    match existing
    case None => true
    case Some(Atom(_)) => false
    case Some(Node(m)) => Settable(Find(m, path[0]), path[1..])
  }

  /** `existing.setIn(path, v)`, where `None` is the missing entry of the enclosing map:
      missing maps on the way are created empty, and walking into a value that is not
      a map throws Immutable's "invalid keyPath". */
  function SetIn(existing: Option<Value>, path: seq<string>, v: Value): (r: Result<Value>)
    ensures path == [] ==> r == Success(v)
    ensures r.Success? && path != [] ==> r.value.Node?
    ensures r.Failure? ==> r.error == InvalidKeyPath
    decreases path
  {
    if path == [] then Success(v)
    else if existing.Some? && existing.value.Atom? then Failure(InvalidKeyPath)
    else
      var m := if existing.Some? then existing.value.children else map[];
      match SetIn(Find(m, path[0]), path[1..], v)
      case Failure(e) => Failure(e)
      case Success(c) => Success(Node(m[path[0] := c]))
  }

  /** `setIn` throws exactly when the path runs through a value that is not a map. */
  lemma {:induction false} SetInSucceeds(existing: Option<Value>, path: seq<string>, v: Value)
    ensures SetIn(existing, path, v).Success? <==> Settable(existing, path)
    decreases path
  {
    if path != [] && !(existing.Some? && existing.value.Atom?) {
      var m := if existing.Some? then existing.value.children else map[];
      SetInSucceeds(Find(m, path[0]), path[1..], v);
    }
  }

  /** A missing entry can always be written: every map on the way is created. */
  lemma {:induction false} SetInMissing(path: seq<string>, v: Value)
    ensures SetIn(None, path, v).Success?
    decreases path
  {
    if path != [] {
      SetInMissing(path[1..], v);
    }
  }

  /** Round trip: after a successful `setIn(path, v)`, `getIn(path)` yields `v`. */
  lemma {:induction false} SetInThenGetIn(existing: Option<Value>, path: seq<string>, v: Value, notSet: Value)
    requires SetIn(existing, path, v).Success?
    ensures Defined(SetIn(existing, path, v).value, path)
    ensures GetIn(SetIn(existing, path, v).value, path, notSet) == v
    decreases path
  {
    if path != [] {
      var m := if existing.Some? then existing.value.children else map[];
      SetInThenGetIn(Find(m, path[0]), path[1..], v, notSet);
    }
  }

  /** Two paths that part ways at some position: neither is a prefix of the other. */
  predicate Diverges(p: seq<string>, q: seq<string>)
    decreases p
  {
    p != [] && q != [] && (p[0] != q[0] || Diverges(p[1..], q[1..]))
  }

  /** `getIn(path, notSet)` on an entry that may be missing. */
  function ReadEntry(existing: Option<Value>, path: seq<string>, notSet: Value): Value
  {
    match existing
    case None => notSet
    case Some(t) => GetIn(t, path, notSet)
  }

  /** Frame: `setIn(p, v)` leaves every path that parts ways with `p` reading as before. */
  lemma {:induction false} SetInKeepsOthers(existing: Option<Value>, p: seq<string>, q: seq<string>, v: Value, notSet: Value)
    requires SetIn(existing, p, v).Success?
    requires Diverges(p, q)
    ensures GetIn(SetIn(existing, p, v).value, q, notSet) == ReadEntry(existing, q, notSet)
    decreases p
  {
    var m := if existing.Some? then existing.value.children else map[];
    if p[0] == q[0] {
      SetInKeepsOthers(Find(m, p[0]), p[1..], q[1..], v, notSet);
    }
  }

  /** `slice.merge(data)`: a shallow merge in which `data` wins on shared keys; a
      missing slice or one that is not a map has no `merge` and throws. */
  function Merged(slice: Option<Value>, data: map<string, Value>): (r: Result<Value>)
    ensures r.Success? <==> slice.Some? && slice.value.Node?
    ensures r.Failure? ==> r.error == NotAMap
    ensures r.Success? ==> r.value.Node? && r.value.children.Keys == slice.value.children.Keys + data.Keys
    ensures r.Success? ==> forall k :: k in data ==> r.value.children[k] == data[k]
    ensures r.Success? ==> forall k :: k in slice.value.children && k !in data ==>
              r.value.children[k] == slice.value.children[k]
  {
    if slice.Some? && slice.value.Node? then Success(Node(slice.value.children + data))
    else Failure(NotAMap)
  }
}
