/** The process-wide state map (store name to slice) and the reads and checks that
    both versions of the container perform on it in the same way. */
module GlobalState {
  import opened Results
  import opened Tree

  /** The first argument of `Store.get`: a string, an array of keys, or anything else. */
  datatype PathArg = Str(key: string) | Arr(keys: seq<string>) | NotAPath

  /** `state.getIn([name, ...path], notSet)`. */
  function Lookup(state: map<string, Value>, name: string, path: seq<string>, notSet: Value): Value
  {
    GetIn(Node(state), [name] + path, notSet)
  }

  /** A lookup reads the named slice, and a missing store reads as the default. */
  lemma LookupSlice(state: map<string, Value>, name: string, path: seq<string>, notSet: Value)
    ensures Lookup(state, name, path, notSet) == ReadEntry(Find(state, name), path, notSet)
  {
    assert ([name] + path)[1..] == path;
  }

  /** `Store.get(path, defaultValue)` of the store called `name`. */
  function Read(state: map<string, Value>, name: string, path: PathArg, notSet: Value): (r: Result<Value>)
    ensures r.Failure? <==> path.NotAPath?
    ensures r.Failure? ==> r.error == InvalidPath
    ensures r.Success? && name !in state ==> r.value == notSet
  {
    match path
    case NotAPath => Failure(InvalidPath)
    case Str(k) =>
      LookupSlice(state, name, [k], notSet);
      Success(Lookup(state, name, [k], notSet))
    case Arr(keys) =>
      LookupSlice(state, name, keys, notSet);
      Success(Lookup(state, name, keys, notSet))
  }

  /** A string key reads exactly like the one-element array holding it. */
  lemma StringPathIsSingleton(state: map<string, Value>, name: string, k: string, notSet: Value)
    ensures Read(state, name, Str(k), notSet) == Read(state, name, Arr([k]), notSet)
  {
  }

  /** Any missing segment (the store itself included) reads as the default. */
  lemma ReadMissing(state: map<string, Value>, name: string, keys: seq<string>, notSet: Value)
    requires !Defined(Node(state), [name] + keys)
    ensures Read(state, name, Arr(keys), notSet) == Success(notSet)
  {
    GetInMissing(Node(state), [name] + keys, notSet);
  }

  /** Writing `v` at `keys` in the slice of `name`, then reading the same keys, yields
      `v`; every other store reads as before. */
  lemma {:induction false} WriteThenRead(state: map<string, Value>, name: string, keys: seq<string>, v: Value, notSet: Value)
    requires SetIn(Find(state, name), keys, v).Success?
    ensures Read(state[name := SetIn(Find(state, name), keys, v).value], name, Arr(keys), notSet) == Success(v)
    ensures forall other, q :: other != name ==>
      Lookup(state[name := SetIn(Find(state, name), keys, v).value], other, q, notSet) == Lookup(state, other, q, notSet)
  {
    var slice := SetIn(Find(state, name), keys, v).value;
    LookupSlice(state[name := slice], name, keys, notSet);
    SetInThenGetIn(Find(state, name), keys, v, notSet);
    forall other, q | other != name
      ensures Lookup(state[name := slice], other, q, notSet) == Lookup(state, other, q, notSet)
    {
      LookupSlice(state[name := slice], other, q, notSet);
      LookupSlice(state, other, q, notSet);
    }
  }

  /** JavaScript truthiness of the optional target name of a dispatch. */
  predicate Truthy(target: Option<string>)
  {
    target.Some? && target.value != ""
  }

  /** The dispatch guard: a truthy target that is not a key of the state (not of the
      registry, so names brought in by `hydrate` pass). */
  predicate TargetMissing(state: map<string, Value>, target: Option<string>)
  {
    Truthy(target) && target.value !in state
  }
}
