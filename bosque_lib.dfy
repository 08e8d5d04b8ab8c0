/** The older container (lib/index.js, a compiled build): every write emits the
    state-change event at once, `destroyStore` is unconditional and returns nothing, and
    stores have no subscriber lists. The closure returned by `bosque()` is the class
    `Bosque`. */
module BosqueLib {
  import opened Results
  import opened Tree
  import opened GlobalState
  import opened Emitter

  /** The first argument of `Store.set`: an updater function or a single key. */
  datatype SetArg = Updater(f: Option<Value> -> Value) | Key(key: string)

  /** The new slice `set(arg, value)` computes from the old one (`None` when the store's
      name is not a key of the state): the updater's result, or the old slice with
      `value` written under the one key. */
  function Written(slice: Option<Value>, arg: SetArg, value: Value): (r: Result<Value>)
    ensures arg.Updater? ==> r == Success(arg.f(slice))
    ensures arg.Key? ==> (r.Failure? <==> slice.Some? && slice.value.Atom?)
    ensures arg.Key? && r.Success? ==> r.value.Node? && arg.key in r.value.children && r.value.children[arg.key] == value
    ensures arg.Key? && r.Success? && slice.Some? ==>
      forall k :: k in slice.value.children && k != arg.key ==> k in r.value.children && r.value.children[k] == slice.value.children[k]
    ensures arg.Key? && r.Success? ==>
      r.value.children.Keys == (if slice.Some? then slice.value.children.Keys else {}) + {arg.key}
  {
    match arg
    case Updater(f) => Success(f(slice))
    case Key(k) =>
      assert [k][1..] == [];
      SetIn(slice, [k], value)
  }

  /** The state-change emission repeated `n` times, as `n` synchronous writes make it. */
  function Repeated(emission: seq<Call<Store>>, n: nat): seq<Call<Store>>
  {
    if n == 0 then [] else Repeated(emission, n - 1) + emission
  }

  /** The closure `bosque()`: the state map, the store registry, the event bus, the
      symbol counter, and the trace of calls into user code. */
  class Bosque {
    var state: map<string, Value>
    var storeRegistry: map<string, Store>
    var listeners: map<EventKey, seq<Listener<Store>>>
    var nextSymbol: nat
    ghost var trace: seq<Call<Store>>

    /** Every registered store has a state entry, is registered under its own name and
        belongs to this container. */
    ghost predicate Valid()
      reads this
    {
      storeRegistry.Keys <= state.Keys &&
      (forall n :: n in storeRegistry ==> storeRegistry[n].name == n && storeRegistry[n].owner == this)
    }

    constructor ()
      ensures Valid()
      ensures state == map[] && storeRegistry == map[] && listeners == map[] && trace == []
    {
      state := map[];
      storeRegistry := map[];
      listeners := map[];
      nextSymbol := 0;
      trace := [];
    }

    /** `makeActions(...labels)`: one fresh symbol per label. */
    method MakeActions(labels: seq<string>) returns (actions: map<string, Token>)
      requires Valid()
      modifies this`nextSymbol
      ensures Valid()
      ensures actions == Mint(labels, old(nextSymbol)) && nextSymbol == old(nextSymbol) + |labels|
      ensures forall l :: l in actions ==> old(nextSymbol) <= actions[l].id < nextSymbol
    {
      actions := Mint(labels, nextSymbol);
      nextSymbol := nextSymbol + |labels|;
    }

    /** `onStateChange(cb)`. */
    method OnStateChange(cb: CallbackId)
      requires Valid()
      modifies this`listeners
      ensures Valid()
      ensures listeners == Registered(old(listeners), StateChange, Raw(cb))
    {
      listeners := Registered(listeners, StateChange, Raw(cb));
    }

    /** `dispatch(action, payload, target)`: a truthy target that is not a key of the
        state throws before any listener runs; otherwise the action is emitted. */
    method Dispatch(action: Token, payload: Payload, target: Option<string>) returns (r: Outcome)
      requires Valid()
      modifies this`trace
      ensures Valid()
      ensures r.Fail? <==> TargetMissing(state, target)
      ensures r.Fail? ==> r.error == TargetNotFound(target.value) && trace == old(trace)
      ensures r.Pass? ==> trace == old(trace) + Emit(ListenersOf(listeners, Action(action)), Action(action), payload, target)
    {
      if TargetMissing(state, target) {
        r := Fail(TargetNotFound(target.value));
      } else {
        trace := trace + Emit(ListenersOf(listeners, Action(action)), Action(action), payload, target);
        r := Pass;
      }
    }

    /** `getStore(name)`. */
    function GetStore(name: string): (r: Option<Store>)
      requires Valid()
      reads this
      ensures r.Some? <==> name in storeRegistry
      ensures r.Some? ==> r.value.name == name && r.value.owner == this
    {
      if name in storeRegistry then Some(storeRegistry[name]) else None
    }

    /** `destroyStore(name)`: the name leaves both maps, whether it was there or not. */
    method DestroyStore(name: string)
      requires Valid()
      modifies this`state, this`storeRegistry
      ensures Valid()
      ensures state == old(state) - {name} && storeRegistry == old(storeRegistry) - {name}
      ensures name !in old(state) ==> state == old(state) && storeRegistry == old(storeRegistry)
    {
      state := state - {name};
      storeRegistry := storeRegistry - {name};
    }

    /** `hydrate(x)`: a shallow merge of `x` into the state, `x` winning. */
    method Hydrate(x: map<string, Value>)
      requires Valid()
      modifies this`state
      ensures Valid()
      ensures state.Keys == old(state).Keys + x.Keys
      ensures forall n :: n in x ==> state[n] == x[n]
      ensures forall n :: n in old(state) && n !in x ==> state[n] == old(state)[n]
    {
      state := state + x;
    }

    /** `getState()`: the persistent state map itself. */
    function GetState(): (r: map<string, Value>)
      reads this
      ensures forall n :: n in r <==> n in state
      ensures forall n :: n in r ==> r[n] == state[n]
    {
      state
    }

    /** `new Store(name)`: throws when the name is already a key of the state; otherwise
        a fresh store, registered, with an empty slice. */
    method NewStore(name: string) returns (r: Result<Store>)
      requires Valid()
      modifies this`state, this`storeRegistry
      ensures Valid()
      ensures r.Failure? <==> name in old(state)
      ensures r.Failure? ==> r.error == NameConflict(name) && state == old(state) && storeRegistry == old(storeRegistry)
      ensures r.Success? ==> fresh(r.value) && r.value.name == name && r.value.owner == this && r.value.initialData.None?
      ensures r.Success? ==> state == old(state)[name := Empty] && storeRegistry == old(storeRegistry)[name := r.value]
    {
      if name in state {
        return Failure(NameConflict(name));
      }
      var s := new Store(this, name);
      r := Success(s);
    }
  }

  /** A named slice of the state. */
  class Store {
    const owner: Bosque
    const name: string
    var initialData: Option<map<string, Value>>

    /** The part of `new Store(name)` past the name check: register the store and give
        it an empty slice. */
    constructor (owner: Bosque, name: string)
      requires owner.Valid() && name !in owner.state
      modifies owner`state, owner`storeRegistry
      ensures this.owner == owner && this.name == name && initialData.None?
      ensures owner.Valid()
      ensures owner.state == old(owner.state)[name := Empty]
      ensures owner.storeRegistry == old(owner.storeRegistry)[name := this]
    {
      this.owner := owner;
      this.name := name;
      initialData := None;
      new;
      owner.storeRegistry := owner.storeRegistry[name := this];
      owner.state := owner.state[name := Empty];
    }

    /** `getName()`. */
    function GetName(): (r: string)
      ensures r == name
    {
      name
    }

    /** `get(path, defaultValue)`: throws unless the path is a string or an array; reads
        `[name, ...path]` in the state, the default standing for any missing segment. */
    function Get(path: PathArg, notSet: Value): (r: Result<Value>)
      reads owner
      ensures r == Read(owner.state, name, path, notSet)
    {
      Read(owner.state, name, path, notSet)
    }

    /** Store the new slice and emit the state-change event before returning. */
    method Commit(slice: Value)
      requires owner.Valid()
      modifies owner`state, owner`trace
      ensures owner.Valid()
      ensures owner.state == old(owner.state)[name := slice]
      ensures owner.trace == old(owner.trace) + StateChangeEmission(owner.listeners)
    {
      owner.state := owner.state[name := slice];
      owner.trace := owner.trace + StateChangeEmission(owner.listeners);
    }

    /** `set(arg, value)`: replace this store's slice by the updater's result, or write
        `value` under one key of it; no other slice changes, and the state-change event
        is emitted exactly once before returning. */
    method Set(arg: SetArg, value: Value) returns (r: Outcome)
      requires owner.Valid()
      modifies owner`state, owner`trace
      ensures owner.Valid()
      ensures r.Fail? <==> Written(Find(old(owner.state), name), arg, value).Failure?
      ensures r.Fail? ==> r.error == InvalidKeyPath && owner.state == old(owner.state) && owner.trace == old(owner.trace)
      ensures r.Pass? ==> owner.state == old(owner.state)[name := Written(Find(old(owner.state), name), arg, value).value]
      ensures r.Pass? ==> forall other :: other != name ==> Find(owner.state, other) == Find(old(owner.state), other)
      ensures r.Pass? && arg.Updater? ==> owner.state[name] == arg.f(Find(old(owner.state), name))
      ensures r.Pass? && arg.Key? ==> forall d :: Read(owner.state, name, Str(arg.key), d) == Success(value)
      ensures r.Pass? ==> owner.trace == old(owner.trace) + StateChangeEmission(owner.listeners)
    {
      var slice := Written(Find(owner.state, name), arg, value);
      if slice.Failure? {
        return Fail(slice.error);
      }
      if arg.Key? {
        forall d {
          WriteThenRead(owner.state, name, [arg.key], value, d);
        }
      }
      Commit(slice.value);
      r := Pass;
    }

    /** `addListener(action, handler)`: the handler runs on every dispatch of the action,
        bound to this store, with the payload only. */
    method AddListener(action: Token, handler: CallbackId)
      requires owner.Valid()
      modifies owner`listeners
      ensures owner.Valid()
      ensures owner.listeners == Registered(old(owner.listeners), Action(action), Plain(handler, this))
    {
      owner.listeners := Registered(owner.listeners, Action(action), Plain(handler, this));
    }

    /** `addTargetedListener(action, handler)`: as `addListener`, but the wrapper lets the
        handler run only when the dispatch names this store. */
    method AddTargetedListener(action: Token, handler: CallbackId)
      requires owner.Valid()
      modifies owner`listeners
      ensures owner.Valid()
      ensures owner.listeners == Registered(old(owner.listeners), Action(action), Targeted(handler, this, name))
    {
      owner.listeners := Registered(owner.listeners, Action(action), Targeted(handler, this, name));
    }

    /** `setInitialData(data)`: on the first call with data, remember it and merge it into
        the slice through `set`; any other call changes nothing. */
    method SetInitialData(data: Option<map<string, Value>>) returns (r: Outcome)
      requires owner.Valid()
      modifies this`initialData, owner`state, owner`trace
      ensures owner.Valid()
      ensures initialData == if data.Some? && old(initialData).None? then data else old(initialData)
      ensures !(data.Some? && old(initialData).None?) ==>
        r == Pass && owner.state == old(owner.state) && owner.trace == old(owner.trace)
      ensures data.Some? && old(initialData).None? ==>
        var merged := Merged(Find(old(owner.state), name), data.value);
        (merged.Failure? ==> r == Fail(NotAMap) && owner.state == old(owner.state) && owner.trace == old(owner.trace)) &&
        (merged.Success? ==> r == Pass && owner.state == old(owner.state)[name := merged.value] &&
                             owner.trace == old(owner.trace) + StateChangeEmission(owner.listeners))
    {
      if data.Some? && initialData.None? {
        initialData := data;
        var merged := Merged(Find(owner.state, name), data.value);
        if merged.Failure? {
          return Fail(merged.error);
        }
        Commit(merged.value);
      }
      r := Pass;
    }
  }

  // Client methods: what callers can prove from the contracts above.

  /** `n` writes emit the state-change event `n` times, one emission per write. */
  method SynchronousWrites(b: Bosque, s: Store, updates: seq<Option<Value> -> Value>)
    requires b.Valid() && s.owner == b
    modifies b
    ensures b.Valid()
    ensures b.trace == old(b.trace) + Repeated(StateChangeEmission(b.listeners), |updates|)
  {
    ghost var emission := StateChangeEmission(b.listeners);
    var i := 0;
    while i < |updates|
      invariant 0 <= i <= |updates|
      invariant b.Valid() && b.listeners == old(b.listeners)
      invariant b.trace == old(b.trace) + Repeated(emission, i)
    {
      var written := s.Set(Updater(updates[i]), Atom(0));
      i := i + 1;
    }
  }

  /** Destroying a store twice is the same as destroying it once. */
  method DestroyTwice(b: Bosque, name: string)
    requires b.Valid()
    modifies b
    ensures b.Valid()
    ensures b.state == old(b.state) - {name} && b.storeRegistry == old(b.storeRegistry) - {name}
  {
    b.DestroyStore(name);
    b.DestroyStore(name);
  }
}
