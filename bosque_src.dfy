/** The current container (src/index.js): writes are batched into one deferred
    state-change notification, and stores keep ordered subscriber lists. The closure
    returned by `bosque()` is the class `Bosque`, whose fields are the closure's
    variables; the deferred timer callback is run by an explicit `Tick`. */
module BosqueSrc {
  import opened Results
  import opened Tree
  import opened GlobalState
  import opened Emitter

  /** A subscriber record: the subscriber's identity and the function that notifies it,
      `None` when it is undefined (the configured default was missing). */
  datatype Subscription = Subscription(subscriber: SubscriberId, func: Option<Notifier>)

  /** The configuration object that `configBosque` replaces wholesale. A settings object
      without `defaultSubscriberFunc` leaves it undefined (`None`); a missing flag reads
      as `false`. */
  datatype Config = Config(defaultSubscriberFunc: Option<Notifier>, createGetters: bool, createSetters: bool)

  /** Whether `setInitialData` defines accessor properties on the store. */
  predicate DefinesAccessors(c: Config)
  {
    c.createGetters || c.createSetters
  }

  /** The notify function `subscribe` records: the one given, or the configured default. */
  function NotifierOf(func: Option<CallbackId>, c: Config): Option<Notifier>
  {
    if func.Some? then Some(Custom(func.value)) else c.defaultSubscriberFunc
  }

  /** The first argument of `Store.set`: an updater function, an array key path, or a single key. */
  datatype SetArg = Updater(f: Option<Value> -> Value) | KeyPath(keys: seq<string>) | Key(key: string)

  /** The key path a non-updater `set` writes under the store's slice. */
  function KeysOf(arg: SetArg): (r: seq<string>)
    requires !arg.Updater?
    ensures arg.Key? ==> r == [arg.key]
  {
    if arg.KeyPath? then arg.keys else [arg.key]
  }

  /** The new slice `set(arg, value)` computes from the old one (`None` when the store's
      name is not a key of the state): the updater's result, or the old slice with
      `value` written at the key path. */
  function Written(slice: Option<Value>, arg: SetArg, value: Value): (r: Result<Value>)
    ensures arg.Updater? ==> r == Success(arg.f(slice))
    ensures !arg.Updater? ==> (r.Success? <==> Settable(slice, KeysOf(arg)))
    ensures !arg.Updater? && r.Success? ==>
      Defined(r.value, KeysOf(arg)) && forall d :: GetIn(r.value, KeysOf(arg), d) == value
    ensures !arg.Updater? && r.Success? ==>
      forall q, d :: Diverges(KeysOf(arg), q) ==> GetIn(r.value, q, d) == ReadEntry(slice, q, d)
  {
    match arg
    case Updater(f) => Success(f(slice))
    case _ =>
      var keys := KeysOf(arg);
      SetInSucceeds(slice, keys, value);
      var r := SetIn(slice, keys, value);
      if r.Success? then
        assert Defined(r.value, keys) && forall d :: GetIn(r.value, keys, d) == value by {
          forall d ensures Defined(r.value, keys) && GetIn(r.value, keys, d) == value {
            SetInThenGetIn(slice, keys, value, d);
          }
          SetInThenGetIn(slice, keys, value, value);
        }
        assert forall q, d :: Diverges(keys, q) ==> GetIn(r.value, q, d) == ReadEntry(slice, q, d) by {
          forall q, d | Diverges(keys, q) ensures GetIn(r.value, q, d) == ReadEntry(slice, q, d) {
            SetInKeepsOthers(slice, keys, q, value, d);
          }
        }
        r
      else r
  }

  /** `subscribers.filterNot(sub => sub.subscriber === s)`. */
  function Unsubscribed(subs: seq<Subscription>, s: SubscriberId): (r: seq<Subscription>)
    ensures |r| <= |subs|
    ensures forall i :: 0 <= i < |r| ==> r[i].subscriber != s
  {
    if subs == [] then []
    else if subs[0].subscriber == s then Unsubscribed(subs[1..], s)
    else [subs[0]] + Unsubscribed(subs[1..], s)
  }

  /** A record survives `unsubscribe(s)` exactly when it was there and is not for `s`. */
  lemma {:induction false} UnsubscribedMembers(subs: seq<Subscription>, s: SubscriberId)
    ensures forall x :: x in Unsubscribed(subs, s) <==> x in subs && x.subscriber != s
  {
    if subs != [] {
      UnsubscribedMembers(subs[1..], s);
      assert subs == [subs[0]] + subs[1..];
    }
  }

  /** The surviving records keep their order: removal distributes over concatenation. */
  lemma {:induction false} UnsubscribedAppend(a: seq<Subscription>, b: seq<Subscription>, s: SubscriberId)
    ensures Unsubscribed(a + b, s) == Unsubscribed(a, s) + Unsubscribed(b, s)
  {
    if a == [] {
      assert a + b == b;
    } else {
      assert (a + b)[0] == a[0] && (a + b)[1..] == a[1..] + b;
      UnsubscribedAppend(a[1..], b, s);
    }
  }

  /** Unsubscribing someone with no record changes nothing. */
  lemma {:induction false} UnsubscribedAbsent(subs: seq<Subscription>, s: SubscriberId)
    requires forall i :: 0 <= i < |subs| ==> subs[i].subscriber != s
    ensures Unsubscribed(subs, s) == subs
  {
    if subs != [] {
      UnsubscribedAbsent(subs[1..], s);
    }
  }

  /** Unsubscribing twice is the same as unsubscribing once. */
  lemma {:induction false} UnsubscribedIdempotent(subs: seq<Subscription>, s: SubscriberId)
    ensures Unsubscribed(Unsubscribed(subs, s), s) == Unsubscribed(subs, s)
  {
    UnsubscribedAbsent(Unsubscribed(subs, s), s);
  }

  /** Every subscriber has a notify function. */
  predicate AllCallable(subs: seq<Subscription>)
  {
    forall i :: 0 <= i < |subs| ==> subs[i].func.Some?
  }

  /** The calls the deferred callback makes to the subscribers: each one's notify
      function, once, in subscription order, up to the first subscriber whose function
      is undefined, where calling it throws and ends the callback. */
  function Notifications(subs: seq<Subscription>): (r: seq<Call<Store>>)
    ensures |r| <= |subs|
    ensures forall i :: 0 <= i < |r| ==> subs[i].func.Some? && r[i] == Refreshed(subs[i].func.value, subs[i].subscriber)
    ensures |r| < |subs| ==> subs[|r|].func.None?
    ensures |r| == |subs| <==> AllCallable(subs)
  {
    if subs == [] then []
    else if subs[0].func.None? then []
    else [Refreshed(subs[0].func.value, subs[0].subscriber)] + Notifications(subs[1..])
  }

  /** The closure `bosque()`: the state map, the store registry, the event bus, the
      pending-emission flag, the store whose write scheduled a timer callback that has
      not fired yet, the configuration, the symbol counter, and the trace of calls into user code. */
  class Bosque {
    var state: map<string, Value>
    var storeRegistry: map<string, Store>
    var listeners: map<EventKey, seq<Listener<Store>>>
    var isPendingEmit: bool
    var pending: Option<Store>
    var config: Config
    var nextSymbol: nat
    ghost var trace: seq<Call<Store>>

    /** Every registered store has a state entry, is registered under its own name and
        belongs to this container; a timer is scheduled only while the flag is set (the
        flag can outlive it when the callback throws). */
    ghost predicate Valid()
      reads this
    {
      storeRegistry.Keys <= state.Keys &&
      (forall n :: n in storeRegistry ==> storeRegistry[n].name == n && storeRegistry[n].owner == this) &&
      (pending.Some? ==> isPendingEmit) &&
      (pending.Some? ==> pending.value.owner == this)
    }

    constructor ()
      ensures Valid()
      ensures state == map[] && storeRegistry == map[] && listeners == map[]
      ensures !isPendingEmit && config == Config(Some(ForceUpdateIfPresent), true, true)
      ensures trace == []
    {
      state := map[];
      storeRegistry := map[];
      listeners := map[];
      isPendingEmit := false;
      pending := None;
      config := Config(Some(ForceUpdateIfPresent), true, true);
      nextSymbol := 0;
      trace := [];
    }

    /** `makeActions(...labels)`: one fresh symbol per label. */
    method MakeActions(labels: seq<string>) returns (actions: map<string, Token>)
      requires Valid()
      modifies this`nextSymbol
      ensures Valid()
      ensures actions == Mint(labels, old(nextSymbol)) && nextSymbol == old(nextSymbol) + |labels|
      ensures forall l :: l in actions ==> old(nextSymbol) <= actions[l].id < nextSymbol
    {
      actions := Mint(labels, nextSymbol);
      nextSymbol := nextSymbol + |labels|;
    }

    /** `addStateChangeListener(cb)`. */
    method AddStateChangeListener(cb: CallbackId)
      requires Valid()
      modifies this`listeners
      ensures Valid()
      ensures listeners == Registered(old(listeners), StateChange, Raw(cb))
    {
      listeners := Registered(listeners, StateChange, Raw(cb));
    }

    /** `removeStateChangeListener(cb)`, which registers the callback once more instead
        of removing it. */
    method RemoveStateChangeListener(cb: CallbackId)
      requires Valid()
      modifies this`listeners
      ensures Valid()
      ensures ListenersOf(listeners, StateChange) == ListenersOf(old(listeners), StateChange) + [Raw(cb)]
      ensures forall k :: k != StateChange ==> ListenersOf(listeners, k) == ListenersOf(old(listeners), k)
    {
      listeners := Registered(listeners, StateChange, Raw(cb));
    }

    /** `removeStateChangeListener(cb)` as its name promises: every registration of `cb`
        for the state-change event is dropped, so the next emission does not call it. */
    method RemoveStateChangeListenerIntended(cb: CallbackId)
      requires Valid()
      modifies this`listeners
      ensures Valid()
      ensures listeners == old(listeners)[StateChange := Withdrawn(ListenersOf(old(listeners), StateChange), cb)]
      ensures Notified(cb) !in StateChangeEmission(listeners)
    {
      listeners := listeners[StateChange := Withdrawn(ListenersOf(listeners, StateChange), cb)];
      WithdrawnNotCalled(ListenersOf(old(listeners), StateChange), cb, Undefined, None);
    }

    /** `dispatch(action, payload, target)`: a truthy target that is not a key of the
        state throws before any listener runs; otherwise the action is emitted. */
    method Dispatch(action: Token, payload: Payload, target: Option<string>) returns (r: Outcome)
      requires Valid()
      modifies this`trace
      ensures Valid()
      ensures r.Fail? <==> TargetMissing(state, target)
      ensures r.Fail? ==> r.error == TargetNotFound(target.value) && trace == old(trace)
      ensures r.Pass? ==> trace == old(trace) + Emit(ListenersOf(listeners, Action(action)), Action(action), payload, target)
    {
      if TargetMissing(state, target) {
        r := Fail(TargetNotFound(target.value));
      } else {
        trace := trace + Emit(ListenersOf(listeners, Action(action)), Action(action), payload, target);
        r := Pass;
      }
    }

    /** `getStore(name)`. */
    function GetStore(name: string): (r: Option<Store>)
      requires Valid()
      reads this
      ensures r.Some? <==> name in storeRegistry
      ensures r.Some? ==> r.value.name == name && r.value.owner == this
    {
      if name in storeRegistry then Some(storeRegistry[name]) else None
    }

    /** `destroyStore(name)`: false and no change when the name is not a key of the
        state; otherwise the name leaves both maps and the result is true. */
    method DestroyStore(name: string) returns (existed: bool)
      requires Valid()
      modifies this`state, this`storeRegistry
      ensures Valid()
      ensures existed <==> name in old(state)
      ensures !existed ==> state == old(state) && storeRegistry == old(storeRegistry)
      ensures existed ==> state == old(state) - {name} && storeRegistry == old(storeRegistry) - {name}
      ensures name !in state && name !in storeRegistry
    {
      if name !in state {
        return false;
      }
      state := state - {name};
      storeRegistry := storeRegistry - {name};
      existed := true;
    }

    /** `hydrate(x)`: a shallow merge of `x` into the state, `x` winning. */
    method Hydrate(x: map<string, Value>)
      requires Valid()
      modifies this`state
      ensures Valid()
      ensures state.Keys == old(state).Keys + x.Keys
      ensures forall n :: n in x ==> state[n] == x[n]
      ensures forall n :: n in old(state) && n !in x ==> state[n] == old(state)[n]
    {
      state := state + x;
    }

    /** `getState()`: the state as a plain object of store name to slice. */
    function GetState(): (r: map<string, Value>)
      reads this
      ensures forall n :: n in r <==> n in state
      ensures forall n :: n in r ==> r[n] == state[n]
    {
      state
    }

    /** `configBosque(settings)`: replaces the configuration wholesale. */
    method ConfigBosque(settings: Config)
      requires Valid()
      modifies this`config
      ensures Valid()
      ensures config == settings
    {
      config := settings;
    }

    /** `new Store(name)`: throws when the name is already a key of the state (a name
        brought in by `hydrate` included); otherwise a fresh store, registered, with an
        empty slice. */
    method NewStore(name: string) returns (r: Result<Store>)
      requires Valid()
      modifies this`state, this`storeRegistry
      ensures Valid()
      ensures r.Failure? <==> name in old(state)
      ensures r.Failure? ==> r.error == NameConflict(name) && state == old(state) && storeRegistry == old(storeRegistry)
      ensures r.Success? ==> fresh(r.value) && r.value.name == name && r.value.owner == this
      ensures r.Success? ==> r.value.subscribers == [] && r.value.initialData.None? && r.value.accessors == {}
      ensures r.Success? ==> state == old(state)[name := Empty] && storeRegistry == old(storeRegistry)[name := r.value]
    {
      if name in state {
        return Failure(NameConflict(name));
      }
      var s := new Store(this, name);
      r := Success(s);
    }

    /** The deferred callback, run when the timer fires: one state-change emission, then
        each subscriber of the store whose write scheduled it, read now, in subscription
        order; then the flag is cleared. A subscriber whose notify function is undefined
        makes the callback throw before the flag is cleared, so it stays set and no later
        write schedules a callback again. With no timer scheduled nothing happens. */
    method Tick() returns (r: Outcome)
      requires Valid()
      modifies this`trace, this`isPendingEmit, this`pending
      ensures Valid()
      ensures pending.None?
      ensures old(pending).None? ==> r == Pass && trace == old(trace) && isPendingEmit == old(isPendingEmit)
      ensures old(pending).Some? ==>
        trace == old(trace) + StateChangeEmission(listeners) + Notifications(old(pending).value.subscribers)
      ensures r.Fail? <==> old(pending).Some? && !AllCallable(old(pending).value.subscribers)
      ensures r.Fail? ==> r.error == NotCallable && isPendingEmit
      ensures old(pending).Some? && r.Pass? ==> !isPendingEmit
    {
      if pending.None? {
        return Pass;
      }
      var s := pending.value;
      pending := None;
      trace := trace + StateChangeEmission(listeners);
      ghost var emitted := trace;
      var subs := s.subscribers;
      ghost var calls := Notifications(subs);
      var i := 0;
      while i < |subs| && subs[i].func.Some?
        invariant 0 <= i <= |calls|
        invariant trace == emitted + calls[..i]
        invariant isPendingEmit && pending.None?
      {
        assert calls[..i + 1] == calls[..i] + [calls[i]];
        trace := trace + [Refreshed(subs[i].func.value, subs[i].subscriber)];
        i := i + 1;
      }
      assert i == |calls|;
      assert calls[..i] == calls;
      if i < |subs| {
        return Fail(NotCallable);
      }
      isPendingEmit := false;
      r := Pass;
    }
  }

  /** Adding a state-change listener and then "removing" it leaves it registered twice,
      so the next emission calls it twice instead of not at all. */
  lemma RemoveAfterAddCallsTwice(cb: CallbackId)
    ensures var none: map<EventKey, seq<Listener<Store>>> := map[];
            var added := Registered(none, StateChange, Raw(cb));
            var removed := Registered(added, StateChange, Raw(cb));
            StateChangeEmission(removed) == [Emitted(StateChange), Notified(cb), Notified(cb)]
  {
    var ls: seq<Listener<Store>> := [Raw(cb), Raw(cb)];
    assert Selected(ls[1..], None) == [Raw(cb)];
    assert Selected(ls, None) == ls;
    assert CallsOf(ls, Undefined) == [Notified(cb), Notified(cb)];
  }

  /** A named slice of the state, with its subscribers. */
  class Store {
    const owner: Bosque
    const name: string
    var initialData: Option<map<string, Value>>
    var subscribers: seq<Subscription>
    var accessors: set<string>  // the keys `setInitialData` has defined accessor properties for

    /** The part of `new Store(name)` past the name check: register the store and give
        it an empty slice. */
    constructor (owner: Bosque, name: string)
      requires owner.Valid() && name !in owner.state
      modifies owner`state, owner`storeRegistry
      ensures this.owner == owner && this.name == name
      ensures initialData.None? && subscribers == [] && accessors == {}
      ensures owner.Valid()
      ensures owner.state == old(owner.state)[name := Empty]
      ensures owner.storeRegistry == old(owner.storeRegistry)[name := this]
    {
      this.owner := owner;
      this.name := name;
      initialData := None;
      subscribers := [];
      accessors := {};
      new;
      owner.storeRegistry := owner.storeRegistry[name := this];
      owner.state := owner.state[name := Empty];
    }

    /** `getName()`. */
    function GetName(): (r: string)
      ensures r == name
    {
      name
    }

    /** `get(path, defaultValue)`: throws unless the path is a string or an array; reads
        `[name, ...path]` in the state, the default standing for any missing segment. */
    function Get(path: PathArg, notSet: Value): (r: Result<Value>)
      reads owner
      ensures r == Read(owner.state, name, path, notSet)
    {
      Read(owner.state, name, path, notSet)
    }

    /** Store the new slice and, unless a callback is already pending, schedule one
        that closes over this store. */
    method Commit(slice: Value)
      requires owner.Valid()
      modifies owner`state, owner`isPendingEmit, owner`pending
      ensures owner.Valid()
      ensures owner.state == old(owner.state)[name := slice]
      ensures owner.isPendingEmit
      ensures owner.pending == if old(owner.isPendingEmit) then old(owner.pending) else Some(this)
    {
      owner.state := owner.state[name := slice];
      if owner.isPendingEmit {
        return;
      }
      owner.isPendingEmit := true;
      owner.pending := Some(this);
    }

    /** `set(arg, value)`: replace this store's slice by the updater's result, or write
        `value` at a key path inside it; no other slice changes, no listener, handler or
        notify function runs now, and at most one notification is pending. */
    method Set(arg: SetArg, value: Value) returns (r: Outcome)
      requires owner.Valid()
      modifies owner`state, owner`isPendingEmit, owner`pending
      ensures owner.Valid()
      ensures r.Fail? <==> Written(Find(old(owner.state), name), arg, value).Failure?
      ensures r.Fail? ==> r.error == InvalidKeyPath && owner.state == old(owner.state)
      ensures r.Fail? ==> owner.isPendingEmit == old(owner.isPendingEmit) && owner.pending == old(owner.pending)
      ensures r.Pass? ==> owner.state == old(owner.state)[name := Written(Find(old(owner.state), name), arg, value).value]
      ensures r.Pass? ==> forall other :: other != name ==> Find(owner.state, other) == Find(old(owner.state), other)
      ensures r.Pass? && arg.Updater? ==> owner.state[name] == arg.f(Find(old(owner.state), name))
      ensures r.Pass? && !arg.Updater? ==> forall d :: Read(owner.state, name, Arr(KeysOf(arg)), d) == Success(value)
      ensures r.Pass? ==> owner.isPendingEmit
      ensures r.Pass? ==> owner.pending == if old(owner.isPendingEmit) then old(owner.pending) else Some(this)
      ensures owner.trace == old(owner.trace)
    {
      var slice := Written(Find(owner.state, name), arg, value);
      if slice.Failure? {
        return Fail(slice.error);
      }
      if !arg.Updater? {
        forall d {
          WriteThenRead(owner.state, name, KeysOf(arg), value, d);
        }
      }
      Commit(slice.value);
      r := Pass;
    }

    /** `addListener(action, handler)`: the handler runs on every dispatch of the action,
        bound to this store, with the payload only. */
    method AddListener(action: Token, handler: CallbackId)
      requires owner.Valid()
      modifies owner`listeners
      ensures owner.Valid()
      ensures owner.listeners == Registered(old(owner.listeners), Action(action), Plain(handler, this))
    {
      owner.listeners := Registered(owner.listeners, Action(action), Plain(handler, this));
    }

    /** `addTargetedListener(action, handler)`: as `addListener`, but the wrapper lets the
        handler run only when the dispatch names this store. */
    method AddTargetedListener(action: Token, handler: CallbackId)
      requires owner.Valid()
      modifies owner`listeners
      ensures owner.Valid()
      ensures owner.listeners == Registered(old(owner.listeners), Action(action), Targeted(handler, this, name))
    {
      owner.listeners := Registered(owner.listeners, Action(action), Targeted(handler, this, name));
    }

    /** `setInitialData(data)`: on the first call with data, remember it and merge it into
        the slice through `set`; any later call leaves the state alone. Then the keys of
        the data are enumerated, which throws for an undefined or null argument, and when
        the configuration asks for getters or setters each key gets an accessor property
        on the store; an accessor, once defined, cannot be redefined, so a key that
        already has one throws. */
    method SetInitialData(data: Option<map<string, Value>>) returns (r: Outcome)
      requires owner.Valid()
      modifies this`initialData, this`accessors, owner`state, owner`isPendingEmit, owner`pending
      ensures owner.Valid()
      ensures initialData == if data.Some? && old(initialData).None? then data else old(initialData)
      ensures !(data.Some? && old(initialData).None?) ==>
        owner.state == old(owner.state) && owner.isPendingEmit == old(owner.isPendingEmit) && owner.pending == old(owner.pending)
      ensures data.Some? && old(initialData).None? ==>
        var merged := Merged(Find(old(owner.state), name), data.value);
        (merged.Failure? ==> r == Fail(NotAMap) && owner.state == old(owner.state) &&
                             owner.isPendingEmit == old(owner.isPendingEmit) && owner.pending == old(owner.pending)) &&
        (merged.Success? ==> owner.state == old(owner.state)[name := merged.value] &&
                             owner.isPendingEmit &&
                             owner.pending == if old(owner.isPendingEmit) then old(owner.pending) else Some(this))
      ensures data.None? ==> r == Fail(NullishData) && accessors == old(accessors)
      ensures data.Some? && !(old(initialData).None? && Merged(Find(old(owner.state), name), data.value).Failure?) ==>
        (r.Fail? <==> DefinesAccessors(owner.config) && !(data.value.Keys !! old(accessors))) &&
        (r.Fail? ==> r.error == AccessorRedefined && old(accessors) <= accessors <= old(accessors) + data.value.Keys) &&
        (r.Pass? ==> accessors == if DefinesAccessors(owner.config) then old(accessors) + data.value.Keys else old(accessors))
      ensures r == Fail(NotAMap) ==> accessors == old(accessors)
    {
      if data.Some? && initialData.None? {
        initialData := data;
        var merged := Merged(Find(owner.state, name), data.value);
        if merged.Failure? {
          return Fail(merged.error);
        }
        Commit(merged.value);
      }
      if data.None? {
        return Fail(NullishData);
      }
      if DefinesAccessors(owner.config) {
        if !(data.value.Keys !! accessors) {
          return Fail(AccessorRedefined);
        }
        accessors := accessors + data.value.Keys;
      }
      r := Pass;
    }

    /** `subscribe(subscriber, func)`: one record at the end, with the configured default
        notify function when none is given. */
    method Subscribe(subscriber: SubscriberId, func: Option<CallbackId>)
      modifies this`subscribers
      ensures subscribers == old(subscribers) + [Subscription(subscriber, NotifierOf(func, owner.config))]
      ensures func.Some? ==> subscribers[|subscribers| - 1].func == Some(Custom(func.value))
      ensures func.None? ==> subscribers[|subscribers| - 1].func == owner.config.defaultSubscriberFunc
    {
      subscribers := subscribers + [Subscription(subscriber, NotifierOf(func, owner.config))];
    }

    /** `unsubscribe(subscriber)`: drops every record of that subscriber. */
    method Unsubscribe(subscriber: SubscriberId)
      modifies this`subscribers
      ensures subscribers == Unsubscribed(old(subscribers), subscriber)
      ensures forall x :: x in subscribers <==> x in old(subscribers) && x.subscriber != subscriber
    {
      UnsubscribedMembers(subscribers, subscriber);
      subscribers := Unsubscribed(subscribers, subscriber);
    }
  }

  // Client methods: what callers can prove from the contracts above.

  /** One or more updater writes, with nothing pending before, give exactly one
      state-change emission and one notification per subscriber up to the first one
      without a notify function; nothing is pending afterwards unless there was one. */
  method BatchedWrites(b: Bosque, s: Store, updates: seq<Option<Value> -> Value>)
    requires b.Valid() && s.owner == b && !b.isPendingEmit
    requires |updates| > 0
    modifies b
    ensures b.Valid() && (b.isPendingEmit <==> !AllCallable(s.subscribers))
    ensures b.trace == old(b.trace) + StateChangeEmission(b.listeners) + Notifications(s.subscribers)
  {
    var i := 0;
    while i < |updates|
      invariant 0 <= i <= |updates|
      invariant b.Valid()
      invariant b.isPendingEmit <==> i > 0
      invariant i > 0 ==> b.pending == Some(s)
      invariant b.trace == old(b.trace) && b.listeners == old(b.listeners)
    {
      var written := s.Set(Updater(updates[i]), Atom(0));
      i := i + 1;
    }
    var fired := b.Tick();
  }

  /** When two stores write in the same window, the callback notifies the subscribers
      of the store that wrote first, and only those. */
  method FirstWriterIsNotified(b: Bosque, first: Store, second: Store,
                               f: Option<Value> -> Value, g: Option<Value> -> Value)
    requires b.Valid() && first.owner == b && second.owner == b && !b.isPendingEmit
    modifies b
    ensures b.Valid() && (b.isPendingEmit <==> !AllCallable(first.subscribers))
    ensures b.trace == old(b.trace) + StateChangeEmission(b.listeners) + Notifications(first.subscribers)
  {
    var w1 := first.Set(Updater(f), Atom(0));
    var w2 := second.Set(Updater(g), Atom(0));
    var fired := b.Tick();
  }

  /** A settings object without `defaultSubscriberFunc` leaves later subscribers with an
      undefined notify function: the next callback throws after the state-change
      emission, the flag stays set, and no write ever schedules a callback again. */
  method UnsetDefaultStalls(b: Bosque, s: Store, who: SubscriberId, f: Option<Value> -> Value, g: Option<Value> -> Value)
    returns (fired: Outcome)
    requires b.Valid() && s.owner == b && !b.isPendingEmit && s.subscribers == []
    modifies b, s
    ensures b.Valid()
    ensures fired == Fail(NotCallable)
    ensures b.isPendingEmit && b.pending.None?
    ensures b.trace == old(b.trace) + StateChangeEmission(b.listeners)
  {
    b.ConfigBosque(Config(None, false, false));
    s.Subscribe(who, None);
    var w1 := s.Set(Updater(f), Atom(0));
    fired := b.Tick();
    var w2 := s.Set(Updater(g), Atom(0));
    var again := b.Tick();
  }

  /** After `destroyStore`, the name is free again: `getStore` finds nothing and a new
      store of that name can be built. */
  method DestroyThenRecreate(b: Bosque, name: string) returns (gone: Option<Store>, r: Result<Store>)
    requires b.Valid()
    modifies b
    ensures b.Valid()
    ensures gone.None?
    ensures r.Success? && r.value.name == name && b.GetStore(name) == Some(r.value)
  {
    var existed := b.DestroyStore(name);
    gone := b.GetStore(name);
    r := b.NewStore(name);
  }

  /** A name brought in by `hydrate` blocks `new Store` and satisfies the dispatch
      guard, although no store of that name is registered. */
  method HydratedNameIsTaken(b: Bosque, name: string, slice: Value, action: Token, payload: Payload)
    returns (r: Result<Store>, d: Outcome)
    requires b.Valid() && name != ""
    modifies b
    ensures b.Valid()
    ensures r == Failure(NameConflict(name))
    ensures d == Pass
  {
    b.Hydrate(map[name := slice]);
    r := b.NewStore(name);
    d := b.Dispatch(action, payload, Some(name));
  }

  /** Only the first `setInitialData` with data is merged; a second one changes no
      state, and throws exactly when accessors are being defined and it repeats a key
      of the first. */
  method InitialDataOnce(s: Store, first: map<string, Value>, second: map<string, Value>) returns (r1: Outcome, r2: Outcome)
    requires s.owner.Valid() && s.initialData.None? && s.accessors == {}
    requires s.name in s.owner.state && s.owner.state[s.name].Node?
    modifies s, s.owner
    ensures s.owner.Valid()
    ensures r1 == Pass && s.initialData == Some(first)
    ensures r2.Fail? <==> DefinesAccessors(s.owner.config) && first.Keys * second.Keys != {}
    ensures r2.Fail? ==> r2.error == AccessorRedefined
    ensures s.owner.state == old(s.owner.state)[s.name := Node(old(s.owner.state)[s.name].children + first)]
  {
    r1 := s.SetInitialData(Some(first));
    r2 := s.SetInitialData(Some(second));
  }

  /** Two `makeActions` calls with the same label give different symbols. */
  method SameLabelTwice(b: Bosque, tag: string) returns (t1: Token, t2: Token)
    requires b.Valid()
    modifies b
    ensures t1.description == tag && t2.description == tag && t1 != t2
  {
    var a1 := b.MakeActions([tag]);
    var a2 := b.MakeActions([tag]);
    t1, t2 := a1[tag], a2[tag];
  }
}
