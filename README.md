# bosque in Dafny

A model of `bosque`, a small in-process Flux-style state container, in both of its
versions:

- `src/index.js` is the current source. Writes to the state are coalesced into one
  deferred state-change notification, and each store keeps an ordered list of
  subscribers.
- `lib/index.js` is a compiled build of an older source. Every write emits the
  state-change event synchronously, and `destroyStore` is unconditional.

The closure returned by `bosque()` becomes a class `Bosque`. Its fields are the
closure's variables:

- `state`: store name ↦ slice. A slice is a nested value tree.
- `storeRegistry`: store name ↦ store object.
- `listeners`: the event bus, event key ↦ listener records in registration order.
- `isPendingEmit`, and in `pending` the store whose write scheduled a timer callback that has not fired yet (src only).
- `config` (src only).
- a symbol counter, and a ghost `trace` of the calls made into user code.

A `Store` is a class with a constant `owner` and `name`, the write-once
`initialData` guard and, in src, its `subscribers` and `accessors` (the keys that
`setInitialData` has defined accessor properties for).

Shared modules hold the pure parts:

- `Tree`: values (`Atom` for any non-map JavaScript value, `Node` for an Immutable
  Map) and Immutable.js 3's `getIn`, `setIn` and shallow `merge`.
- `GlobalState`: `Store.get` over the state map, and the `dispatch` guard.
- `Emitter`: symbols minted by `makeActions`, listener records, which listeners run
  for a dispatch target, and the calls an emission makes.
- `Results`: `Option`, `Result`, `Outcome` and the thrown errors.

Modelling choices:

- Callbacks (action handlers, state-change listeners, subscriber notify functions) are
  opaque ids. Running one appends a `Call` to the trace.
- The updater passed to `set` is a Dafny function of the old slice. It receives
  `None` when the store's name is not in the state, as after `destroyStore`.
- `setTimeout` becomes the explicit method `Bosque.Tick`, which runs the one scheduled
  callback.
- `configBosque` replaces the whole configuration. A settings object without
  `defaultSubscriberFunc` leaves it undefined (`None`), and a missing flag reads as
  `false`.
- Every `throw` of the source is an error value (`Result`/`Outcome`), not a precondition.
- `new Store(name)` can throw, and a Dafny constructor cannot fail. So `Bosque.NewStore`
  performs the name check, and the `Store` constructor performs the registration that
  follows it.

Quirks of the source that the model keeps:

- `removeStateChangeListener` registers the callback again (see Findings).
- The deferred callback notifies the subscribers of the store whose `set` scheduled
  it. It reads them when it fires. Subscribers of other stores written in the same
  window are not notified.
- `dispatch` and the store constructor test membership in `state`, not in the registry.
  A name brought in by `hydrate` therefore blocks `new Store` and passes the dispatch
  guard.

Behaviour of the code that its names alone would not suggest:

- A targeted dispatch checks the name against the keys of the state (src/index.js:41),
  not against the registry. A name that is in the state without a registered store,
  such as one brought in by `hydrate`, passes the check.
- When the timer fires, the subscribers of the store whose `set` scheduled it are
  notified (src/index.js:109-111), not those of every store.
- In lib, `destroyStore` returns nothing and never checks (lib/index.js:75-78).
- In src, `setInitialData` defines non-configurable accessor properties
  (src/index.js:148-161), so a later call that repeats a key throws.
- In src, a subscriber whose notify function is undefined (after `configBosque` with
  no `defaultSubscriberFunc`) makes the timer callback throw at src/index.js:110,
  before the flag is cleared at src/index.js:112. The flag stays set, so no later
  write schedules a callback and no subscriber is notified again.

## Model

| member | source | states |
|---|---|---|
| `Tree.GetInMissing` | src/index.js:92 | a `getIn` through any missing key, or through a non-map value, yields the default |
| `Tree.GetInDefined` | src/index.js:92 | along a path whose keys are all present, the default does not matter |
| `Tree.SetIn` | src/index.js:99-101 | `setIn` with an empty path yields the value; a non-empty path yields a map; the only error is "invalid keyPath" |
| `Tree.SetInSucceeds` | src/index.js:99-101 | `setIn` succeeds exactly when every value met before the last key is a map or missing |
| `Tree.SetInMissing` | src/index.js:97-101 | writing into a missing entry always succeeds: the missing maps are created |
| `Tree.SetInThenGetIn` | src/index.js:99-101 | round trip: after `setIn(path, v)`, the path is present and `getIn(path)` is `v` |
| `Tree.SetInKeepsOthers` | src/index.js:99-101 | `setIn(p, v)` leaves every path that parts ways with `p` reading as before |
| `Tree.Merged` | src/index.js:143 | shallow merge: the keys are the union, the data wins on shared keys, other keys keep their values; throws on a missing or non-map slice |
| `GlobalState.LookupSlice` | src/index.js:92 | `getIn([name, ...path])` reads the store's slice; a missing store reads as the default |
| `GlobalState.Read` | src/index.js:84-93 | `get` throws exactly when the path is neither a string nor an array; a missing store yields the default |
| `GlobalState.StringPathIsSingleton` | src/index.js:89-91 | a string key reads exactly like the one-element array holding it |
| `GlobalState.ReadMissing` | src/index.js:92 | any missing segment, the store itself included, reads as the default |
| `GlobalState.WriteThenRead` | src/index.js:98-101 | writing `v` at a key path, then reading the same path, yields `v`; every other store reads as before |
| `Emitter.Mint` | src/index.js:25-30 | `makeActions` has one key per label; each symbol carries its label and a fresh id above the counter |
| `Emitter.MintDistinct` | src/index.js:25-30 | distinct labels get symbols with distinct ids |
| `Emitter.Registered` | src/index.js:33 | `addListener` appends the record to its key's list and leaves other keys alone |
| `Emitter.Selected` | src/index.js:129-138 | every selected listener runs for the target; a targeted one only when the target is its store's name |
| `Emitter.SelectedMembers` | src/index.js:122-138 | a listener runs exactly when it is registered and is plain, or targeted at the dispatched name |
| `Emitter.SelectedAppend` | src/index.js:44 | listeners run in registration order: selection distributes over concatenation |
| `Emitter.SelectedUntargeted` | src/index.js:122-127 | plain listeners all run, in registration order, whatever the target |
| `Emitter.CallsOf` | src/index.js:123-126 | one call per running listener, in order; a handler gets the payload only, bound to its store |
| `Emitter.Emit` | src/index.js:44 | an emission is one entry for the event, then one entry per running listener |
| `Emitter.EmitCalls` | src/index.js:44 | after the event entry, the entries are the running listeners' calls, in registration order; the event is recorded only once |
| `Emitter.Withdrawn` | src/index.js:36-38 | the intended removal leaves no record of the callback |
| `Emitter.WithdrawnMembers` | src/index.js:36-38 | the intended removal keeps exactly the other records |
| `Emitter.WithdrawnNotCalled` | src/index.js:36-38 | after the intended removal, no emission calls the callback |
| `BosqueSrc.Written` | src/index.js:96-102 | the new slice is `updater(oldSlice)`, or the old slice with `value` at the key path; this fails exactly when the path runs through a non-map; on success the path is present and reads `value` under any default, and every path that parts ways with it reads as in the old slice |
| `BosqueSrc.Unsubscribed` | src/index.js:171-175 | no record of the unsubscribed subscriber remains |
| `BosqueSrc.UnsubscribedMembers` | src/index.js:171-175 | a record survives exactly when it was there and belongs to another subscriber |
| `BosqueSrc.UnsubscribedAppend` | src/index.js:171-175 | the surviving records keep their order |
| `BosqueSrc.UnsubscribedAbsent` | src/index.js:171-175 | unsubscribing someone with no record changes nothing |
| `BosqueSrc.UnsubscribedIdempotent` | src/index.js:171-175 | unsubscribing twice equals unsubscribing once |
| `BosqueSrc.Notifications` | src/index.js:109-111 | each subscriber's notify function is called once, with the subscriber, in subscription order, up to the first subscriber whose function is undefined; all are called exactly when every function is defined |
| `BosqueSrc.RemoveAfterAddCallsTwice` | src/index.js:36-38 | as written, add then remove leaves the callback registered twice, so the next emission calls it twice |
| `BosqueSrc.Bosque.constructor` | src/index.js:9-23 | empty state, registry and bus; nothing pending; the default configuration |
| `BosqueSrc.Bosque.MakeActions` | src/index.js:25-30 | one fresh symbol per label, with ids above every earlier one |
| `BosqueSrc.Bosque.AddStateChangeListener` | src/index.js:32-34 | the callback is appended to the state-change listeners |
| `BosqueSrc.Bosque.RemoveStateChangeListener` | src/index.js:36-38 | as written: the callback is appended again, and no other key changes |
| `BosqueSrc.Bosque.RemoveStateChangeListenerIntended` | src/index.js:36-38 | corrected: every registration of the callback is dropped, so no emission calls it |
| `BosqueSrc.Bosque.Dispatch` | src/index.js:40-46 | throws exactly for a truthy target that is not a key of the state, with no listener run; otherwise emits the action to the running listeners in order |
| `BosqueSrc.Bosque.GetStore` | src/index.js:48-50 | finds a store exactly when the name is registered, and it has that name |
| `BosqueSrc.Bosque.DestroyStore` | src/index.js:52-59 | false with no change when the name is not in the state; otherwise true and the name leaves both maps; afterwards the name is in neither |
| `BosqueSrc.Bosque.Hydrate` | src/index.js:61-63 | shallow merge into the state: the snapshot's entries win, other entries are kept |
| `BosqueSrc.Bosque.GetState` | src/index.js:65-67 | returns every store name with its slice |
| `BosqueSrc.Bosque.ConfigBosque` | src/index.js:69-71 | the configuration is replaced wholesale, so fields the settings leave out are lost, not kept |
| `BosqueSrc.Bosque.NewStore` | src/index.js:74-82 | throws NameConflict exactly when the name is in the state (hydrated names included); otherwise a fresh store gets an empty slice and a registry entry, and nothing else changes |
| `BosqueSrc.Bosque.Tick` | src/index.js:107-113 | with a callback scheduled: one state-change emission, then the scheduling store's subscribers in order; it throws exactly when one of them has no notify function, and the flag is then left set; otherwise the flag is cleared; afterwards no callback is scheduled |
| `BosqueSrc.Store.constructor` | src/index.js:75-81 | the store gets its name and no subscribers; registry and state gain exactly its entries |
| `BosqueSrc.Store.GetName` | src/index.js:177-179 | returns the name the store was built with |
| `BosqueSrc.Store.Get` | src/index.js:84-93 | `get` on this store's slice of the current state |
| `BosqueSrc.Store.Commit` | src/index.js:97-113 | stores the slice; schedules a callback for this store only when the flag is clear (after a callback that threw, the flag stays set and nothing is scheduled) |
| `BosqueSrc.Store.Set` | src/index.js:95-114 | the slice is the updater's result, or the old one with `value` at the path, and that path then reads `value`; no other store's slice changes; no listener, handler or notify function runs; at most one callback is scheduled, owned by the first writer, and none while the flag is already set |
| `BosqueSrc.Store.AddListener` | src/index.js:122-127 | appends a plain record bound to this store under the action |
| `BosqueSrc.Store.AddTargetedListener` | src/index.js:129-138 | appends a record bound to this store, and to its name, under the action |
| `BosqueSrc.Store.SetInitialData` | src/index.js:140-162 | only the first call with data merges it into the slice (through `set`); later calls change no state; a nullish argument throws; with getters or setters configured every key gets an accessor, and the call throws exactly when a key already has one |
| `BosqueSrc.Store.Subscribe` | src/index.js:164-169 | appends exactly one record, with the given notify function, or the configured default (possibly undefined) when none is given |
| `BosqueSrc.Store.Unsubscribe` | src/index.js:171-175 | removes every record of the subscriber and keeps the others in order |
| `BosqueSrc.BatchedWrites` | src/index.js:103-113 | one or more updater writes, with nothing pending before, give exactly one emission and then the subscribers' calls; the flag is cleared exactly when every subscriber has a notify function |
| `BosqueSrc.UnsetDefaultStalls` | src/index.js:103-113 | after `configBosque` without a default notify function, a subscriber added without one makes the next callback throw after the emission; the flag stays set and a later write schedules nothing |
| `BosqueSrc.FirstWriterIsNotified` | src/index.js:107-112 | when two stores write in one window, only the first writer's subscribers are notified |
| `BosqueSrc.DestroyThenRecreate` | src/index.js:48-59 | after `destroyStore`, `getStore` finds nothing and `new Store` with the same name succeeds |
| `BosqueSrc.HydratedNameIsTaken` | src/index.js:74-82 | a hydrated name blocks `new Store` and passes the dispatch guard without a registered store |
| `BosqueSrc.InitialDataOnce` | src/index.js:140-162 | a second `setInitialData` leaves the state as the first one made it, and throws exactly when accessors are configured and it repeats a key of the first |
| `BosqueSrc.SameLabelTwice` | src/index.js:25-30 | two `makeActions` calls with the same label give different symbols |
| `BosqueLib.Written` | lib/index.js:112-118 | the new slice is `updater(oldSlice)`, or the old slice with `value` under the one key and every other key kept, and no key added but that one; fails exactly on a non-map slice |
| `BosqueLib.Bosque.constructor` | lib/index.js:30-46 | empty state, registry and bus |
| `BosqueLib.Bosque.MakeActions` | lib/index.js:48-57 | one fresh symbol per label, with ids above every earlier one |
| `BosqueLib.Bosque.OnStateChange` | lib/index.js:59-61 | the callback is appended to the state-change listeners |
| `BosqueLib.Bosque.Dispatch` | lib/index.js:63-69 | throws exactly for a truthy target that is not a key of the state, with no listener run; otherwise emits the action to the running listeners in order |
| `BosqueLib.Bosque.GetStore` | lib/index.js:71-73 | finds a store exactly when the name is registered, and it has that name |
| `BosqueLib.Bosque.DestroyStore` | lib/index.js:75-78 | unconditional: the name leaves both maps; an absent name changes nothing |
| `BosqueLib.Bosque.Hydrate` | lib/index.js:80-82 | shallow merge into the state: the snapshot's entries win, other entries are kept |
| `BosqueLib.Bosque.GetState` | lib/index.js:84-86 | returns the state map itself |
| `BosqueLib.Bosque.NewStore` | lib/index.js:89-98 | throws NameConflict exactly when the name is in the state; otherwise a fresh store gets an empty slice and a registry entry, and nothing else changes |
| `BosqueLib.Store.constructor` | lib/index.js:92-97 | the store gets its name; registry and state gain exactly its entries |
| `BosqueLib.Store.GetName` | lib/index.js:156-159 | returns the name the store was built with |
| `BosqueLib.Store.Get` | lib/index.js:101-109 | `get` on this store's slice of the current state |
| `BosqueLib.Store.Commit` | lib/index.js:115-119 | stores the slice and emits the state-change event once |
| `BosqueLib.Store.Set` | lib/index.js:111-120 | the slice is the updater's result, or the old one with `value` under the key, which then reads `value`; no other slice changes; exactly one emission before returning, none on error |
| `BosqueLib.Store.AddListener` | lib/index.js:122-130 | appends a plain record bound to this store under the action |
| `BosqueLib.Store.AddTargetedListener` | lib/index.js:132-144 | appends a record bound to this store, and to its name, under the action |
| `BosqueLib.Store.SetInitialData` | lib/index.js:146-154 | only the first call with data merges it into the slice and emits; any other call changes nothing |
| `BosqueLib.SynchronousWrites` | lib/index.js:111-120 | `n` writes emit the state-change event `n` times |
| `BosqueLib.DestroyTwice` | lib/index.js:75-78 | destroying twice equals destroying once |

## Findings

| source | as written | input that shows it | evidently intended | confidence | as-written member | corrected member |
|---|---|---|---|---|---|---|
| src/index.js:36-38 | `removeStateChangeListener` calls `addListener` | `addStateChangeListener(f)`, then `removeStateChangeListener(f)`: the next state-change emission calls `f` twice | every registration of `f` is removed, so `f` is not called | high; not executed | `BosqueSrc.RemoveAfterAddCallsTwice` | `BosqueSrc.Bosque.RemoveStateChangeListenerIntended` |

The source model keeps the as-written `RemoveStateChangeListener`. No other member of
the model removes listeners.

## Left out

- Effects of callbacks: handlers, listeners and notify functions are opaque ids. Their
  calls are recorded in the trace, but their effects are not modelled: writes they make
  from inside an emission, and exceptions that would stop later listeners.
- The updater passed to `set` (src/index.js:97, lib/index.js:115) is a pure, total
  Dafny function. Side effects it would have, and an exception that would abort the
  write, are not modelled.
- `BosqueSrc.Bosque.ConfigBosque`: the settings argument is always an object. After `configBosque()` or `configBosque(null)` (src/index.js:69-71) the configuration is undefined or null; then `subscribe` without a function throws at src/index.js:164, and a first `setInitialData` with keys merges and schedules its callback and then throws at src/index.js:150. Neither throw is modelled.
- A notify function that is defined but not callable (a number, say) is not modelled;
  only an undefined one makes `Tick` throw.
- The duck-typed `forceUpdate` check in the default notify function (src/index.js:16-20) is not modelled. The function is the notifier `ForceUpdateIfPresent`, told apart from every caller-given one.
- The accessors `setInitialData` defines (src/index.js:148-161) are modelled only as the set of keys that have one, which decides whether a later call throws. What they do when used (forward to `get` and `set`) is not modelled, nor is the unused `makeSetter` (src/index.js:116-120).
- `BosqueSrc.Store.SetInitialData`: when a repeated key throws, the keys enumerated before it already have their accessors; the model does not keep key order, so it bounds the new set of keys between the old one and the old one plus the data's keys.
- A data key that names one of the store's own fields or methods (`_name`, `get`, ...) is not modelled: its accessor would shadow that member.
- Real timer scheduling and event-loop ordering are replaced by the explicit `Tick`.
- `Symbol` uniqueness is a counter per `Bosque` instance, not a process-wide one.
- Immutable.js internals are not modelled. Neither are Immutable `List` values, non-string keys, and the difference between plain objects and Maps: a plain object passed to `hydrate` or `setInitialData` is treated as a Map, all the way down.
- JavaScript falsiness is modelled only for the inputs the model can carry:
  - a dispatch target is absent or a string, and `""` is the falsy string;
  - a `setInitialData` argument is absent (undefined or null) or a map; falsy primitives such as `false` or `0` are not modelled.
- `BosqueLib.Written`: an array passed as the key to lib's `set` would become one map key (an array object); the model takes string keys only.
- Store names are strings. A name of another type is not modelled.
- eventemitter3 internals are not modelled, for example listeners added during an emission. The state-change symbol is private to the container, so no caller can `dispatch` it or register a store handler under it; a raw callback is recorded as called without arguments, which is how the container itself emits that event.
- The Babel helpers, `babel-polyfill` and the module export plumbing (lib/index.js:1-27, lib/index.js:177-196, src/index.js:196-207) are build artefacts and are not modelled.
