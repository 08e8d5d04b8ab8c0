/** Action identifiers and the shared event bus: listener records kept per event key in
    registration order, and the calls an emission makes. Callbacks are opaque ids; the
    model records each call instead of running it. */
module Emitter {
  import opened Results

  type CallbackId = nat
  type SubscriberId = nat

  /** A subscriber's notify function: the container's built-in default (which calls
      `forceUpdate` on the subscriber when it has one) or a function the caller gave. */
  datatype Notifier = ForceUpdateIfPresent | Custom(callback: CallbackId)

  /** A `Symbol(description)`: the id makes two symbols with the same description unequal. */
  datatype Token = Token(id: nat, description: string)

  /** The keys listeners are registered under: the container's private state-change
      symbol, or an action symbol. */
  datatype EventKey = StateChange | Action(token: Token)

  /** A payload passed through to handlers; `Undefined` when the emission carries none. */
  datatype Payload = Undefined | Given(id: nat)

  /** A listener record on the bus. `Raw` is a callback registered directly (the
      state-change listeners); `Plain` and `Targeted` are the wrappers a store builds
      around a handler, with `self` the store the handler is bound to and `name` that
      store's name. */
  datatype Listener<S> =
    | Raw(callback: CallbackId)
    | Plain(handler: CallbackId, self: S)
    | Targeted(handler: CallbackId, self: S, name: string)

  /** One entry of the trace of calls into user code. */
  datatype Call<S> =
    | Emitted(key: EventKey)                                   // an emission started
    | Notified(callback: CallbackId)                           // a raw listener ran
    | Handled(handler: CallbackId, self: S, payload: Payload)  // a store handler ran with `this` bound
    | Refreshed(func: Notifier, subscriber: SubscriberId)      // a subscriber's notify function ran

  /** `makeActions(...labels)` with the symbol counter at `next`: the reduce mints one
      fresh symbol per label, left to right, and a repeated label keeps the last one. */
  function Mint(labels: seq<string>, next: nat): (r: map<string, Token>)
    ensures r.Keys == set l | l in labels
    ensures forall l :: l in r ==> r[l].description == l && next <= r[l].id < next + |labels|
    decreases |labels|
  {
    if labels == [] then map[]
    else
      var k := |labels| - 1;
      assert labels == labels[..k] + [labels[k]];
      Mint(labels[..k], next)[labels[k] := Token(next + k, labels[k])]
  }

  /** Distinct labels get distinct symbols, even in their ids. */
  lemma {:induction false} MintDistinct(labels: seq<string>, next: nat)
    ensures forall a, b :: a in Mint(labels, next) && b in Mint(labels, next) && a != b ==>
      Mint(labels, next)[a].id != Mint(labels, next)[b].id
    decreases |labels|
  {
    if labels != [] {
      MintDistinct(labels[..|labels| - 1], next);
    }
  }

  /** The listeners registered under `key`, oldest first. */
  function ListenersOf<S>(table: map<EventKey, seq<Listener<S>>>, key: EventKey): seq<Listener<S>>
  {
    if key in table then table[key] else []
  }

  /** `emitter.addListener(key, l)`: the record goes to the end of the key's list. */
  function Registered<S>(table: map<EventKey, seq<Listener<S>>>, key: EventKey, l: Listener<S>)
    : (r: map<EventKey, seq<Listener<S>>>)
    ensures ListenersOf(r, key) == ListenersOf(table, key) + [l]
    ensures forall k :: k != key ==> ListenersOf(r, k) == ListenersOf(table, k)
  {
    table[key := ListenersOf(table, key) + [l]]
  }

  /** Whether a listener's handler runs for an emission aimed at `target`: a raw or plain
      listener always does; a targeted one only when the target is its store's name. */
  predicate Runs<S>(l: Listener<S>, target: Option<string>)
  {
    match l
    case Targeted(_, _, name) => target == Some(name)
    case _ => true
  }

  /** The call a running listener makes: the handler gets the payload only. */
  function CallOf<S>(l: Listener<S>, payload: Payload): Call<S>
  {
    match l
    case Raw(cb) => Notified(cb)
    case Plain(h, self) => Handled(h, self, payload)
    case Targeted(h, self, _) => Handled(h, self, payload)
  }

  /** The listeners whose handler runs for `target`, in registration order. */
  function Selected<S>(ls: seq<Listener<S>>, target: Option<string>): (r: seq<Listener<S>>)
    ensures |r| <= |ls|
    ensures forall i :: 0 <= i < |r| ==> Runs(r[i], target)
  {
    if ls == [] then []
    else if Runs(ls[0], target) then [ls[0]] + Selected(ls[1..], target)
    else Selected(ls[1..], target)
  }

  /** A listener is selected exactly when it is registered and runs for the target. */
  lemma {:induction false} SelectedMembers<S>(ls: seq<Listener<S>>, target: Option<string>)
    ensures forall l :: l in Selected(ls, target) <==> l in ls && Runs(l, target)
  {
    if ls != [] {
      SelectedMembers(ls[1..], target);
      assert ls == [ls[0]] + ls[1..];
    }
  }

  /** Selection keeps registration order: it distributes over concatenation. */
  lemma {:induction false} SelectedAppend<S>(a: seq<Listener<S>>, b: seq<Listener<S>>, target: Option<string>)
    ensures Selected(a + b, target) == Selected(a, target) + Selected(b, target)
  {
    if a == [] {
      assert a + b == b;
    } else {
      assert (a + b)[0] == a[0] && (a + b)[1..] == a[1..] + b;
      SelectedAppend(a[1..], b, target);
    }
  }

  /** Without targeted listeners, every listener runs, in registration order. */
  lemma {:induction false} SelectedUntargeted<S>(ls: seq<Listener<S>>, target: Option<string>)
    requires forall i :: 0 <= i < |ls| ==> !ls[i].Targeted?
    ensures Selected(ls, target) == ls
  {
    if ls != [] {
      SelectedUntargeted(ls[1..], target);
    }
  }

  /** The calls the given listeners make, one each, in order. */
  function CallsOf<S>(ls: seq<Listener<S>>, payload: Payload): (r: seq<Call<S>>)
    ensures |r| == |ls|
    ensures forall i :: 0 <= i < |ls| ==> r[i] == CallOf(ls[i], payload)
  {
    if ls == [] then [] else [CallOf(ls[0], payload)] + CallsOf(ls[1..], payload)
  }

  /** `emitter.emit(key, payload, target)`: the emission, then each running listener's call. */
  function Emit<S>(ls: seq<Listener<S>>, key: EventKey, payload: Payload, target: Option<string>): (r: seq<Call<S>>)
    ensures |r| == 1 + |Selected(ls, target)| && r[0] == Emitted(key)
  {
    [Emitted(key)] + CallsOf(Selected(ls, target), payload)
  }

  /** After the emission entry, entry `i + 1` is the call of the `i`-th running listener,
      and the emission is recorded only once. */
  lemma {:induction false} EmitCalls<S>(ls: seq<Listener<S>>, key: EventKey, payload: Payload, target: Option<string>)
    ensures forall i :: 0 <= i < |Selected(ls, target)| ==>
      Emit(ls, key, payload, target)[i + 1] == CallOf(Selected(ls, target)[i], payload)
    ensures forall i :: 1 <= i < |Emit(ls, key, payload, target)| ==> !Emit(ls, key, payload, target)[i].Emitted?
  {
    var sel := Selected(ls, target);
    var r := Emit(ls, key, payload, target);
    assert r[1..] == CallsOf(sel, payload);
    forall i | 1 <= i < |r|
      ensures r[i] == CallOf(sel[i - 1], payload)
    {
      assert r[i] == r[1..][i - 1];
    }
  }

  /** The state-change emission, which carries no arguments. */
  function StateChangeEmission<S>(table: map<EventKey, seq<Listener<S>>>): seq<Call<S>>
  {
    Emit(ListenersOf(table, StateChange), StateChange, Undefined, None)
  }

  /** `emitter.removeListener(key, cb)` on one key's list: every record of the raw
      callback `cb` goes, the others stay in order. */
  function Withdrawn<S>(ls: seq<Listener<S>>, cb: CallbackId): (r: seq<Listener<S>>)
    ensures |r| <= |ls|
    ensures forall i :: 0 <= i < |r| ==> r[i] != Raw(cb)
  {
    if ls == [] then []
    else if ls[0] == Raw(cb) then Withdrawn(ls[1..], cb)
    else [ls[0]] + Withdrawn(ls[1..], cb)
  }

  /** A record survives the removal of `cb` exactly when it was there and is not `cb`'s. */
  lemma {:induction false} WithdrawnMembers<S>(ls: seq<Listener<S>>, cb: CallbackId)
    ensures forall l :: l in Withdrawn(ls, cb) <==> l in ls && l != Raw(cb)
  {
    if ls != [] {
      WithdrawnMembers(ls[1..], cb);
      assert ls == [ls[0]] + ls[1..];
    }
  }

  /** After the removal, an emission makes no call to `cb`. */
  lemma {:induction false} WithdrawnNotCalled<S>(ls: seq<Listener<S>>, cb: CallbackId, payload: Payload, target: Option<string>)
    ensures Notified(cb) !in CallsOf(Selected(Withdrawn(ls, cb), target), payload)
  {
    var sel := Selected(Withdrawn(ls, cb), target);
    SelectedMembers(Withdrawn(ls, cb), target);
    WithdrawnMembers(ls, cb);
    var calls := CallsOf(sel, payload);
    forall i | 0 <= i < |calls| ensures calls[i] != Notified(cb) {
      assert sel[i] in Withdrawn(ls, cb);
    }
  }
}
