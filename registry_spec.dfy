/**
 * The state transitions of `EventManager` (lines 33-173) as functions on a value: the
 * handler table `_storage[event][fnId]`, the set of native listeners on the host and
 * the host's supply of fresh function identities. The class `Registry.EventManager`
 * performs the same transitions in place; the lemmas here are about these functions.
 */
module RegistrySpec {
  import opened Wrappers
  import opened BemDom
  import TypeList

  /** A JavaScript value as far as the registry looks at it. */
  datatype Value = Undef | Null | Bool(b: bool) | Func(id: nat) | Obj(id: nat)

  /** JavaScript truthiness (numbers and strings are not told apart from objects). */
  predicate Truthy(v: Value)
  {
    match v
    case Undef => false
    case Null => false
    case Bool(b) => b
    case _ => true
  }

  /** The `e` argument: an event type string or an event object. */
  datatype EventArg = Name(s: string) | EventObject(id: nat)

  /** A built event type: the key of `_storage` and of native listeners. */
  type EventType = string

  /** The third argument of `_eventBuilder`: 'on' or 'un'. */
  datatype Mode = OnMode | UnMode

  /** `_eventBuilder(e, params, mode)`, supplied by the creator of the manager. */
  type EventBuilder = (EventArg, Params, Mode) -> EventType

  /** `identify(fn, _fnCtx)`: the pair itself, so the token is injective on the pair. */
  datatype FnId = FnId(fn: Value, fnCtx: Value)

  /** What a wrapped handler calls: the user function, or the `once` closure of lines 82-85. */
  datatype Inner = Direct(fn: Value) | OnceWrap(e: EventArg, fn: Value, fnCtx: Value)

  /**
   * A native listener callback: a user function passed to `un` as it is, or a function
   * made by `_handlerWrapper(inner, data, _fnCtx, fnId)`, a new object each time, told
   * apart by `token`.
   */
  datatype Handler =
    | Raw(fn: Value)
    | Wrapped(token: nat, inner: Inner, data: Value, fnCtx: Value, fnId: FnId)

  /** A native listener `(node, type, callback)`; every listener here is non-capturing. */
  datatype Listener = Listener(node: Node, event: EventType, handler: Handler)

  /** `_storage`: a missing key, `null` (`None`) or a table of wrapped handlers. */
  type Storage = map<EventType, Option<map<FnId, Handler>>>

  /** The manager's table, the host's listeners and the next fresh function identity. */
  datatype Reg = Reg(storage: Storage, listeners: set<Listener>, nextToken: nat)

  /** The constants of one manager: its parameter record and its event builder. */
  datatype Binding = Binding(params: Params, build: EventBuilder)

  /** The arguments of one `on` call after the shift of lines 66-71. */
  datatype Call = Call(data: Value, fn: Value, fnCtx: Value, isOnce: bool)

  /** The operations a `CollectionEventManager` forwards, one per method and arity. */
  datatype Op =
    | OnOp(e: EventArg, data: Value, fn: Value, fnCtx: Value, isOnce: Value)
    | OnceOp(e: EventArg, data: Value, fn: Value, fnCtx: Value)
    | UnAllOp
    | UnEventOp(e: EventArg)
    | UnHandlerOp(e: EventArg, fn: Value, fnCtx: Value)
  {
    /** One of the arities of `un`. */
    predicate Unbinds()
    {
      UnAllOp? || UnEventOp? || UnHandlerOp?
    }
  }

  /** The handlers stored for `ev`; a missing or `null` entry holds none. */
  function Bucket(s: Storage, ev: EventType): map<FnId, Handler>
  {
    if ev in s && s[ev].Some? then s[ev].value else map[]
  }

  /** `_storage[ev][id]` is set. */
  predicate Registered(s: Storage, ev: EventType, id: FnId)
  {
    id in Bucket(s, ev)
  }

  /** Every wrapped listener was made before `next`: later wrappers are fresh. */
  predicate TokensBelow(listeners: set<Listener>, next: nat)
  {
    forall l | l in listeners && l.handler.Wrapped? :: l.handler.token < next
  }

  /** The listeners `nodes.forEach(n => n.addEventListener(ev, h))` puts in place. */
  function Attachments(nodes: seq<Node>, ev: EventType, h: Handler): set<Listener>
  {
    set n | n in nodes :: Listener(n, ev, h)
  }

  /** The listeners of every handler in `hs`, for `ev`, on every node. */
  function AttachmentsOf(nodes: seq<Node>, ev: EventType, hs: set<Handler>): set<Listener>
  {
    set n, h | n in nodes && h in hs :: Listener(n, ev, h)
  }

  /** The listeners of every handler a table records, on every node. */
  function AttachedBy(nodes: seq<Node>, s: Storage): set<Listener>
  {
    set n, ev, h | n in nodes && ev in s && h in Bucket(s, ev).Values :: Listener(n, ev, h)
  }

  /** `typeof e === 'string' && e.indexOf(' ') > -1` (lines 55, 125). */
  predicate Spaced(e: EventArg)
  {
    e.Name? && TypeList.Space in e.s
  }

  /** Lines 66-71: a function in the `data` position moves every argument one place left. */
  function OnCall(data: Value, fn: Value, fnCtx: Value, isOnce: Value): Call
  {
    if data.Func? then Call(Undef, data, fn, Truthy(fnCtx)) else Call(data, fn, fnCtx, Truthy(isOnce))
  }

  /** Lines 107-111: `once` makes the same shift before it calls `on(..., true)`. */
  function OnceShift(data: Value, fn: Value, fnCtx: Value): (Value, Value, Value)
  {
    if data.Func? then (Undef, data, fn) else (data, fn, fnCtx)
  }

  /** `on` for one event type (lines 63-96). */
  function OnOne(b: Binding, r: Reg, e: EventArg, c: Call): Reg
  {
    var ev := b.build(e, b.params, OnMode);
    var id := FnId(c.fn, c.fnCtx);
    var bucket := Bucket(r.storage, ev);
    if id in bucket then r
    else
      var h := Wrapped(r.nextToken, if c.isOnce then OnceWrap(e, c.fn, c.fnCtx) else Direct(c.fn),
                       c.data, c.fnCtx, id);
      Reg(r.storage[ev := Some(bucket[id := h])],
          r.listeners + Attachments(b.params.bindDomNodes, ev, h),
          r.nextToken + 1)
  }

  /** `on` for each piece of a split list in order (lines 56-58); pieces hold no space. */
  function OnPieces(b: Binding, r: Reg, pieces: seq<string>, c: Call): Reg
  {
    if pieces == [] then r
    else OnOne(b, OnPieces(b, r, pieces[..|pieces| - 1], c), Name(pieces[|pieces| - 1]), c)
  }

  /** `on(e, data, fn, _fnCtx, _isOnce)` (lines 54-97). */
  function On(b: Binding, r: Reg, e: EventArg, data: Value, fn: Value, fnCtx: Value, isOnce: Value): Reg
  {
    var c := OnCall(data, fn, fnCtx, isOnce);
    if Spaced(e) then OnPieces(b, r, TypeList.Split(e.s), c) else OnOne(b, r, e, c)
  }

  /** `once(e, data, fn, _fnCtx)` (lines 106-114). */
  function Once(b: Binding, r: Reg, e: EventArg, data: Value, fn: Value, fnCtx: Value): Reg
  {
    var (d, f, x) := OnceShift(data, fn, fnCtx);
    On(b, r, e, d, f, x, Bool(true))
  }

  /** `un(e, fn, _fnCtx)` for one event type (lines 139-152). */
  function UnHandlerOne(b: Binding, r: Reg, e: EventArg, fn: Value, fnCtx: Value): Reg
  {
    var ev := b.build(e, b.params, UnMode);
    var id := FnId(fn, fnCtx);
    var nodes := b.params.bindDomNodes;
    if ev in r.storage && r.storage[ev].Some? && id in r.storage[ev].value then
      Reg(r.storage[ev := Some(r.storage[ev].value - {id})],
          r.listeners - Attachments(nodes, ev, r.storage[ev].value[id]), r.nextToken)
    else
      Reg(r.storage, r.listeners - Attachments(nodes, ev, Raw(fn)), r.nextToken)
  }

  /** `un(piece, fn, _fnCtx)` for each piece in order (lines 126-128). */
  function UnHandlerPieces(b: Binding, r: Reg, pieces: seq<string>, fn: Value, fnCtx: Value): Reg
  {
    if pieces == [] then r
    else UnHandlerOne(b, UnHandlerPieces(b, r, pieces[..|pieces| - 1], fn, fnCtx),
                      Name(pieces[|pieces| - 1]), fn, fnCtx)
  }

  /** `un(e, fn, _fnCtx)` with two or three arguments (lines 122-153). */
  function UnHandler(b: Binding, r: Reg, e: EventArg, fn: Value, fnCtx: Value): Reg
  {
    if Spaced(e) then UnHandlerPieces(b, r, TypeList.Split(e.s), fn, fnCtx)
    else UnHandlerOne(b, r, e, fn, fnCtx)
  }

  /** `_unbindByEvent(_storage[ev], ev)` (lines 161-172). */
  function UnbindByEvent(b: Binding, r: Reg, ev: EventType): Reg
  {
    Reg(r.storage[ev := None],
        r.listeners - AttachmentsOf(b.params.bindDomNodes, ev, Bucket(r.storage, ev).Values),
        r.nextToken)
  }

  /**
   * `un(e)` with one argument. A list is split and each piece is passed on as
   * `un(piece, fn, _fnCtx)` with `fn` and `_fnCtx` undefined: three arguments, so each
   * piece takes the single-handler path (lines 126-128).
   */
  function UnEvent(b: Binding, r: Reg, e: EventArg): Reg
  {
    if Spaced(e) then UnHandlerPieces(b, r, TypeList.Split(e.s), Undef, Undef)
    else UnbindByEvent(b, r, b.build(e, b.params, UnMode))
  }

  /** `un()` with no argument: `_unbindByEvent` on every key of `_storage` (line 155). */
  function UnAll(b: Binding, r: Reg): Reg
  {
    Reg(map ev | ev in r.storage :: None,
        r.listeners - AttachedBy(b.params.bindDomNodes, r.storage),
        r.nextToken)
  }

  /** Calling a handler: a `once` wrapper first runs `un(e, fn, _fnCtx)` (line 83). */
  function Fire(b: Binding, r: Reg, h: Handler): Reg
  {
    if h.Wrapped? && h.inner.OnceWrap? then UnHandler(b, r, h.inner.e, h.inner.fn, h.inner.fnCtx)
    else r
  }

  /** One method call of the manager, by name and arity. */
  function Apply(b: Binding, r: Reg, op: Op): Reg
  {
    match op
    case OnOp(e, data, fn, fnCtx, isOnce) => On(b, r, e, data, fn, fnCtx, isOnce)
    case OnceOp(e, data, fn, fnCtx) => Once(b, r, e, data, fn, fnCtx)
    case UnAllOp => UnAll(b, r)
    case UnEventOp(e) => UnEvent(b, r, e)
    case UnHandlerOp(e, fn, fnCtx) => UnHandler(b, r, e, fn, fnCtx)
  }

  // ---------------------------------------------------------------------------------
  // Properties
  // ---------------------------------------------------------------------------------

  /** The builder gives `e` the same event type for `on` and for `un`. */
  predicate BuildsAlike(b: Binding, e: EventArg)
  {
    b.build(e, b.params, OnMode) == b.build(e, b.params, UnMode)
  }

  /**
   * `on` for one type adds nothing when `(event, fnId)` is registered; otherwise it
   * records exactly one new wrapper, attaches it to every bind node and nothing else,
   * and leaves every other event type alone.
   */
  lemma OnOneEffect(b: Binding, r: Reg, e: EventArg, c: Call)
    ensures var r' := OnOne(b, r, e, c);
      var ev := b.build(e, b.params, OnMode);
      var id := FnId(c.fn, c.fnCtx);
      && (Registered(r.storage, ev, id) ==> r' == r)
      && (!Registered(r.storage, ev, id) ==>
            && Bucket(r'.storage, ev).Keys == Bucket(r.storage, ev).Keys + {id}
            && (forall k | k in Bucket(r.storage, ev) :: Bucket(r'.storage, ev)[k] == Bucket(r.storage, ev)[k])
            && Bucket(r'.storage, ev)[id].Wrapped?
            && Bucket(r'.storage, ev)[id].token == r.nextToken
            && Bucket(r'.storage, ev)[id].inner.fn == c.fn
            && (Bucket(r'.storage, ev)[id].inner.OnceWrap? <==> c.isOnce)
            && r'.listeners == r.listeners + Attachments(b.params.bindDomNodes, ev, Bucket(r'.storage, ev)[id])
            && r'.nextToken == r.nextToken + 1)
      && (forall ev' | ev' != ev :: Bucket(r'.storage, ev') == Bucket(r.storage, ev'))
  {
  }

  /** Registering the same handler twice is registering it once. */
  lemma OnOneIdempotent(b: Binding, r: Reg, e: EventArg, c: Call)
    ensures OnOne(b, OnOne(b, r, e, c), e, c) == OnOne(b, r, e, c)
  {
    OnOneEffect(b, r, e, c);
  }

  /** New wrappers are fresh: the host's listeners stay below its next identity. */
  lemma OnOneKeepsTokens(b: Binding, r: Reg, e: EventArg, c: Call)
    requires TokensBelow(r.listeners, r.nextToken)
    ensures var r' := OnOne(b, r, e, c); TokensBelow(r'.listeners, r'.nextToken) && r.nextToken <= r'.nextToken
  {
  }

  /**
   * Round trip: `on(e, fn, ctx)` for a handler that is not registered, then
   * `un(e, fn, ctx)`, removes the entry again and gives back exactly the listeners
   * that were there before.
   */
  lemma OnThenUnRestores(b: Binding, r: Reg, e: EventArg, c: Call)
    requires !Spaced(e) && BuildsAlike(b, e)
    requires TokensBelow(r.listeners, r.nextToken)
    requires !Registered(r.storage, b.build(e, b.params, OnMode), FnId(c.fn, c.fnCtx))
    ensures var r' := UnHandler(b, OnOne(b, r, e, c), e, c.fn, c.fnCtx);
      var ev := b.build(e, b.params, OnMode);
      && r'.listeners == r.listeners
      && Bucket(r'.storage, ev) == Bucket(r.storage, ev)
      && (forall ev' | ev' != ev :: Bucket(r'.storage, ev') == Bucket(r.storage, ev'))
  {
    var ev := b.build(e, b.params, OnMode);
    var id := FnId(c.fn, c.fnCtx);
    var r1 := OnOne(b, r, e, c);
    var h := r1.storage[ev].value[id];
    var added := Attachments(b.params.bindDomNodes, ev, h);
    assert r1.listeners == r.listeners + added;
    assert forall l | l in added :: l !in r.listeners by {
      forall l | l in added ensures l !in r.listeners {
        assert l.handler.token == r.nextToken;
      }
    }
    var r2 := UnHandler(b, r1, e, c.fn, c.fnCtx);
    assert r2.listeners == r1.listeners - added;
    assert r2.listeners == r.listeners;
    assert Bucket(r2.storage, ev) == Bucket(r1.storage, ev) - {id};
    assert Bucket(r2.storage, ev) == Bucket(r.storage, ev);
  }

  /**
   * `un` of a handler that is not registered changes no table entry and detaches only
   * the raw function from the bind nodes.
   */
  lemma UnUnregisteredHandler(b: Binding, r: Reg, e: EventArg, fn: Value, fnCtx: Value)
    requires !Spaced(e)
    requires !Registered(r.storage, b.build(e, b.params, UnMode), FnId(fn, fnCtx))
    ensures var r' := UnHandler(b, r, e, fn, fnCtx);
      && r'.storage == r.storage
      && r'.listeners == r.listeners - Attachments(b.params.bindDomNodes, b.build(e, b.params, UnMode), Raw(fn))
  {
  }

  /**
   * `un(e)` detaches every handler stored for the event from every bind node, touches
   * no other listener and sets the entry to `null`.
   */
  lemma UnEventEffect(b: Binding, r: Reg, e: EventArg)
    requires !Spaced(e)
    ensures var r' := UnEvent(b, r, e);
      var ev := b.build(e, b.params, UnMode);
      && ev in r'.storage && r'.storage[ev] == None
      && (forall ev' | ev' != ev :: Bucket(r'.storage, ev') == Bucket(r.storage, ev'))
      && (forall n, id | n in b.params.bindDomNodes && id in Bucket(r.storage, ev) ::
            Listener(n, ev, Bucket(r.storage, ev)[id]) !in r'.listeners)
      && (forall l | l in r.listeners && !(l.event == ev && l.node in b.params.bindDomNodes
                                           && l.handler in Bucket(r.storage, ev).Values) ::
            l in r'.listeners)
      && r'.listeners <= r.listeners
  {
    var ev := b.build(e, b.params, UnMode);
    var r' := UnEvent(b, r, e);
    forall n, id | n in b.params.bindDomNodes && id in Bucket(r.storage, ev)
      ensures Listener(n, ev, Bucket(r.storage, ev)[id]) !in r'.listeners
    {
      assert Bucket(r.storage, ev)[id] in Bucket(r.storage, ev).Values;
      assert Listener(n, ev, Bucket(r.storage, ev)[id])
          in AttachmentsOf(b.params.bindDomNodes, ev, Bucket(r.storage, ev).Values);
    }
  }

  /** After `un(e)`, a later `on` for the event recreates its entry with one handler. */
  lemma OnAfterUnEventRecreates(b: Binding, r: Reg, e: EventArg, e2: EventArg, c: Call)
    requires !Spaced(e)
    requires b.build(e2, b.params, OnMode) == b.build(e, b.params, UnMode)
    ensures var ev := b.build(e, b.params, UnMode);
      var r' := OnOne(b, UnEvent(b, r, e), e2, c);
      && ev in r'.storage && r'.storage[ev].Some?
      && r'.storage[ev].value.Keys == {FnId(c.fn, c.fnCtx)}
  {
  }

  /**
   * `un()` detaches every listener the table accounts for, sets every entry to `null`
   * (so the table accounts for none afterwards) and touches no other listener.
   */
  lemma UnAllEffect(b: Binding, r: Reg)
    ensures var r' := UnAll(b, r);
      && r'.storage.Keys == r.storage.Keys
      && (forall ev | ev in r'.storage :: r'.storage[ev] == None)
      && AttachedBy(b.params.bindDomNodes, r'.storage) == {}
      && r'.listeners * AttachedBy(b.params.bindDomNodes, r.storage) == {}
      && r'.listeners == r.listeners - AttachedBy(b.params.bindDomNodes, r.storage)
  {
    var r' := UnAll(b, r);
    assert forall ev | ev in r'.storage :: Bucket(r'.storage, ev) == map[];
  }

  /** `once` is `on` with `_isOnce` set, after the same argument shift. */
  lemma OnceIsOnWithOnceFlag(b: Binding, r: Reg, e: EventArg, data: Value, fn: Value, fnCtx: Value)
    ensures var c := if data.Func? then Call(Undef, data, fn, true) else Call(data, fn, fnCtx, true);
      Once(b, r, e, data, fn, fnCtx)
        == (if Spaced(e) then OnPieces(b, r, TypeList.Split(e.s), c) else OnOne(b, r, e, c))
  {
  }

  /** With a function as `data`, `on(e, fn, ctx, isOnce)` is `on(e, undefined, fn, ctx, isOnce)`. */
  lemma DataShift(b: Binding, r: Reg, e: EventArg, f: nat, fnCtx: Value, isOnce: Value, ignored: Value)
    ensures On(b, r, e, Func(f), fnCtx, isOnce, ignored) == On(b, r, e, Undef, Func(f), fnCtx, isOnce)
  {
  }

  /**
   * A `once` handler that fires unregisters itself first: after `once(e, fn, ctx)` for a
   * handler not yet registered and one call of the wrapper it made, the entry is gone
   * and the listeners are those from before.
   */
  lemma OnceFiresOnce(b: Binding, r: Reg, e: EventArg, data: Value, fn: Value, fnCtx: Value)
    requires !Spaced(e) && BuildsAlike(b, e)
    requires TokensBelow(r.listeners, r.nextToken)
    requires var (_, f, x) := OnceShift(data, fn, fnCtx);
      !Registered(r.storage, b.build(e, b.params, OnMode), FnId(f, x))
    ensures var (_, f, x) := OnceShift(data, fn, fnCtx);
      var ev := b.build(e, b.params, OnMode);
      var r1 := Once(b, r, e, data, fn, fnCtx);
      var h := Bucket(r1.storage, ev)[FnId(f, x)];
      var r2 := Fire(b, r1, h);
      && h.Wrapped? && h.inner == OnceWrap(e, f, x)
      && !Registered(r2.storage, ev, FnId(f, x))
      && r2.listeners == r.listeners
  {
    var (d, f, x) := OnceShift(data, fn, fnCtx);
    var c := Call(d, f, x, true);
    assert OnCall(d, f, x, Bool(true)) == c;
    OnOneEffect(b, r, e, c);
    OnThenUnRestores(b, r, e, c);
  }

  /**
   * A wrapper that fires a second time changes no table entry, because the first call
   * of a `once` wrapper already removed its registration; a wrapper that is not a `once`
   * wrapper changes nothing at all.
   */
  lemma FireAgainKeepsTable(b: Binding, r: Reg, h: Handler)
    ensures Fire(b, Fire(b, r, h), h).storage == Fire(b, r, h).storage
    ensures !(h.Wrapped? && h.inner.OnceWrap?) ==> Fire(b, r, h) == r
  {
    if h.Wrapped? && h.inner.OnceWrap? {
      var e, fn, fnCtx := h.inner.e, h.inner.fn, h.inner.fnCtx;
      if Spaced(e) {
        var pieces := TypeList.Split(e.s);
        UnHandlerPiecesClears(b, r, pieces, fn, fnCtx);
        UnHandlerPiecesNoop(b, UnHandlerPieces(b, r, pieces, fn, fnCtx), pieces, fn, fnCtx);
      }
    }
  }

  /** `un(piece, fn, _fnCtx)` for each piece leaves `(fn, _fnCtx)` registered under none of them. */
  lemma {:induction false} UnHandlerPiecesClears(b: Binding, r: Reg, pieces: seq<string>, fn: Value, fnCtx: Value)
    ensures forall i | 0 <= i < |pieces| ::
      !Registered(UnHandlerPieces(b, r, pieces, fn, fnCtx).storage, b.build(Name(pieces[i]), b.params, UnMode), FnId(fn, fnCtx))
  {
    if pieces != [] {
      var init := pieces[..|pieces| - 1];
      var r0 := UnHandlerPieces(b, r, init, fn, fnCtx);
      var r' := UnHandlerPieces(b, r, pieces, fn, fnCtx);
      UnHandlerPiecesClears(b, r, init, fn, fnCtx);
      forall i | 0 <= i < |pieces|
        ensures !Registered(r'.storage, b.build(Name(pieces[i]), b.params, UnMode), FnId(fn, fnCtx))
      {
        if i < |pieces| - 1 {
          assert pieces[i] == init[i];
          UnHandlerOneShrinks(b, r0, Name(pieces[|pieces| - 1]), fn, fnCtx, b.build(Name(pieces[i]), b.params, UnMode), FnId(fn, fnCtx));
        }
      }
    }
  }

  /** `un` for one type removes registrations and never adds one. */
  lemma UnHandlerOneShrinks(b: Binding, r: Reg, e: EventArg, fn: Value, fnCtx: Value, ev: EventType, id: FnId)
    requires !Registered(r.storage, ev, id)
    ensures !Registered(UnHandlerOne(b, r, e, fn, fnCtx).storage, ev, id)
  {
  }

  /** `un(piece, fn, _fnCtx)` for pieces under which `(fn, _fnCtx)` is not registered changes no entry. */
  lemma {:induction false} UnHandlerPiecesNoop(b: Binding, r: Reg, pieces: seq<string>, fn: Value, fnCtx: Value)
    requires forall i | 0 <= i < |pieces| :: !Registered(r.storage, b.build(Name(pieces[i]), b.params, UnMode), FnId(fn, fnCtx))
    ensures UnHandlerPieces(b, r, pieces, fn, fnCtx).storage == r.storage
  {
    if pieces != [] {
      var init := pieces[..|pieces| - 1];
      forall i | 0 <= i < |init|
        ensures !Registered(r.storage, b.build(Name(init[i]), b.params, UnMode), FnId(fn, fnCtx))
      {
        assert init[i] == pieces[i];
      }
      UnHandlerPiecesNoop(b, r, init, fn, fnCtx);
    }
  }

  /**
   * A space-separated `on` registers the handler under the event type of every listed
   * piece.
   */
  lemma {:induction false} OnPiecesRegistersEach(b: Binding, r: Reg, pieces: seq<string>, c: Call)
    ensures forall i | 0 <= i < |pieces| ::
      Registered(OnPieces(b, r, pieces, c).storage, b.build(Name(pieces[i]), b.params, OnMode), FnId(c.fn, c.fnCtx))
  {
    if pieces != [] {
      var init := pieces[..|pieces| - 1];
      var last := pieces[|pieces| - 1];
      var r0 := OnPieces(b, r, init, c);
      OnPiecesRegistersEach(b, r, init, c);
      OnOneEffect(b, r0, Name(last), c);
      forall i | 0 <= i < |pieces|
        ensures Registered(OnPieces(b, r, pieces, c).storage, b.build(Name(pieces[i]), b.params, OnMode), FnId(c.fn, c.fnCtx))
      {
        if i < |pieces| - 1 {
          assert pieces[i] == init[i];
        }
      }
    }
  }

  /**
   * A list of two or more space-free types behaves as `on` for each type in order, with
   * the same arguments (lines 55-61).
   */
  lemma SpacedOnIsSequence(b: Binding, r: Reg, pieces: seq<string>,
                           data: Value, fn: Value, fnCtx: Value, isOnce: Value)
    requires |pieces| >= 2 && forall i | 0 <= i < |pieces| :: TypeList.Space !in pieces[i]
    ensures On(b, r, Name(TypeList.Join(pieces)), data, fn, fnCtx, isOnce)
         == OnPieces(b, r, pieces, OnCall(data, fn, fnCtx, isOnce))
  {
    TypeList.JoinHasSpace(pieces);
    TypeList.SplitJoin(pieces);
  }

  /** The same for `un(e, fn, _fnCtx)` (lines 125-131). */
  lemma SpacedUnIsSequence(b: Binding, r: Reg, pieces: seq<string>, fn: Value, fnCtx: Value)
    requires |pieces| >= 2 && forall i | 0 <= i < |pieces| :: TypeList.Space !in pieces[i]
    ensures UnHandler(b, r, Name(TypeList.Join(pieces)), fn, fnCtx) == UnHandlerPieces(b, r, pieces, fn, fnCtx)
  {
    TypeList.JoinHasSpace(pieces);
    TypeList.SplitJoin(pieces);
  }

  /** Every transition keeps the host's identities fresh. */
  lemma {:induction false} OnPiecesKeepsTokens(b: Binding, r: Reg, pieces: seq<string>, c: Call)
    requires TokensBelow(r.listeners, r.nextToken)
    ensures var r' := OnPieces(b, r, pieces, c); TokensBelow(r'.listeners, r'.nextToken) && r.nextToken <= r'.nextToken
  {
    if pieces != [] {
      OnPiecesKeepsTokens(b, r, pieces[..|pieces| - 1], c);
      OnOneKeepsTokens(b, OnPieces(b, r, pieces[..|pieces| - 1], c), Name(pieces[|pieces| - 1]), c);
    }
  }

  /** Removing handlers only ever removes listeners. */
  lemma {:induction false} UnHandlerPiecesShrinks(b: Binding, r: Reg, pieces: seq<string>, fn: Value, fnCtx: Value)
    ensures var r' := UnHandlerPieces(b, r, pieces, fn, fnCtx);
      r'.listeners <= r.listeners && r'.nextToken == r.nextToken
  {
    if pieces != [] {
      UnHandlerPiecesShrinks(b, r, pieces[..|pieces| - 1], fn, fnCtx);
    }
  }

  /** Every operation keeps the host's identities fresh and never reuses one. */
  lemma ApplyKeepsTokens(b: Binding, r: Reg, op: Op)
    requires TokensBelow(r.listeners, r.nextToken)
    ensures var r' := Apply(b, r, op); TokensBelow(r'.listeners, r'.nextToken) && r.nextToken <= r'.nextToken
  {
    match op
    case OnOp(e, data, fn, fnCtx, isOnce) =>
      var c := OnCall(data, fn, fnCtx, isOnce);
      if Spaced(e) { OnPiecesKeepsTokens(b, r, TypeList.Split(e.s), c); } else { OnOneKeepsTokens(b, r, e, c); }
    case OnceOp(e, data, fn, fnCtx) =>
      var (d, f, x) := OnceShift(data, fn, fnCtx);
      var c := OnCall(d, f, x, Bool(true));
      if Spaced(e) { OnPiecesKeepsTokens(b, r, TypeList.Split(e.s), c); } else { OnOneKeepsTokens(b, r, e, c); }
    case UnAllOp =>
    case UnEventOp(e) =>
      if Spaced(e) { UnHandlerPiecesShrinks(b, r, TypeList.Split(e.s), Undef, Undef); }
    case UnHandlerOp(e, fn, fnCtx) =>
      if Spaced(e) { UnHandlerPiecesShrinks(b, r, TypeList.Split(e.s), fn, fnCtx); }
  }

  /** A registration survives a later `on` for one type. */
  lemma OnOneKeepsRegistered(b: Binding, r: Reg, e: EventArg, c: Call, ev: EventType, id: FnId)
    requires Registered(r.storage, ev, id)
    ensures Registered(OnOne(b, r, e, c).storage, ev, id)
  {
    OnOneEffect(b, r, e, c);
  }

  /** A registration survives a later `on` for a list of types. */
  lemma {:induction false} OnPiecesKeepsRegistered(b: Binding, r: Reg, pieces: seq<string>, c: Call, ev: EventType, id: FnId)
    requires Registered(r.storage, ev, id)
    ensures Registered(OnPieces(b, r, pieces, c).storage, ev, id)
  {
    if pieces != [] {
      OnPiecesKeepsRegistered(b, r, pieces[..|pieces| - 1], c, ev, id);
      OnOneKeepsRegistered(b, OnPieces(b, r, pieces[..|pieces| - 1], c), Name(pieces[|pieces| - 1]), c, ev, id);
    }
  }

  /** `id` is registered under every event type that `on(e)` names for this manager. */
  predicate RegisteredForAll(b: Binding, s: Storage, e: EventArg, id: FnId)
  {
    if Spaced(e) then
      forall i | 0 <= i < |TypeList.Split(e.s)| :: Registered(s, b.build(Name(TypeList.Split(e.s)[i]), b.params, OnMode), id)
    else Registered(s, b.build(e, b.params, OnMode), id)
  }

  /** `on(e, ...)` registers the handler under every type `e` names, a list or a single type. */
  lemma OnRegistersEach(b: Binding, r: Reg, e: EventArg, data: Value, fn: Value, fnCtx: Value, isOnce: Value)
    ensures var c := OnCall(data, fn, fnCtx, isOnce);
      RegisteredForAll(b, On(b, r, e, data, fn, fnCtx, isOnce).storage, e, FnId(c.fn, c.fnCtx))
  {
    var c := OnCall(data, fn, fnCtx, isOnce);
    if Spaced(e) {
      OnPiecesRegistersEach(b, r, TypeList.Split(e.s), c);
    } else {
      OnOneEffect(b, r, e, c);
    }
  }

  /** Every registration survives a later `on` of the same manager, whatever `e` it names. */
  lemma OnKeepsRegistered(b: Binding, r: Reg, e: EventArg, data: Value, fn: Value, fnCtx: Value, isOnce: Value, e0: EventArg, id: FnId)
    requires RegisteredForAll(b, r.storage, e0, id)
    ensures RegisteredForAll(b, On(b, r, e, data, fn, fnCtx, isOnce).storage, e0, id)
  {
    var c := OnCall(data, fn, fnCtx, isOnce);
    var s' := On(b, r, e, data, fn, fnCtx, isOnce).storage;
    forall ev | Registered(r.storage, ev, id)
      ensures Registered(s', ev, id)
    {
      if Spaced(e) {
        OnPiecesKeepsRegistered(b, r, TypeList.Split(e.s), c, ev, id);
      } else {
        OnOneKeepsRegistered(b, r, e, c, ev, id);
      }
    }
  }

  // ---------------------------------------------------------------------------------
  // The listeners a manager owns
  // ---------------------------------------------------------------------------------

  /** The identities `lo`, ..., `hi - 1`: the wrappers made while the counter went from `lo` to `hi`. */
  function Issued(lo: nat, hi: nat): (ts: set<nat>)
    ensures forall t :: t in ts <==> lo <= t < hi
    decreases hi - lo
  {
    if hi <= lo then {} else {lo} + Issued(lo + 1, hi)
  }

  lemma IssuedSplit(lo: nat, mid: nat, hi: nat)
    requires lo <= mid <= hi
    ensures Issued(lo, mid) + Issued(mid, hi) == Issued(lo, hi)
  {
  }

  /** Every stored wrapper sits under the identity it was made for. */
  predicate Keyed(s: Storage)
  {
    forall ev, id | ev in s && id in Bucket(s, ev) :: Bucket(s, ev)[id].Wrapped? && Bucket(s, ev)[id].fnId == id
  }

  /**
   * The table accounts for every listener that carries a wrapper the manager made (an
   * identity in `mine`): it sits on a bind node, under an event type whose entry holds it.
   */
  predicate Owned(b: Binding, r: Reg, mine: set<nat>)
  {
    forall l | l in r.listeners && l.handler.Wrapped? && l.handler.token in mine ::
      l.node in b.params.bindDomNodes && l.handler in Bucket(r.storage, l.event).Values
  }

  /** The manager's invariant: fresh identities, and a keyed table that accounts for its listeners. */
  predicate Tracks(b: Binding, r: Reg, mine: set<nat>)
  {
    && TokensBelow(r.listeners, r.nextToken)
    && (forall t | t in mine :: t < r.nextToken)
    && Keyed(r.storage)
    && Owned(b, r, mine)
  }

  /** A new manager, with an empty table, has made no wrapper yet. */
  lemma TracksInitially(b: Binding, listeners: set<Listener>, next: nat)
    requires TokensBelow(listeners, next)
    ensures Tracks(b, Reg(map[], listeners, next), {})
  {
  }

  /** `on` for one type keeps the invariant; the wrapper it makes, if any, is the manager's. */
  lemma OnOneKeepsTracks(b: Binding, r: Reg, e: EventArg, c: Call, mine: set<nat>)
    requires Tracks(b, r, mine)
    ensures var r' := OnOne(b, r, e, c);
      Tracks(b, r', mine + Issued(r.nextToken, r'.nextToken)) && r.nextToken <= r'.nextToken
  {
    var r' := OnOne(b, r, e, c);
    var ev := b.build(e, b.params, OnMode);
    var id := FnId(c.fn, c.fnCtx);
    OnOneEffect(b, r, e, c);
    if Registered(r.storage, ev, id) {
      assert Issued(r.nextToken, r'.nextToken) == {};
    } else {
      assert Issued(r.nextToken, r'.nextToken) == {r.nextToken};
      forall ev' ensures Bucket(r.storage, ev').Values <= Bucket(r'.storage, ev').Values {
        if ev' == ev {
          forall v | v in Bucket(r.storage, ev).Values ensures v in Bucket(r'.storage, ev).Values {
            var k :| k in Bucket(r.storage, ev) && Bucket(r.storage, ev)[k] == v;
            assert Bucket(r'.storage, ev)[k] == v;
          }
        }
      }
      var h := Bucket(r'.storage, ev)[id];
      assert h in Bucket(r'.storage, ev).Values;
    }
  }

  /** `un` for one type keeps the invariant. */
  lemma UnHandlerOneKeepsTracks(b: Binding, r: Reg, e: EventArg, fn: Value, fnCtx: Value, mine: set<nat>)
    requires Tracks(b, r, mine)
    ensures var r' := UnHandlerOne(b, r, e, fn, fnCtx); Tracks(b, r', mine) && r'.nextToken == r.nextToken
  {
    var ev := b.build(e, b.params, UnMode);
    var id := FnId(fn, fnCtx);
    var nodes := b.params.bindDomNodes;
    var r' := UnHandlerOne(b, r, e, fn, fnCtx);
    if Registered(r.storage, ev, id) {
      var bucket := Bucket(r.storage, ev);
      var h := bucket[id];
      assert Bucket(r'.storage, ev) == bucket - {id};
      assert forall ev' | ev' != ev :: Bucket(r'.storage, ev') == Bucket(r.storage, ev');
      forall l | l in r'.listeners && l.handler.Wrapped? && l.handler.token in mine
        ensures l.node in nodes && l.handler in Bucket(r'.storage, l.event).Values
      {
        if l.event == ev {
          var k :| k in bucket && bucket[k] == l.handler;
          assert l !in Attachments(nodes, ev, h);
          assert k != id;
          assert Bucket(r'.storage, ev)[k] == l.handler;
        }
      }
    }
  }

  /** `_unbindByEvent` keeps the invariant. */
  lemma UnbindByEventKeepsTracks(b: Binding, r: Reg, ev: EventType, mine: set<nat>)
    requires Tracks(b, r, mine)
    ensures Tracks(b, UnbindByEvent(b, r, ev), mine)
  {
    var r' := UnbindByEvent(b, r, ev);
    var nodes := b.params.bindDomNodes;
    assert forall ev' :: Bucket(r'.storage, ev') == if ev' == ev then map[] else Bucket(r.storage, ev');
    forall l | l in r.listeners && l.handler.Wrapped? && l.handler.token in mine && l.event == ev
      ensures l in AttachmentsOf(nodes, ev, Bucket(r.storage, ev).Values)
    {
      assert l == Listener(l.node, ev, l.handler);
    }
  }

  /** Every listener carrying one of the manager's wrappers is one its table records. */
  lemma OwnedAttached(b: Binding, r: Reg, mine: set<nat>)
    requires Owned(b, r, mine)
    ensures forall l | l in r.listeners && l.handler.Wrapped? && l.handler.token in mine ::
      l in AttachedBy(b.params.bindDomNodes, r.storage)
  {
    forall l | l in r.listeners && l.handler.Wrapped? && l.handler.token in mine
      ensures l in AttachedBy(b.params.bindDomNodes, r.storage)
    {
      assert l.event in r.storage;
    }
  }

  /**
   * With the invariant, `un()` leaves no listener that carries a wrapper the manager
   * made, and the invariant holds afterwards.
   */
  lemma UnAllDetachesOwn(b: Binding, r: Reg, mine: set<nat>)
    requires Tracks(b, r, mine)
    ensures var r' := UnAll(b, r);
      && (forall l | l in r'.listeners && l.handler.Wrapped? :: l.handler.token !in mine)
      && Tracks(b, r', mine)
  {
    OwnedAttached(b, r, mine);
  }

  /** `on` for a list of types keeps the invariant. */
  lemma {:induction false} OnPiecesKeepsTracks(b: Binding, r: Reg, pieces: seq<string>, c: Call, mine: set<nat>)
    requires Tracks(b, r, mine)
    ensures var r' := OnPieces(b, r, pieces, c);
      Tracks(b, r', mine + Issued(r.nextToken, r'.nextToken)) && r.nextToken <= r'.nextToken
  {
    if pieces == [] {
      assert Issued(r.nextToken, r.nextToken) == {};
    } else {
      var r0 := OnPieces(b, r, pieces[..|pieces| - 1], c);
      OnPiecesKeepsTracks(b, r, pieces[..|pieces| - 1], c, mine);
      OnOneKeepsTracks(b, r0, Name(pieces[|pieces| - 1]), c, mine + Issued(r.nextToken, r0.nextToken));
      IssuedSplit(r.nextToken, r0.nextToken, OnPieces(b, r, pieces, c).nextToken);
    }
  }

  /** `un` for a list of types keeps the invariant. */
  lemma {:induction false} UnHandlerPiecesKeepsTracks(b: Binding, r: Reg, pieces: seq<string>, fn: Value, fnCtx: Value, mine: set<nat>)
    requires Tracks(b, r, mine)
    ensures var r' := UnHandlerPieces(b, r, pieces, fn, fnCtx); Tracks(b, r', mine) && r'.nextToken == r.nextToken
  {
    if pieces != [] {
      UnHandlerPiecesKeepsTracks(b, r, pieces[..|pieces| - 1], fn, fnCtx, mine);
      UnHandlerOneKeepsTracks(b, UnHandlerPieces(b, r, pieces[..|pieces| - 1], fn, fnCtx), Name(pieces[|pieces| - 1]), fn, fnCtx, mine);
    }
  }

  /**
   * Every method of the manager keeps the invariant; the wrappers it makes are the
   * identities the counter passes over, and they become the manager's.
   */
  lemma ApplyKeepsTracks(b: Binding, r: Reg, op: Op, mine: set<nat>)
    requires Tracks(b, r, mine)
    ensures var r' := Apply(b, r, op);
      Tracks(b, r', mine + Issued(r.nextToken, r'.nextToken)) && r.nextToken <= r'.nextToken
  {
    var r' := Apply(b, r, op);
    match op
    case OnOp(e, data, fn, fnCtx, isOnce) =>
      var c := OnCall(data, fn, fnCtx, isOnce);
      if Spaced(e) { OnPiecesKeepsTracks(b, r, TypeList.Split(e.s), c, mine); } else { OnOneKeepsTracks(b, r, e, c, mine); }
    case OnceOp(e, data, fn, fnCtx) =>
      var (d, f, x) := OnceShift(data, fn, fnCtx);
      var c := OnCall(d, f, x, Bool(true));
      if Spaced(e) { OnPiecesKeepsTracks(b, r, TypeList.Split(e.s), c, mine); } else { OnOneKeepsTracks(b, r, e, c, mine); }
    case UnAllOp =>
      UnAllDetachesOwn(b, r, mine);
      assert Issued(r.nextToken, r'.nextToken) == {};
    case UnEventOp(e) =>
      if Spaced(e) {
        UnHandlerPiecesKeepsTracks(b, r, TypeList.Split(e.s), Undef, Undef, mine);
      } else {
        UnbindByEventKeepsTracks(b, r, b.build(e, b.params, UnMode), mine);
      }
      assert Issued(r.nextToken, r'.nextToken) == {};
    case UnHandlerOp(e, fn, fnCtx) =>
      if Spaced(e) {
        UnHandlerPiecesKeepsTracks(b, r, TypeList.Split(e.s), fn, fnCtx, mine);
      } else {
        UnHandlerOneKeepsTracks(b, r, e, fn, fnCtx, mine);
      }
      assert Issued(r.nextToken, r'.nextToken) == {};
  }

  /**
   * The registry's invariant: for one event type and one handler identity, each bind
   * node holds at most one listener made by the manager.
   */
  lemma OneListenerPerSlot(b: Binding, r: Reg, mine: set<nat>)
    requires Tracks(b, r, mine)
    ensures forall l1, l2 | && l1 in r.listeners && l2 in r.listeners
                            && l1.handler.Wrapped? && l2.handler.Wrapped?
                            && l1.handler.token in mine && l2.handler.token in mine
                            && l1.node == l2.node && l1.event == l2.event
                            && l1.handler.fnId == l2.handler.fnId ::
      l1 == l2
  {
    forall l1, l2 | && l1 in r.listeners && l2 in r.listeners
                    && l1.handler.Wrapped? && l2.handler.Wrapped?
                    && l1.handler.token in mine && l2.handler.token in mine
                    && l1.node == l2.node && l1.event == l2.event
                    && l1.handler.fnId == l2.handler.fnId
      ensures l1 == l2
    {
      var bucket := Bucket(r.storage, l1.event);
      var k1 :| k1 in bucket && bucket[k1] == l1.handler;
      var k2 :| k2 in bucket && bucket[k2] == l2.handler;
    }
  }

  /** Every listener an operation adds carries a wrapper made during that operation. */
  lemma {:induction false} OnPiecesAddsFresh(b: Binding, r: Reg, pieces: seq<string>, c: Call)
    ensures var r' := OnPieces(b, r, pieces, c);
      && r.nextToken <= r'.nextToken
      && forall l | l in r'.listeners && l !in r.listeners :: l.handler.Wrapped? && r.nextToken <= l.handler.token
  {
    if pieces != [] {
      OnPiecesAddsFresh(b, r, pieces[..|pieces| - 1], c);
    }
  }

  /** The same for every method of a manager. */
  lemma ApplyAddsFresh(b: Binding, r: Reg, op: Op)
    ensures var r' := Apply(b, r, op);
      && r.nextToken <= r'.nextToken
      && forall l | l in r'.listeners && l !in r.listeners :: l.handler.Wrapped? && r.nextToken <= l.handler.token
  {
    match op
    case OnOp(e, data, fn, fnCtx, isOnce) =>
      if Spaced(e) { OnPiecesAddsFresh(b, r, TypeList.Split(e.s), OnCall(data, fn, fnCtx, isOnce)); }
    case OnceOp(e, data, fn, fnCtx) =>
      var (d, f, x) := OnceShift(data, fn, fnCtx);
      if Spaced(e) { OnPiecesAddsFresh(b, r, TypeList.Split(e.s), OnCall(d, f, x, Bool(true))); }
    case UnAllOp =>
    case UnEventOp(e) =>
      if Spaced(e) { UnHandlerPiecesShrinks(b, r, TypeList.Split(e.s), Undef, Undef); }
    case UnHandlerOp(e, fn, fnCtx) =>
      if Spaced(e) { UnHandlerPiecesShrinks(b, r, TypeList.Split(e.s), fn, fnCtx); }
  }

  /** `un` makes no wrapper: the host's counter stays where it was. */
  lemma UnbindingKeepsCounter(b: Binding, r: Reg, op: Op)
    requires op.Unbinds()
    ensures Apply(b, r, op).nextToken == r.nextToken
  {
    match op
    case UnAllOp =>
    case UnEventOp(e) =>
      if Spaced(e) { UnHandlerPiecesShrinks(b, r, TypeList.Split(e.s), Undef, Undef); }
    case UnHandlerOp(e, fn, fnCtx) =>
      if Spaced(e) { UnHandlerPiecesShrinks(b, r, TypeList.Split(e.s), fn, fnCtx); }
  }

  /**
   * Managers share the host: a method of another manager, on its own table `r2.storage`,
   * keeps this manager's table accounting for this manager's listeners.
   */
  lemma OtherKeepsOwned(b: Binding, s: Storage, b2: Binding, r2: Reg, op: Op, mine: set<nat>)
    requires Owned(b, Reg(s, r2.listeners, r2.nextToken), mine)
    requires forall t | t in mine :: t < r2.nextToken
    ensures var r' := Apply(b2, r2, op);
      && Owned(b, Reg(s, r'.listeners, r'.nextToken), mine)
      && forall t | t in mine :: t < r'.nextToken
  {
    ApplyAddsFresh(b2, r2, op);
  }

  /** The same for the whole invariant of this manager, whose table `s` the call leaves alone. */
  lemma OtherKeepsTracks(b: Binding, s: Storage, b2: Binding, r2: Reg, op: Op, mine: set<nat>)
    requires Tracks(b, Reg(s, r2.listeners, r2.nextToken), mine)
    ensures var r' := Apply(b2, r2, op); Tracks(b, Reg(s, r'.listeners, r'.nextToken), mine)
  {
    OtherKeepsOwned(b, s, b2, r2, op, mine);
    ApplyKeepsTokens(b2, r2, op);
  }

  // ---------------------------------------------------------------------------------
  // `un(e)` with a space-separated list
  // ---------------------------------------------------------------------------------

  /** `un(piece, fn, _fnCtx)` removes no registration other than `(fn, _fnCtx)`'s. */
  lemma {:induction false} UnHandlerPiecesKeeps(b: Binding, r: Reg, pieces: seq<string>,
                                                fn: Value, fnCtx: Value, ev: EventType, id: FnId)
    requires id != FnId(fn, fnCtx) && Registered(r.storage, ev, id)
    ensures Registered(UnHandlerPieces(b, r, pieces, fn, fnCtx).storage, ev, id)
  {
    if pieces != [] {
      UnHandlerPiecesKeeps(b, r, pieces[..|pieces| - 1], fn, fnCtx, ev, id);
    }
  }

  /**
   * As written, `un("a b")` removes no handler registered with a function: each piece
   * goes to `un(piece, undefined, undefined)`, which looks for the identity of
   * `(undefined, undefined)` only (lines 125-131).
   */
  lemma UnEventListKeepsHandlers(b: Binding, r: Reg, e: EventArg, ev: EventType, id: FnId)
    requires Spaced(e)
    requires id != FnId(Undef, Undef) && Registered(r.storage, ev, id)
    ensures Registered(UnEvent(b, r, e).storage, ev, id)
  {
    UnHandlerPiecesKeeps(b, r, TypeList.Split(e.s), Undef, Undef, ev, id);
  }

  /** `_unbindByEvent` for the event type of each piece in order. */
  function UnbindPieces(b: Binding, r: Reg, pieces: seq<string>): Reg
  {
    if pieces == [] then r
    else
      var r0 := UnbindPieces(b, r, pieces[..|pieces| - 1]);
      UnbindByEvent(b, r0, b.build(Name(pieces[|pieces| - 1]), b.params, UnMode))
  }

  /** `un(e)` as evidently intended: a list unbinds every listed event type, like `un(piece)`. */
  function UnEventIntended(b: Binding, r: Reg, e: EventArg): Reg
  {
    if Spaced(e) then UnbindPieces(b, r, TypeList.Split(e.s))
    else UnbindByEvent(b, r, b.build(e, b.params, UnMode))
  }

  /** Unbinding pieces sets each listed entry to `null` and only removes listeners. */
  lemma {:induction false} UnbindPiecesClears(b: Binding, r: Reg, pieces: seq<string>)
    ensures var r' := UnbindPieces(b, r, pieces);
      && (forall i | 0 <= i < |pieces| ::
            var ev := b.build(Name(pieces[i]), b.params, UnMode);
            ev in r'.storage && r'.storage[ev] == None)
      && r'.listeners <= r.listeners && r'.nextToken == r.nextToken
  {
    if pieces != [] {
      var init := pieces[..|pieces| - 1];
      UnbindPiecesClears(b, r, init);
      var r' := UnbindPieces(b, r, pieces);
      forall i | 0 <= i < |pieces|
        ensures var ev := b.build(Name(pieces[i]), b.params, UnMode); ev in r'.storage && r'.storage[ev] == None
      {
        if i < |pieces| - 1 {
          assert pieces[i] == init[i];
        }
      }
    }
  }

  /**
   * With the intended definition, `un(e)` leaves no handler registered under any event
   * type it names, and each of those entries is `null`, as `un(piece)` does for one type.
   */
  lemma UnEventIntendedClears(b: Binding, r: Reg, e: EventArg)
    ensures var r' := UnEventIntended(b, r, e);
      && (Spaced(e) ==> forall i, id | 0 <= i < |TypeList.Split(e.s)| ::
            !Registered(r'.storage, b.build(Name(TypeList.Split(e.s)[i]), b.params, UnMode), id))
      && (!Spaced(e) ==> forall id :: !Registered(r'.storage, b.build(e, b.params, UnMode), id))
      && r'.listeners <= r.listeners
  {
    if Spaced(e) {
      UnbindPiecesClears(b, r, TypeList.Split(e.s));
    }
  }
}
