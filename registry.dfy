/**
 * The handler registry `EventManager` (lines 33-173) as a class that updates its table
 * in place, and the host it attaches native listeners to. Every method states its new
 * state as the matching transition of `RegistrySpec`.
 */
module Registry {
  import opened Wrappers
  import opened BemDom
  import opened RegistrySpec
  import TypeList

  /**
   * The host environment: the native listeners of every event target (the "event
   * listener list" of the EventTarget interface, section 2.7 of the WHATWG DOM
   * Standard) and the allocation of new function objects.
   */
  class Host {
    ghost var listeners: set<Listener>
    var nextToken: nat

    /** No listener refers to a function that has not been allocated yet. */
    ghost predicate Valid()
      reads this
    {
      TokensBelow(listeners, nextToken)
    }

    constructor ()
      ensures Valid() && listeners == {} && nextToken == 0
    {
      listeners := {};
      nextToken := 0;
    }

    /**
     * `_handlerWrapper(inner, data, _fnCtx, fnId)`: the caller-supplied wrapper builds a
     * new function closing over its four arguments; only its identity matters here.
     */
    method NewWrapper(inner: Inner, data: Value, fnCtx: Value, fnId: FnId) returns (h: Handler)
      requires Valid()
      modifies this`nextToken
      ensures Valid()
      ensures h == Wrapped(old(nextToken), inner, data, fnCtx, fnId)
      ensures nextToken == old(nextToken) + 1
    {
      h := Wrapped(nextToken, inner, data, fnCtx, fnId);
      nextToken := nextToken + 1;
    }
  }

  class EventManager {
    const host: Host
    const params: Params
    const build: EventBuilder
    var storage: Storage
    /** The identities of the wrappers this manager has made. */
    ghost var issued: set<nat>

    /** The constants the specification functions need. */
    function Binding(): Binding
    {
      RegistrySpec.Binding(params, build)
    }

    /** The table together with the host state it changes. */
    ghost function View(): Reg
      reads this, host
    {
      Reg(storage, host.listeners, host.nextToken)
    }

    /** The table accounts for every native listener that carries one of the manager's wrappers. */
    ghost predicate Tracked()
      reads this, host
    {
      Tracks(Binding(), View(), issued)
    }

    /** `__constructor(params, handlerWrapper, eventBuilder)` (lines 40-45). */
    constructor (host: Host, params: Params, build: EventBuilder)
      ensures this.host == host && this.params == params && this.build == build
      ensures storage == map[] && issued == {}
      ensures host.Valid() ==> Tracked()
    {
      this.host := host;
      this.params := params;
      this.build := build;
      storage := map[];
      issued := {};
      new;
      if host.Valid() {
        TracksInitially(Binding(), host.listeners, host.nextToken);
      }
    }

    /** `bindDomNodes.forEach(n => n.addEventListener(ev, h, false))` (lines 91-93). */
    method Attach(ev: EventType, h: Handler)
      modifies host`listeners
      ensures host.listeners == old(host.listeners) + Attachments(params.bindDomNodes, ev, h)
    {
      var nodes := params.bindDomNodes;
      for i := 0 to |nodes|
        invariant host.listeners == old(host.listeners) + Attachments(nodes[..i], ev, h)
      {
        assert Attachments(nodes[..i + 1], ev, h) == Attachments(nodes[..i], ev, h) + {Listener(nodes[i], ev, h)} by {
          assert nodes[..i + 1] == nodes[..i] + [nodes[i]];
        }
        host.listeners := host.listeners + {Listener(nodes[i], ev, h)};
      }
      assert nodes[..|nodes|] == nodes;
    }

    /** `bindDomNodes.forEach(n => n.removeEventListener(ev, h))` (lines 150-152, 167-169). */
    method Detach(ev: EventType, h: Handler)
      modifies host`listeners
      ensures host.listeners == old(host.listeners) - Attachments(params.bindDomNodes, ev, h)
    {
      var nodes := params.bindDomNodes;
      for i := 0 to |nodes|
        invariant host.listeners == old(host.listeners) - Attachments(nodes[..i], ev, h)
      {
        assert Attachments(nodes[..i + 1], ev, h) == Attachments(nodes[..i], ev, h) + {Listener(nodes[i], ev, h)} by {
          assert nodes[..i + 1] == nodes[..i] + [nodes[i]];
        }
        host.listeners := host.listeners - {Listener(nodes[i], ev, h)};
      }
      assert nodes[..|nodes|] == nodes;
    }

    /** `on` for one event type (lines 63-96). */
    method OnOne(e: EventArg, data: Value, fn: Value, fnCtx: Value, isOnce: Value)
      requires host.Valid()
      modifies this, host
      ensures host.Valid()
      ensures View() == RegistrySpec.OnOne(Binding(), old(View()), e, OnCall(data, fn, fnCtx, isOnce))
      ensures issued == old(issued) + Issued(old(host.nextToken), host.nextToken)
    {
      var ev := build(e, params, OnMode);
      ghost var c := OnCall(data, fn, fnCtx, isOnce);
      var data, fn, fnCtx, isOnce := data, fn, fnCtx, Truthy(isOnce);
      if data.Func? {
        isOnce := Truthy(fnCtx);
        fnCtx := fn;
        fn := data;
        data := Undef;
      }
      assert Call(data, fn, fnCtx, isOnce) == c;
      ghost var bucket := Bucket(storage, ev);
      if !(ev in storage && storage[ev].Some?) {
        storage := storage[ev := Some(map[])];
      }
      var id := FnId(fn, fnCtx);
      if id !in storage[ev].value {
        var inner := if isOnce then OnceWrap(e, fn, fnCtx) else Direct(fn);
        var h := host.NewWrapper(inner, data, fnCtx, id);
        issued := issued + {h.token};
        assert Issued(old(host.nextToken), host.nextToken) == {h.token};
        storage := storage[ev := Some(storage[ev].value[id := h])];
        assert storage == old(storage)[ev := Some(bucket[id := h])];
        Attach(ev, h);
      } else {
        assert Issued(old(host.nextToken), host.nextToken) == {};
      }
    }

    /** `on(e, data, fn, _fnCtx, _isOnce)` (lines 54-97). */
    method On(e: EventArg, data: Value, fn: Value, fnCtx: Value, isOnce: Value)
      requires host.Valid()
      modifies this, host
      ensures host.Valid()
      ensures View() == RegistrySpec.On(Binding(), old(View()), e, data, fn, fnCtx, isOnce)
      ensures issued == old(issued) + Issued(old(host.nextToken), host.nextToken)
    {
      if Spaced(e) {
        var pieces := TypeList.Split(e.s);
        ghost var c := OnCall(data, fn, fnCtx, isOnce);
        for i := 0 to |pieces|
          invariant host.Valid()
          invariant View() == OnPieces(Binding(), old(View()), pieces[..i], c)
          invariant old(host.nextToken) <= host.nextToken
          invariant issued == old(issued) + Issued(old(host.nextToken), host.nextToken)
        {
          assert pieces[..i + 1][..i] == pieces[..i];
          ghost var n0 := host.nextToken;
          OnOne(Name(pieces[i]), data, fn, fnCtx, isOnce);
          IssuedSplit(old(host.nextToken), n0, host.nextToken);
        }
        assert pieces[..|pieces|] == pieces;
      } else {
        OnOne(e, data, fn, fnCtx, isOnce);
      }
    }

    /** `once(e, data, fn, _fnCtx)` (lines 106-114). */
    method Once(e: EventArg, data: Value, fn: Value, fnCtx: Value)
      requires host.Valid()
      modifies this, host
      ensures host.Valid()
      ensures View() == RegistrySpec.Once(Binding(), old(View()), e, data, fn, fnCtx)
      ensures issued == old(issued) + Issued(old(host.nextToken), host.nextToken)
    {
      var data, fn, fnCtx := data, fn, fnCtx;
      if data.Func? {
        fnCtx := fn;
        fn := data;
        data := Undef;
      }
      On(e, data, fn, fnCtx, Bool(true));
    }

    /** `un(e, fn, _fnCtx)` for one event type (lines 133-152). */
    method UnHandlerOne(e: EventArg, fn: Value, fnCtx: Value)
      requires host.Valid()
      modifies this, host`listeners
      ensures host.Valid()
      ensures View() == RegistrySpec.UnHandlerOne(Binding(), old(View()), e, fn, fnCtx)
      ensures issued == old(issued)
    {
      var ev := build(e, params, UnMode);
      var id := FnId(fn, fnCtx);
      var handler := Raw(fn);
      if ev in storage && storage[ev].Some? && id in storage[ev].value {
        handler := storage[ev].value[id];
        storage := storage[ev := Some(storage[ev].value - {id})];
      }
      Detach(ev, handler);
    }

    /** `un(e, fn, _fnCtx)` with two or three arguments (lines 122-153). */
    method UnHandler(e: EventArg, fn: Value, fnCtx: Value)
      requires host.Valid()
      modifies this, host`listeners
      ensures host.Valid()
      ensures View() == RegistrySpec.UnHandler(Binding(), old(View()), e, fn, fnCtx)
      ensures issued == old(issued)
    {
      if Spaced(e) {
        UnHandlerPieces(TypeList.Split(e.s), fn, fnCtx);
      } else {
        UnHandlerOne(e, fn, fnCtx);
      }
    }

    /** The loop of lines 126-128: `un(piece, fn, _fnCtx)` for each piece in order. */
    method UnHandlerPieces(pieces: seq<string>, fn: Value, fnCtx: Value)
      requires host.Valid()
      modifies this, host`listeners
      ensures host.Valid()
      ensures View() == RegistrySpec.UnHandlerPieces(Binding(), old(View()), pieces, fn, fnCtx)
      ensures issued == old(issued)
    {
      for i := 0 to |pieces|
        invariant host.Valid()
        invariant View() == RegistrySpec.UnHandlerPieces(Binding(), old(View()), pieces[..i], fn, fnCtx)
        invariant issued == old(issued)
      {
        assert pieces[..i + 1][..i] == pieces[..i];
        UnHandlerOne(Name(pieces[i]), fn, fnCtx);
      }
      assert pieces[..|pieces|] == pieces;
    }

    /** `_unbindByEvent(_storage[ev], ev)` (lines 161-172). */
    method UnbindByEvent(ev: EventType)
      requires host.Valid()
      modifies this, host`listeners
      ensures host.Valid()
      ensures View() == RegistrySpec.UnbindByEvent(Binding(), old(View()), ev)
      ensures issued == old(issued)
    {
      var all := Bucket(storage, ev).Values;
      var rest := all;
      while rest != {}
        invariant rest <= all
        invariant host.Valid() && storage == old(storage) && issued == old(issued)
        invariant host.listeners == old(host.listeners) - AttachmentsOf(params.bindDomNodes, ev, all - rest)
        decreases rest
      {
        var h :| h in rest;
        Detach(ev, h);
        assert AttachmentsOf(params.bindDomNodes, ev, all - (rest - {h}))
            == AttachmentsOf(params.bindDomNodes, ev, all - rest) + Attachments(params.bindDomNodes, ev, h);
        rest := rest - {h};
      }
      assert all - rest == all;
      storage := storage[ev := None];
    }

    /** `un(e)` with one argument (lines 124-137). */
    method UnEvent(e: EventArg)
      requires host.Valid()
      modifies this, host`listeners
      ensures host.Valid()
      ensures View() == RegistrySpec.UnEvent(Binding(), old(View()), e)
      ensures issued == old(issued)
    {
      if Spaced(e) {
        UnHandlerPieces(TypeList.Split(e.s), Undef, Undef);
      } else {
        UnbindByEvent(build(e, params, UnMode));
      }
    }

    /** `un()` with no argument: `objects.each(_storage, _unbindByEvent)` (line 155). */
    method UnAll()
      requires host.Valid()
      modifies this, host`listeners
      ensures host.Valid()
      ensures View() == RegistrySpec.UnAll(Binding(), old(View()))
      ensures issued == old(issued)
      ensures old(Tracked()) ==> Tracked() && forall l | l in host.listeners && l.handler.Wrapped? :: l.handler.token !in issued
    {
      var nodes := params.bindDomNodes;
      var keys := storage.Keys;
      while keys != {}
        invariant keys <= old(storage).Keys && storage.Keys == old(storage).Keys
        invariant host.Valid() && issued == old(issued)
        invariant forall ev | ev in storage :: storage[ev] == if ev in keys then old(storage)[ev] else None
        invariant host.listeners == old(host.listeners) - AttachedBy(nodes, Done(old(storage), keys))
        decreases keys
      {
        var ev :| ev in keys;
        assert Bucket(storage, ev) == Bucket(old(storage), ev);
        UnbindByEvent(ev);
        DoneStep(nodes, old(storage), keys, ev);
        keys := keys - {ev};
      }
      assert Done(old(storage), keys) == old(storage);
      assert storage == map ev | ev in old(storage) :: None;
      if old(Tracked()) {
        UnAllDetachesOwn(Binding(), old(View()), issued);
      }
    }

    /** The entries of `s` whose key is no longer in `pending`. */
    static ghost function Done(s: Storage, pending: set<EventType>): Storage
    {
      map ev | ev in s && ev !in pending :: s[ev]
    }

    static lemma DoneStep(nodes: seq<Node>, s: Storage, pending: set<EventType>, ev: EventType)
      requires ev in pending && pending <= s.Keys
      ensures AttachedBy(nodes, Done(s, pending - {ev}))
           == AttachedBy(nodes, Done(s, pending)) + AttachmentsOf(nodes, ev, Bucket(s, ev).Values)
    {
      var d0, d1 := Done(s, pending), Done(s, pending - {ev});
      assert forall k | k in d0 :: Bucket(d1, k) == Bucket(d0, k);
      assert Bucket(d1, ev) == Bucket(s, ev);
      forall l | l in AttachedBy(nodes, d1)
        ensures l in AttachedBy(nodes, d0) + AttachmentsOf(nodes, ev, Bucket(s, ev).Values)
      {
        if l.event != ev {
          assert l.event in d0;
        }
      }
    }

    /**
     * The call of a handler this manager made, as far as the registry sees it: a `once`
     * wrapper runs `un(e, fn, _fnCtx)` before the user function (lines 82-85).
     */
    method Fire(h: Handler)
      requires host.Valid()
      modifies this, host`listeners
      ensures host.Valid()
      ensures View() == RegistrySpec.Fire(Binding(), old(View()), h)
      ensures issued == old(issued)
    {
      if h.Wrapped? && h.inner.OnceWrap? {
        UnHandler(h.inner.e, h.inner.fn, h.inner.fnCtx);
      }
    }

    /** `eventManager[methodName].apply(eventManager, args)` (line 179). */
    method Dispatch(op: Op)
      requires host.Valid()
      modifies this, host
      ensures host.Valid()
      ensures View() == Apply(Binding(), old(View()), op)
      ensures issued == old(issued) + Issued(old(host.nextToken), host.nextToken)
      ensures old(Tracked()) ==> Tracked()
    {
      ghost var v0, i0 := View(), issued;
      match op {
        case OnOp(e, data, fn, fnCtx, isOnce) => On(e, data, fn, fnCtx, isOnce);
        case OnceOp(e, data, fn, fnCtx) => Once(e, data, fn, fnCtx);
        case UnAllOp => UnAll();
        case UnEventOp(e) => UnEvent(e);
        case UnHandlerOp(e, fn, fnCtx) => UnHandler(e, fn, fnCtx);
      }
      if Tracks(Binding(), v0, i0) {
        ApplyKeepsTracks(Binding(), v0, op, i0);
      }
    }
  }
}
