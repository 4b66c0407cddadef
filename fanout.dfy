/**
 * `CollectionEventManager` (lines 185-222): a manager over the members of an entity
 * collection that forwards every call, with its arguments unchanged, to each member's
 * manager in order (`buildForEachEventManagerProxyFn`, lines 174-184).
 */
module Fanout {
  import opened Wrappers
  import opened BemDom
  import opened RegistrySpec
  import Registry

  type EventManager = Registry.EventManager

  /** The tables of a group of managers that share one host, and the host's state. */
  datatype Global = Global(stores: map<EventManager, Storage>, listeners: set<Listener>, nextToken: nat)

  /** The view that manager `m` has of the global state. */
  function RegOf(g: Global, m: EventManager): Reg
    requires m in g.stores
  {
    Reg(g.stores[m], g.listeners, g.nextToken)
  }

  /** One forwarded call: `m[methodName].apply(m, args)` (line 179). */
  function Step(g: Global, m: EventManager, op: Op): (g': Global)
    requires m in g.stores
    ensures g'.stores.Keys == g.stores.Keys
    ensures forall m' | m' in g.stores && m' != m :: g'.stores[m'] == g.stores[m']
  {
    var r := Apply(m.Binding(), RegOf(g, m), op);
    Global(g.stores[m := r.storage], r.listeners, r.nextToken)
  }

  /** The calls of lines 178-180 on `ms[0]`, `ms[1]`, ... in this order. */
  function Forwarded(g: Global, ms: seq<EventManager>, op: Op): (g': Global)
    requires forall i | 0 <= i < |ms| :: ms[i] in g.stores
    ensures g'.stores.Keys == g.stores.Keys
    ensures forall m | m in g.stores && m !in ms :: g'.stores[m] == g.stores[m]
  {
    if ms == [] then g
    else Step(Forwarded(g, ms[..|ms| - 1], op), ms[|ms| - 1], op)
  }

  /** The calls on the first `i + 1` members: those on the first `i`, then one on `ms[i]`. */
  lemma ForwardedSnoc(g: Global, ms: seq<EventManager>, i: nat, op: Op)
    requires i < |ms| && forall j | 0 <= j < |ms| :: ms[j] in g.stores
    ensures Forwarded(g, ms[..i + 1], op) == Step(Forwarded(g, ms[..i], op), ms[i], op)
  {
    assert ms[..i + 1][..i] == ms[..i];
  }

  /** Two tables over the members `ms` that agree on each member are the same table. */
  lemma SameStores(a: map<EventManager, Storage>, b: map<EventManager, Storage>, ms: seq<EventManager>)
    requires a.Keys == (set m | m in ms) && b.Keys == a.Keys
    requires forall m | m in ms :: a[m] == b[m]
    ensures a == b
  {
  }

  class CollectionEventManager {
    /** The host every member attaches to. */
    ghost const host: Registry.Host
    /** `_eventManagers`. */
    const managers: seq<EventManager>

    ghost predicate Valid()
      reads this, host
    {
      host.Valid() && forall m | m in managers :: m.host == host
    }

    /** The members' tables and the host's state. */
    ghost function GlobalView(): Global
      reads this, host, set m | m in managers
    {
      Global(map m | m in managers :: m.storage, host.listeners, host.nextToken)
    }

    /** `__constructor(eventManagers)` (lines 193-195). */
    constructor (ghost host: Registry.Host, managers: seq<EventManager>)
      requires host.Valid() && forall m | m in managers :: m.host == host
      ensures Valid() && this.host == host && this.managers == managers
    {
      this.host := host;
      this.managers := managers;
    }

    /** The proxy of lines 175-182 for one method and arity. */
    method Forward(op: Op)
      requires Valid()
      modifies host, set m | m in managers
      ensures Valid()
      ensures GlobalView() == Forwarded(old(GlobalView()), managers, op)
      ensures Keeps(op, old(host.nextToken))
    {
      ghost var g0 := GlobalView();
      ghost var g := g0;
      ghost var tracked0 := map m | m in managers :: m.Tracked();
      ghost var issued0 := map m | m in managers :: m.issued;
      forall m | m in managers
        ensures KeptBy(m, op, tracked0[m], issued0[m], host.nextToken)
      {
        assert Issued(host.nextToken, host.nextToken) == {};
      }
      for i := 0 to |managers|
        invariant Valid()
        invariant g == Forwarded(g0, managers[..i], op)
        invariant Mirrors(g)
        invariant KeptFrom(op, tracked0, issued0, old(host.nextToken))
      {
        ForwardedSnoc(g0, managers, i, op);
        g := ForwardTo(managers[i], op, g, tracked0, issued0, old(host.nextToken));
      }
      assert managers[..|managers|] == managers;
      SameStores(GlobalView().stores, g.stores, managers);
    }

    /** The members' tables and the host's state are those of `g`. */
    ghost predicate Mirrors(g: Global)
      reads this, host, set m | m in managers
    {
      && host.listeners == g.listeners && host.nextToken == g.nextToken
      && forall m | m in managers :: m in g.stores && m.storage == g.stores[m]
    }

    /**
     * How the members' own wrappers have changed since the state `old` of the calling
     * method, whose counter stood at `n0`: each member keeps its tracking invariant; its
     * wrappers grow only by identities the counter has passed since; `un` makes none.
     */
    twostate predicate Keeps(new op: Op, n0: nat)
      reads this, host, set m | m in managers
    {
      KeptFrom(op, map m | m in managers :: old(m.Tracked()), map m | m in managers :: old(m.issued), n0)
    }

    /** `Keeps`, against a record of each member's state: `tracked0[m]` and `issued0[m]`. */
    ghost predicate KeptFrom(op: Op, tracked0: map<EventManager, bool>, issued0: map<EventManager, set<nat>>, n0: nat)
      reads this, host, set m | m in managers
    {
      && n0 <= host.nextToken
      && forall m | m in managers :: m in tracked0 && m in issued0 && m.host == host && KeptBy(m, op, tracked0[m], issued0[m], n0)
    }

    /**
     * Member `m`, which was `tracked0` and had made `issued0` when the counter stood at
     * `n0`: tracked if it was, with wrappers grown only by identities passed since.
     */
    static ghost predicate KeptBy(m: EventManager, op: Op, tracked0: bool, issued0: set<nat>, n0: nat)
      reads m, m.host
    {
      && (tracked0 ==> m.Tracked())
      && issued0 <= m.issued <= issued0 + Issued(n0, m.host.nextToken)
      && (op.Unbinds() ==> m.issued == issued0)
    }

    /** One round of the proxy loop: `m[methodName].apply(m, args)` (line 179). */
    method ForwardTo(m: EventManager, op: Op, ghost g: Global, ghost tracked0: map<EventManager, bool>,
                     ghost issued0: map<EventManager, set<nat>>, ghost n0: nat) returns (ghost g': Global)
      requires Valid() && m in managers && Mirrors(g)
      requires KeptFrom(op, tracked0, issued0, n0)
      modifies host, m
      ensures Valid() && g' == Step(g, m, op) && Mirrors(g')
      ensures KeptFrom(op, tracked0, issued0, n0)
    {
      assert m.View() == RegOf(g, m);
      ghost var v0 := m.View();
      ghost var n1 := host.nextToken;
      m.Dispatch(op);
      g' := Step(g, m, op);
      forall m' | m' in managers && m' != m && old(m'.Tracked())
        ensures m'.Tracked()
      {
        OtherKeepsTracks(m'.Binding(), m'.storage, m.Binding(), v0, op, m'.issued);
      }
      ApplyAddsFresh(m.Binding(), v0, op);
      IssuedSplit(n0, n1, host.nextToken);
      if op.Unbinds() {
        UnbindingKeepsCounter(m.Binding(), v0, op);
      }
    }

    /** `on` (line 204). */
    method On(e: EventArg, data: Value, fn: Value, fnCtx: Value, isOnce: Value) returns (self: CollectionEventManager)
      requires Valid()
      modifies host, set m | m in managers
      ensures Valid() && self == this
      ensures GlobalView() == Forwarded(old(GlobalView()), managers, OnOp(e, data, fn, fnCtx, isOnce))
      ensures Keeps(OnOp(e, data, fn, fnCtx, isOnce), old(host.nextToken))
    {
      Forward(OnOp(e, data, fn, fnCtx, isOnce));
      self := this;
    }

    /** `once` (line 213). */
    method Once(e: EventArg, data: Value, fn: Value, fnCtx: Value) returns (self: CollectionEventManager)
      requires Valid()
      modifies host, set m | m in managers
      ensures Valid() && self == this
      ensures GlobalView() == Forwarded(old(GlobalView()), managers, OnceOp(e, data, fn, fnCtx))
      ensures Keeps(OnceOp(e, data, fn, fnCtx), old(host.nextToken))
    {
      Forward(OnceOp(e, data, fn, fnCtx));
      self := this;
    }

    /** `un()` (line 221). */
    method UnAll() returns (self: CollectionEventManager)
      requires Valid()
      modifies host, set m | m in managers
      ensures Valid() && self == this
      ensures GlobalView() == Forwarded(old(GlobalView()), managers, UnAllOp)
      ensures Keeps(UnAllOp, old(host.nextToken))
    {
      Forward(UnAllOp);
      self := this;
    }

    /** `un(e)` (line 221). */
    method UnEvent(e: EventArg) returns (self: CollectionEventManager)
      requires Valid()
      modifies host, set m | m in managers
      ensures Valid() && self == this
      ensures GlobalView() == Forwarded(old(GlobalView()), managers, UnEventOp(e))
      ensures Keeps(UnEventOp(e), old(host.nextToken))
    {
      Forward(UnEventOp(e));
      self := this;
    }

    /** `un(e, fn, _fnCtx)` (line 221). */
    method UnHandler(e: EventArg, fn: Value, fnCtx: Value) returns (self: CollectionEventManager)
      requires Valid()
      modifies host, set m | m in managers
      ensures Valid() && self == this
      ensures GlobalView() == Forwarded(old(GlobalView()), managers, UnHandlerOp(e, fn, fnCtx))
      ensures Keeps(UnHandlerOp(e, fn, fnCtx), old(host.nextToken))
    {
      Forward(UnHandlerOp(e, fn, fnCtx));
      self := this;
    }
  }

  // ---------------------------------------------------------------------------------
  // Properties of the fan-out
  // ---------------------------------------------------------------------------------

  /**
   * `on(e, ...)` through the collection registers the handler with every member, under
   * every event type that member's own builder makes of `e` or of the pieces of a list.
   */
  lemma {:induction false} ForwardedOnRegistersEach(g: Global, ms: seq<EventManager>,
                                                    e: EventArg, data: Value, fn: Value,
                                                    fnCtx: Value, isOnce: Value)
    requires forall i | 0 <= i < |ms| :: ms[i] in g.stores
    ensures var c := OnCall(data, fn, fnCtx, isOnce);
      var g' := Forwarded(g, ms, OnOp(e, data, fn, fnCtx, isOnce));
      forall i | 0 <= i < |ms| :: RegisteredForAll(ms[i].Binding(), g'.stores[ms[i]], e, FnId(c.fn, c.fnCtx))
  {
    var c := OnCall(data, fn, fnCtx, isOnce);
    var id := FnId(c.fn, c.fnCtx);
    var op := OnOp(e, data, fn, fnCtx, isOnce);
    if ms != [] {
      var init, last := ms[..|ms| - 1], ms[|ms| - 1];
      var g0 := Forwarded(g, init, op);
      ForwardedOnRegistersEach(g, init, e, data, fn, fnCtx, isOnce);
      var g' := Step(g0, last, op);
      OnRegistersEach(last.Binding(), RegOf(g0, last), e, data, fn, fnCtx, isOnce);
      forall i | 0 <= i < |ms|
        ensures RegisteredForAll(ms[i].Binding(), g'.stores[ms[i]], e, id)
      {
        if i < |ms| - 1 {
          assert ms[i] == init[i];
          if ms[i] == last {
            OnKeepsRegistered(last.Binding(), RegOf(g0, last), e, data, fn, fnCtx, isOnce, e, id);
          }
        }
      }
    }
  }

  /** Every entry of the table is `null`. */
  predicate AllNull(s: Storage)
  {
    forall ev | ev in s :: s[ev] == None
  }

  /** `un()` through the collection leaves every member's table with only `null` entries. */
  lemma {:induction false} ForwardedUnAllClearsEach(g: Global, ms: seq<EventManager>)
    requires forall i | 0 <= i < |ms| :: ms[i] in g.stores
    ensures var g' := Forwarded(g, ms, UnAllOp);
      forall i | 0 <= i < |ms| :: AllNull(g'.stores[ms[i]])
  {
    if ms != [] {
      var init, last := ms[..|ms| - 1], ms[|ms| - 1];
      ForwardedUnAllClearsEach(g, init);
      var g0 := Forwarded(g, init, UnAllOp);
      var g' := Forwarded(g, ms, UnAllOp);
      assert g'.stores[last] == UnAll(last.Binding(), RegOf(g0, last)).storage;
      forall i | 0 <= i < |ms|
        ensures AllNull(g'.stores[ms[i]])
      {
        if ms[i] != last {
          assert ms[i] == init[i];
        }
      }
    }
  }

  /**
   * `un()` through the collection leaves no listener carrying a wrapper that any member
   * made, when each member's table accounted for its own listeners (`mine[m]` holds the
   * identities of the wrappers `m` made).
   */
  lemma {:induction false} ForwardedUnAllDetachesEach(g: Global, ms: seq<EventManager>, mine: map<EventManager, set<nat>>)
    requires forall i | 0 <= i < |ms| :: ms[i] in g.stores && ms[i] in mine
    requires forall i | 0 <= i < |ms| :: Owned(ms[i].Binding(), RegOf(g, ms[i]), mine[ms[i]])
    ensures var g' := Forwarded(g, ms, UnAllOp);
      && g'.listeners <= g.listeners
      && forall i, l | 0 <= i < |ms| && l in g'.listeners && l.handler.Wrapped? :: l.handler.token !in mine[ms[i]]
  {
    if ms != [] {
      var init, last := ms[..|ms| - 1], ms[|ms| - 1];
      ForwardedUnAllDetachesEach(g, init, mine);
      var g0 := Forwarded(g, init, UnAllOp);
      var g' := Forwarded(g, ms, UnAllOp);
      var b := last.Binding();
      assert Owned(b, RegOf(g0, last), mine[last]) by {
        if last !in init {
          assert g0.stores[last] == g.stores[last];
        } else {
          var k :| 0 <= k < |init| && init[k] == last;
          assert forall l | l in g0.listeners && l.handler.Wrapped? :: l.handler.token !in mine[init[k]];
        }
      }
      OwnedAttached(b, RegOf(g0, last), mine[last]);
      forall i, l | 0 <= i < |ms| && l in g'.listeners && l.handler.Wrapped?
        ensures l.handler.token !in mine[ms[i]]
      {
        if i < |ms| - 1 {
          assert ms[i] == init[i];
        }
      }
    }
  }

  /** Forwarding keeps the host's identities fresh and never reuses one. */
  lemma {:induction false} ForwardedKeepsTokens(g: Global, ms: seq<EventManager>, op: Op)
    requires forall i | 0 <= i < |ms| :: ms[i] in g.stores
    requires TokensBelow(g.listeners, g.nextToken)
    ensures var g' := Forwarded(g, ms, op);
      TokensBelow(g'.listeners, g'.nextToken) && g.nextToken <= g'.nextToken
  {
    if ms != [] {
      var g0 := Forwarded(g, ms[..|ms| - 1], op);
      ForwardedKeepsTokens(g, ms[..|ms| - 1], op);
      ApplyKeepsTokens(ms[|ms| - 1].Binding(), RegOf(g0, ms[|ms| - 1]), op);
    }
  }

  /** A collection of one member behaves exactly as that member's own manager. */
  lemma ForwardedSingle(g: Global, m: EventManager, op: Op)
    requires m in g.stores
    ensures var g' := Forwarded(g, [m], op);
      RegOf(g', m) == Apply(m.Binding(), RegOf(g, m), op)
  {
    assert [m][..0] == [];
  }
}
