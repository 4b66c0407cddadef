/**
 * `EventManagerFactory` (lines 227-379) and the module-wide cache `eventStorage`
 * (line 28): one manager per owning context and storage key, created on the first
 * request and returned unchanged afterwards, and the teardown closure an instance
 * context subscribes the first time (lines 266-275).
 */
module Factory {
  import opened Wrappers
  import opened BemDom
  import opened RegistrySpec
  import opened Resolver
  import opened Actors
  import Registry
  import Fanout

  type EventManager = Registry.EventManager

  /**
   * What the teardown closure of lines 269-273 captured when it was made: the
   * `bindToArbitraryDomNode` flag of that call's parameters and that call's storage key.
   */
  datatype Hook = Hook(bindToArbitraryDomNode: bool, storageKey: string)

  /** Every manager cached before is still cached, under the same context and key. */
  ghost predicate Extends(before: map<string, map<string, EventManager>>,
                          after: map<string, map<string, EventManager>>)
  {
    forall c, k | c in before && k in before[c] :: c in after && k in after[c] && after[c][k] == before[c][k]
  }

  /**
   * `eventStorage`: per owning context id, its managers by storage key; together with
   * the teardown closures subscribed so far, one per instance context.
   */
  class EventStorage {
    /** The host the cached managers attach to. */
    const host: Registry.Host
    var contexts: map<string, map<string, EventManager>>
    var hooks: map<string, Hook>

    ghost predicate Valid()
      reads this, host
    {
      && host.Valid()
      && hooks.Keys <= contexts.Keys
      && forall c, k | c in contexts && k in contexts[c] :: contexts[c][k].host == host
    }

    /** Every cached manager. */
    ghost function Managers(): set<EventManager>
      reads this
    {
      set c, k | c in contexts && k in contexts[c] :: contexts[c][k]
    }

    /** `eventStorage = {}` (line 28). */
    constructor (host: Registry.Host)
      requires host.Valid()
      ensures Valid() && this.host == host
      ensures contexts == map[] && hooks == map[]
    {
      this.host := host;
      contexts := map[];
      hooks := map[];
    }

    /**
     * The teardown closure of context `ctxId`, run when the instance loses its `js`
     * modifier (lines 269-273): when the captured flag is set and a manager is cached
     * under the captured key, that manager runs `un()`; then the closure deletes the key
     * `ctxId` from the context's own table (line 272), which leaves every cached manager
     * in place.
     */
    method Teardown(ctxId: string)
      requires Valid() && ctxId in hooks
      modifies this, host`listeners, Managers()
      ensures Valid()
      ensures hooks == old(hooks)
      ensures contexts == old(contexts)[ctxId := old(contexts)[ctxId] - {ctxId}]
      ensures var hk := old(hooks)[ctxId];
        var cs := old(contexts)[ctxId];
        if hk.bindToArbitraryDomNode && hk.storageKey in cs then
          && cs[hk.storageKey].View() == UnAll(cs[hk.storageKey].Binding(), old(cs[hk.storageKey].View()))
          && forall m | m in old(Managers()) && m != cs[hk.storageKey] :: m.storage == old(m.storage)
        else
          && host.listeners == old(host.listeners)
          && forall m | m in old(Managers()) :: m.storage == old(m.storage)
      ensures forall k | k in old(contexts)[ctxId] && k != ctxId ::
        contexts[ctxId][k] == old(contexts)[ctxId][k]
      ensures forall m | m in old(Managers()) :: m.issued == old(m.issued) && (old(m.Tracked()) ==> m.Tracked())
    {
      var hk := hooks[ctxId];
      var cs := contexts[ctxId];
      if hk.bindToArbitraryDomNode && hk.storageKey in cs {
        var m := cs[hk.storageKey];
        ghost var v0 := m.View();
        m.UnAll();
        forall m' | m' in old(Managers()) && m' != m && old(m'.Tracked())
          ensures m'.Tracked()
        {
          OtherKeepsTracks(m'.Binding(), m'.storage, m.Binding(), v0, UnAllOp, m'.issued);
        }
      }
      contexts := contexts[ctxId := contexts[ctxId] - {ctxId}];
    }
  }

  /** What `getEventManager` returns: one manager, or a collection manager (line 244). */
  datatype ManagerRef = Single(m: EventManager) | Fanned(c: Fanout.CollectionEventManager)

  /** The table of context `ctxId`, empty when it has none yet (line 266). */
  function CtxTable(contexts: map<string, map<string, EventManager>>, ctxId: string): map<string, EventManager>
  {
    if ctxId in contexts then contexts[ctxId] else map[]
  }

  /** Replacing a context's table by one that keeps its entries loses no manager. */
  lemma GrowExtends(contexts: map<string, map<string, EventManager>>, ctxId: string, table: map<string, EventManager>)
    requires forall k | k in CtxTable(contexts, ctxId) :: k in table && table[k] == CtxTable(contexts, ctxId)[k]
    ensures Extends(contexts, contexts[ctxId := table])
  {
  }

  /** Replacing a context's table by one on the same host keeps every manager on it. */
  lemma GrowKeepsHost(contexts: map<string, map<string, EventManager>>, ctxId: string,
                      table: map<string, EventManager>, host: Registry.Host)
    requires forall c, k | c in contexts && k in contexts[c] :: contexts[c][k].host == host
    requires forall k | k in table :: table[k].host == host
    ensures var after := contexts[ctxId := table];
      forall c, k | c in after && k in after[c] :: after[c][k].host == host
  {
  }

  /** `ctx.__self` for an instance, `ctx` itself for a class (lines 256-261). */
  function CtxCls(ctx: Ctx): EntityCls
  {
    match ctx
    case InstanceCtx(inst) => inst.cls
    case ClassCtx(cls) => cls
  }

  /** `''` for an instance, `ctx._buildClassName()` for a class (lines 254, 256-261). */
  function CtxClassName(ctx: Ctx): string
  {
    match ctx
    case InstanceCtx(_) => ""
    case ClassCtx(cls) => cls.className
  }

  class EventManagerFactory {
    /** `_storageSuffix = identify()`: an identity of this factory (line 229). */
    const storageSuffix: string
    /** `_getEntityCls` and the naming and identity services. */
    const env: Env
    /** `_getEntity` (line 231). */
    const getEntity: (Node, Ctx) -> Option<Instance>
    /** The event builder the managers this factory creates are given. */
    const build: EventBuilder
    /** The module-wide `eventStorage`, shared by every factory. */
    const store: EventStorage

    /** `__constructor(getEntityCls, getEntity)` (lines 228-233). */
    constructor (storageSuffix: string, env: Env, getEntity: (Node, Ctx) -> Option<Instance>,
                 build: EventBuilder, store: EventStorage)
      ensures this.storageSuffix == storageSuffix && this.env == env && this.getEntity == getEntity
      ensures this.build == build && this.store == store
    {
      this.storageSuffix := storageSuffix;
      this.env := env;
      this.getEntity := getEntity;
      this.build := build;
      this.store := store;
    }

    /** The parameters `getEventManager` builds for a non-collection target (line 263). */
    function ParamsFor(ctx: Ctx, t: BindTarget, scope: BindScope): (p: Params)
      requires !t.Collection?
      ensures p.ctxClassName == CtxClassName(ctx)
      ensures ctx.InstanceCtx? && !IsTruthy(t) ==> p.bindClassName == "" && p.bindEntityCls == Some(ctx.inst.cls)
      ensures ctx.ClassCtx? && !IsTruthy(t) ==> p.bindClassName == ctx.cls.className && p.bindEntityCls == Some(ctx.cls)
    {
      BuildParams(env, t, scope, CtxClassName(ctx), CtxCls(ctx))
    }

    /** `storageKey = params.key + storageSuffix` (line 264). */
    function StorageKey(ctx: Ctx, t: BindTarget, scope: BindScope): string
      requires !t.Collection?
    {
      ParamsFor(ctx, t, scope).key + storageSuffix
    }

    /** The cache holds `m` for context `ctx` and target `t`. */
    ghost predicate Cached(ctx: Ctx, t: BindTarget, scope: BindScope, m: EventManager)
      requires !t.Collection?
      reads store
    {
      var ctxId := env.identifyCtx(ctx);
      var key := StorageKey(ctx, t, scope);
      ctxId in store.contexts && key in store.contexts[ctxId] && store.contexts[ctxId][key] == m
    }

    /**
     * `_createEventManager(ctx, params, isInstance)`: the base class throws; the
     * subclass builds `new EventManager(params, wrapper, builder)` with its builder.
     */
    method CreateEventManager(params: Params) returns (m: EventManager)
      ensures fresh(m)
      ensures m.host == store.host && m.params == params && m.build == build && m.storage == map[]
    {
      m := new Registry.EventManager(store.host, params, build);
    }

    /** `getEventManager(ctx, bindCtx, bindScope)` for a target that is not a collection (lines 249-278). */
    method GetSingle(ctx: Ctx, t: BindTarget, scope: BindScope) returns (m: EventManager)
      requires !t.Collection? && store.Valid()
      modifies store
      ensures store.Valid()
      ensures Extends(old(store.contexts), store.contexts)
      ensures var ctxId := env.identifyCtx(ctx);
        var key := StorageKey(ctx, t, scope);
        && ctxId in store.contexts && key in store.contexts[ctxId] && store.contexts[ctxId][key] == m
        && (ctxId in old(store.contexts) && key in old(store.contexts)[ctxId] ==>
              m == old(store.contexts)[ctxId][key] && store.contexts == old(store.contexts))
        && (!(ctxId in old(store.contexts) && key in old(store.contexts)[ctxId]) ==>
              && fresh(m) && m.params == ParamsFor(ctx, t, scope) && m.build == build && m.storage == map[]
              && store.contexts == old(store.contexts)[ctxId := CtxTable(old(store.contexts), ctxId)[key := m]])
        && store.hooks == (if ctxId !in old(store.contexts) && ctx.InstanceCtx?
                           then old(store.hooks)[ctxId := Hook(ParamsFor(ctx, t, scope).bindToArbitraryDomNode, key)]
                           else old(store.hooks))
    {
      var ctxId := env.identifyCtx(ctx);
      var params := BuildParams(env, t, scope, CtxClassName(ctx), CtxCls(ctx));
      var storageKey := params.key + storageSuffix;
      assert storageKey == StorageKey(ctx, t, scope);
      ghost var contexts0 := store.contexts;
      // `ctxStorage`: the context's table, the same object as `eventStorage[ctxId]` once stored
      var table: map<string, EventManager> := CtxTable(store.contexts, ctxId);
      if ctxId !in store.contexts {
        store.contexts := store.contexts[ctxId := table];
        if ctx.InstanceCtx? {
          store.hooks := store.hooks[ctxId := Hook(params.bindToArbitraryDomNode, storageKey)];
        }
      }
      if storageKey in table {
        m := table[storageKey];
      } else {
        m := CreateEventManager(params);
        table := table[storageKey := m];
        store.contexts := store.contexts[ctxId := table];
        assert store.contexts == contexts0[ctxId := table];
        GrowExtends(contexts0, ctxId, table);
        GrowKeepsHost(contexts0, ctxId, table, store.host);
      }
    }

    /**
     * `getEventManager(ctx, bindCtx, bindScope)` (lines 242-278): a collection is fanned
     * out to one manager per member, requested with the member as the target.
     */
    method GetEventManager(ctx: Ctx, t: BindTarget, scope: BindScope) returns (r: ManagerRef)
      requires store.Valid()
      modifies store
      ensures store.Valid()
      ensures Extends(old(store.contexts), store.contexts)
      ensures r.Fanned? <==> t.Collection?
      ensures r.Single? ==> Cached(ctx, t, scope, r.m)
      ensures r.Fanned? ==>
        && fresh(r.c) && r.c.Valid() && r.c.host == store.host
        && |r.c.managers| == |t.members|
        && forall i | 0 <= i < |t.members| :: Cached(ctx, EntityInstance(t.members[i]), scope, r.c.managers[i])
    {
      if t.Collection? {
        var members := t.members;
        var ms: seq<EventManager> := [];
        var ctxId := env.identifyCtx(ctx);
        for i := 0 to |members|
          invariant store.Valid()
          invariant Extends(old(store.contexts), store.contexts)
          invariant |ms| == i
          invariant forall j | 0 <= j < i :: Cached(ctx, EntityInstance(members[j]), scope, ms[j])
        {
          ghost var before := store.contexts;
          var m := GetSingle(ctx, EntityInstance(members[i]), scope);
          ms := ms + [m];
          forall j | 0 <= j < i
            ensures Cached(ctx, EntityInstance(members[j]), scope, ms[j])
          {
            var key := StorageKey(ctx, EntityInstance(members[j]), scope);
            assert ctxId in before && key in before[ctxId];
          }
        }
        forall j | 0 <= j < |ms| ensures ms[j].host == store.host {
          var key := StorageKey(ctx, EntityInstance(members[j]), scope);
          assert store.contexts[ctxId][key] == ms[j];
        }
        var c := new Fanout.CollectionEventManager(store.host, ms);
        r := Fanned(c);
        forall i | 0 <= i < |t.members|
          ensures Cached(ctx, EntityInstance(t.members[i]), scope, r.c.managers[i])
        {
          assert t.members[i] == members[i] && r.c.managers[i] == ms[i];
        }
      } else {
        var m := GetSingle(ctx, t, scope);
        r := Single(m);
      }
    }

    /**
     * `_getEventActors(e, ctx, params, isInstance)` (lines 338-374), `isInstance` being
     * whether the context is an instance: the walks up from `e.target`.
     */
    method GetEventActors(e: NativeEvent, ctx: Ctx, params: Params) returns (a: EventActors)
      requires |e.path| > 0
      ensures a == Resolve(getEntity, e, ctx, params)
    {
      var path := e.path;
      var instance: Option<Instance> := None;
      var targetDomNode: Option<Node> := None;
      if ctx.InstanceCtx? {
        instance := Some(ctx.inst);
        if params.bindClassName != "" {
          var i := 0;
          while i < |path|
            invariant 0 <= i <= |path| && targetDomNode.None?
            invariant BoundedMarked(path, params.bindClassName, e.currentTarget, i)
                   == BoundedMarked(path, params.bindClassName, e.currentTarget, 0)
            decreases |path| - i
          {
            if params.bindClassName in path[i].classList {
              targetDomNode := Some(path[i].node);
              break;
            }
            if path[i].node == e.currentTarget {
              break;
            }
            i := i + 1;
          }
          if targetDomNode.None? {
            instance := None;
          }
        }
      } else {
        var i := 0;
        ghost var t: nat := 0;
        while i < |path|
          invariant 0 <= i <= |path|
          invariant instance.None?
          invariant targetDomNode.None? ==>
            FirstMarked(path, params.bindClassName, i) == FirstMarked(path, params.bindClassName, 0)
          invariant targetDomNode.Some? ==>
            && t <= i && FirstMarked(path, params.bindClassName, 0) == Some(t)
            && targetDomNode == Some(path[t].node)
            && FirstMarked(path, params.ctxClassName, i) == FirstMarked(path, params.ctxClassName, t)
          decreases |path| - i
        {
          if targetDomNode.None? {
            if params.bindClassName in path[i].classList {
              targetDomNode := Some(path[i].node);
              t := i;
            } else {
              i := i + 1;
              continue;
            }
          }
          if params.ctxClassName in path[i].classList {
            instance := getEntity(path[i].node, ctx);
            break;
          }
          i := i + 1;
        }
      }
      a := EventActors(instance, targetDomNode);
    }
  }

  /**
   * Two requests for one context whose parameter records have the same key (line 264)
   * yield the same manager of that factory, even with another bind scope: the second
   * request gets the manager the first one created, with the first request's parameters.
   */
  method SameKeySameManager(f: EventManagerFactory, ctx: Ctx, t1: BindTarget, scope1: BindScope,
                            t2: BindTarget, scope2: BindScope)
      returns (m1: EventManager, m2: EventManager)
    requires !t1.Collection? && !t2.Collection? && f.store.Valid()
    requires f.ParamsFor(ctx, t1, scope1).key == f.ParamsFor(ctx, t2, scope2).key
    modifies f.store
    ensures m1 == m2
    ensures !(f.env.identifyCtx(ctx) in old(f.store.contexts)
              && f.StorageKey(ctx, t1, scope1) in old(f.store.contexts)[f.env.identifyCtx(ctx)]) ==>
              m2.params == f.ParamsFor(ctx, t1, scope1)
    ensures f.store.Valid()
  {
    m1 := f.GetSingle(ctx, t1, scope1);
    m2 := f.GetSingle(ctx, t2, scope2);
  }

  /** With one factory's suffix, two storage keys are equal exactly when the parameter keys are. */
  lemma StorageKeyInjective(f: EventManagerFactory, ctx1: Ctx, t1: BindTarget, scope1: BindScope,
                            ctx2: Ctx, t2: BindTarget, scope2: BindScope)
    requires !t1.Collection? && !t2.Collection?
    ensures f.StorageKey(ctx1, t1, scope1) == f.StorageKey(ctx2, t2, scope2)
        <==> f.ParamsFor(ctx1, t1, scope1).key == f.ParamsFor(ctx2, t2, scope2).key
  {
    var k1, k2 := f.ParamsFor(ctx1, t1, scope1).key, f.ParamsFor(ctx2, t2, scope2).key;
    if f.StorageKey(ctx1, t1, scope1) == f.StorageKey(ctx2, t2, scope2) {
      assert |k1| == |k2|;
      assert k1 == (k1 + f.storageSuffix)[..|k1|];
      assert k2 == (k2 + f.storageSuffix)[..|k2|];
    }
  }
}
