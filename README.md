# i-bem-dom__events: the DOM event managers of i-bem, in Dafny

This project models the event-delegation engine of bem-core's `i-bem-dom__events`
module and proves properties of the model. The module has four parts:

- `EventManager`, a per-binding registry. It keeps the table `_storage[event][fnId]` of
  wrapped handlers and attaches them as native listeners to its bind nodes. Its methods
  are `on`, `once`, `un` (three arities) and `_unbindByEvent`.
- `CollectionEventManager`. It forwards every call to the managers of the members of an
  entity collection, in member order, and returns itself.
- `EventManagerFactory.getEventManager`. It keeps the module-wide cache
  `eventStorage[ctxId][key + suffix]`. It builds a manager on the first request and
  returns the cached one after that. For an instance context it also subscribes a
  teardown closure.
- Two helpers of the factory. `_buildEventManagerParams` is the binding resolver: a case
  analysis of the bind target that yields a parameter record. `_getEventActors` is the
  actor resolver: walks up the ancestors of the event target.

Modules:

- `Wrappers` and `BemDom` hold the shared data: `Option`, nodes, entity classes,
  instances, owning contexts and the parameter record.
- `TypeList` handles space-separated event-type lists. `Split` has JavaScript's
  `split(' ')` semantics and `Join` is its inverse.
- `Resolver` is the binding resolver, a pure function over a datatype of bind-target
  shapes.
- `Actors` specifies the two ancestor walks.
- `RegistrySpec` holds the registry's state transitions as functions on a value. The value
  has three parts:
  - the table;
  - the host's set of native listeners, as in the event listener list of section 2.7
    (the EventTarget interface) of the WHATWG DOM Standard;
  - the host's supply of fresh function identities.

  The lemmas about the registry are stated here. Among them is the manager's invariant
  `Tracks`: the table accounts for every native listener that carries a wrapper the
  manager made. Every method keeps it (`ApplyKeepsTracks`), and other managers on the same
  host do too (`OtherKeepsOwned`). So `un()` leaves none of the manager's listeners behind
  (`UnAllDetachesOwn`).
- `Registry` holds `Host` and the `EventManager` class. The class's methods update the
  table and the host in place. Each method is proved equal to its `RegistrySpec`
  transition.
- `Fanout` holds `CollectionEventManager` and the fold `Forwarded`, which specifies it.
- `Factory` holds the `eventStorage` cache with the teardown closures, the factory
  itself, and the imperative actor walk `GetEventActors`.

External services stay uninterpreted parameters. These are:

- `identify` on nodes, node lists and contexts;
- `bemInternal.buildClassName` and `buildModPostfix`;
- `_getEntityCls` and `_getEntity`;
- the event builder;
- `document.documentElement`.

The handler wrapper is the host allocating a fresh function identity, so every wrapper
is a new object. `identify(fn, _fnCtx)` is the pair `FnId(fn, fnCtx)`, which is
injective.

## Model

| member | source | states |
|---|---|---|
| TypeList.Split | common.blocks/i-bem-dom/__events/i-bem-dom__events.js:55-57 | `e.split(' ')` yields one piece more than there are spaces, and no piece holds a space |
| TypeList.JoinSplit | common.blocks/i-bem-dom/__events/i-bem-dom__events.js:55-57 | joining the pieces with spaces gives back the original string |
| TypeList.SplitJoin | common.blocks/i-bem-dom/__events/i-bem-dom__events.js:125-127 | splitting a join of space-free pieces gives back exactly those pieces |
| Resolver.BuildParams | common.blocks/i-bem-dom/__events/i-bem-dom__events.js:281-336 | `ctxClassName` is always the given one; the arbitrary flag is set exactly for window, document and element targets; the misspelt flag is set exactly for non-empty node lists; named targets get `bindClassName == key`, all others keep `ctxClassName`; every target that is not a node, node list or instance binds the scope's nodes |
| Resolver.HostNodeBinding | common.blocks/i-bem-dom/__events/i-bem-dom__events.js:294-297 | window, document and element bind one node (document becomes `documentElement`) under the identity of the target, arbitrarily, with no entity class |
| Resolver.NodeListBinding | common.blocks/i-bem-dom/__events/i-bem-dom__events.js:298-301 | a non-empty node list binds its nodes under their joint identity, with no entity class, and leaves `bindToArbitraryDomNode` false |
| Resolver.InstanceBinding | common.blocks/i-bem-dom/__events/i-bem-dom__events.js:302-305 | an entity instance binds its own nodes under its `_uniqId`, with its class as the entity class |
| Resolver.NamedBinding | common.blocks/i-bem-dom/__events/i-bem-dom__events.js:306-329 | a name, descriptor or class binds the scope with `bindClassName = key = buildClassName(block, elem) + buildModPostfix(modName, modVal)` and the entity class looked up by the entity name |
| Resolver.AbsentBinding | common.blocks/i-bem-dom/__events/i-bem-dom__events.js:282-333 | a falsy target yields the default record with `bindEntityCls = ctxCls` and key `''` |
| Resolver.OpaqueFallsThrough | common.blocks/i-bem-dom/__events/i-bem-dom__events.js:291-306 | a truthy primitive target is not rejected and yields the default record |
| Resolver.SameNameSameParams | common.blocks/i-bem-dom/__events/i-bem-dom__events.js:307-329 | two targets that name the same BEM entity get the same record, so the same cache key |
| Resolver.ElemSpellingsAgree | common.blocks/i-bem-dom/__events/i-bem-dom__events.js:308-325 | an element name string, a descriptor with that `elem` and the element class name the same entity |
| Resolver.ScopeNodes | common.blocks/i-bem-dom/__events/i-bem-dom__events.js:284 | the nodes of the bind scope; used by `Resolver.BuildParams`, whose contract states where it applies |
| Resolver.Parts | common.blocks/i-bem-dom/__events/i-bem-dom__events.js:307-325 | the block, element and modifier a name, descriptor or class resolves to; stated by `Resolver.ElemSpellingsAgree` and `Resolver.SameNameSameParams` |
| Resolver.NamedParams | common.blocks/i-bem-dom/__events/i-bem-dom__events.js:327-329 | the record of a named target; stated by `Resolver.NamedBinding` |
| Actors.FirstMarked | common.blocks/i-bem-dom/__events/i-bem-dom__events.js:359-370 | the result is the nearest node at or above the start carrying the class, or none when no node does |
| Actors.BoundedMarked | common.blocks/i-bem-dom/__events/i-bem-dom__events.js:348-354 | the result is the nearest marked node, with no earlier node being `currentTarget`; when there is none, every marked node lies beyond `currentTarget` |
| Actors.InstanceBoundActors | common.blocks/i-bem-dom/__events/i-bem-dom__events.js:344-357 | instance-bound with an empty `bindClassName`: the actors are the instance itself and no target node; with a non-empty one, the instance is kept exactly when a target node is found, and the target is the first marked node, tested before the stop at `currentTarget` |
| Actors.ClassBoundActors | common.blocks/i-bem-dom/__events/i-bem-dom__events.js:358-371 | class-bound: the target is the first marked node; the instance is `getEntity` of the first node at or above it carrying `ctxClassName`, and there is none exactly when no such node exists; there is no instance without a target |
| Actors.ClassBoundIgnoresCurrentTarget | common.blocks/i-bem-dom/__events/i-bem-dom__events.js:359-370 | the class-bound walk does not depend on `currentTarget` |
| Actors.Resolve | common.blocks/i-bem-dom/__events/i-bem-dom__events.js:338-374 | the actors of one event: the instance-bound walk stops at `currentTarget`, the class-bound one does not; what it returns in each of the four cases (instance- or class-bound, with or without a delegation class) is stated by `Actors.InstanceBoundActors` and `Actors.ClassBoundActors` |
| Factory.EventManagerFactory.GetEventActors | common.blocks/i-bem-dom/__events/i-bem-dom__events.js:338-374 | the two `do…while` walks return exactly `Actors.Resolve` |
| RegistrySpec.OnCall | common.blocks/i-bem-dom/__events/i-bem-dom__events.js:66-71 | the argument shift of `on`; its effect is stated by `RegistrySpec.DataShift` |
| RegistrySpec.OnceShift | common.blocks/i-bem-dom/__events/i-bem-dom__events.js:107-111 | the argument shift of `once`; stated by `RegistrySpec.OnceIsOnWithOnceFlag` |
| RegistrySpec.OnOne | common.blocks/i-bem-dom/__events/i-bem-dom__events.js:63-96 | `on` for one event type; stated by `RegistrySpec.OnOneEffect` and `RegistrySpec.OnOneIdempotent` |
| RegistrySpec.On | common.blocks/i-bem-dom/__events/i-bem-dom__events.js:54-97 | `on`, splitting a list; stated by `RegistrySpec.OnRegistersEach` and `RegistrySpec.SpacedOnIsSequence` |
| RegistrySpec.Once | common.blocks/i-bem-dom/__events/i-bem-dom__events.js:106-114 | `once`; stated by `RegistrySpec.OnceIsOnWithOnceFlag` and `RegistrySpec.OnceFiresOnce` |
| RegistrySpec.UnHandlerOne | common.blocks/i-bem-dom/__events/i-bem-dom__events.js:139-152 | `un(e, fn, ctx)` for one type; stated by `RegistrySpec.OnThenUnRestores` and `RegistrySpec.UnUnregisteredHandler` |
| RegistrySpec.UnHandler | common.blocks/i-bem-dom/__events/i-bem-dom__events.js:122-153 | `un(e, fn, ctx)`; stated by `RegistrySpec.SpacedUnIsSequence` |
| RegistrySpec.UnbindByEvent | common.blocks/i-bem-dom/__events/i-bem-dom__events.js:161-172 | `_unbindByEvent`; stated by `RegistrySpec.UnEventEffect` |
| RegistrySpec.UnEvent | common.blocks/i-bem-dom/__events/i-bem-dom__events.js:124-137 | `un(e)`; stated by `RegistrySpec.UnEventEffect` and `RegistrySpec.UnEventListKeepsHandlers` |
| RegistrySpec.UnAll | common.blocks/i-bem-dom/__events/i-bem-dom__events.js:154-155 | `un()`; stated by `RegistrySpec.UnAllEffect` and `RegistrySpec.UnAllDetachesOwn` |
| RegistrySpec.Fire | common.blocks/i-bem-dom/__events/i-bem-dom__events.js:81-85 | one call of a wrapper; stated by `RegistrySpec.OnceFiresOnce` and `RegistrySpec.FireAgainKeepsTable` |
| RegistrySpec.Apply | common.blocks/i-bem-dom/__events/i-bem-dom__events.js:178-180 | one method call by name and arity; stated by `RegistrySpec.ApplyKeepsTokens` and `RegistrySpec.ApplyKeepsTracks` |
| RegistrySpec.OnOneEffect | common.blocks/i-bem-dom/__events/i-bem-dom__events.js:73-96 | `on` changes nothing when `(event, fnId)` is registered; otherwise it records one new wrapper with a fresh identity (marked `once` exactly when asked) and attaches it to every bind node, with no other change; other event types are untouched |
| RegistrySpec.OnOneIdempotent | common.blocks/i-bem-dom/__events/i-bem-dom__events.js:73-76 | a second identical `on` changes nothing |
| RegistrySpec.OnOneKeepsTokens | common.blocks/i-bem-dom/__events/i-bem-dom__events.js:78-93 | after `on` every attached wrapper still predates the next fresh identity |
| RegistrySpec.OnThenUnRestores | common.blocks/i-bem-dom/__events/i-bem-dom__events.js:73-152 | `on(e, fn, ctx)` of a new handler followed by `un(e, fn, ctx)` restores the listener set and every handler bucket (a missing or `null` entry comes back as an empty bucket `{}`) |
| RegistrySpec.UnUnregisteredHandler | common.blocks/i-bem-dom/__events/i-bem-dom__events.js:139-152 | `un` of a handler that is not registered leaves the table unchanged and removes only the raw `fn` from the bind nodes |
| RegistrySpec.UnEventEffect | common.blocks/i-bem-dom/__events/i-bem-dom__events.js:136-172 | `un(e)` sets the entry to `null`, detaches every stored handler of the event from every bind node, removes no other listener and leaves other event types alone |
| RegistrySpec.OnAfterUnEventRecreates | common.blocks/i-bem-dom/__events/i-bem-dom__events.js:73 | after `un(e)`, a later `on` recreates the entry, holding exactly the new handler |
| RegistrySpec.UnAllEffect | common.blocks/i-bem-dom/__events/i-bem-dom__events.js:154-172 | `un()` keeps the keys, sets every entry to `null` and detaches exactly the listeners the table accounted for, touching no other listener; no listener the table accounted for remains |
| RegistrySpec.OnceIsOnWithOnceFlag | common.blocks/i-bem-dom/__events/i-bem-dom__events.js:106-114 | `once` is `on` with the once flag set, after the same argument shift |
| RegistrySpec.DataShift | common.blocks/i-bem-dom/__events/i-bem-dom__events.js:66-71 | a function in the `data` position shifts the arguments one place left, and `data` becomes undefined |
| RegistrySpec.OnceFiresOnce | common.blocks/i-bem-dom/__events/i-bem-dom__events.js:81-114 | after `once` of a new handler, the wrapper it stored is a once wrapper; firing it removes the registration and gives back the listeners from before `once` |
| RegistrySpec.FireAgainKeepsTable | common.blocks/i-bem-dom/__events/i-bem-dom__events.js:81-85 | a wrapper that fires a second time changes no table entry, since a `once` wrapper removes its registration on the first call; a wrapper that is not a `once` wrapper changes nothing |
| RegistrySpec.UnHandlerPiecesClears | common.blocks/i-bem-dom/__events/i-bem-dom__events.js:125-152 | after `un(piece, fn, ctx)` for each piece, `(fn, ctx)` is registered under none of the pieces' types |
| RegistrySpec.UnHandlerOneShrinks | common.blocks/i-bem-dom/__events/i-bem-dom__events.js:139-152 | `un` for one type never adds a registration |
| RegistrySpec.UnHandlerPiecesNoop | common.blocks/i-bem-dom/__events/i-bem-dom__events.js:125-152 | `un` over pieces under none of which `(fn, ctx)` is registered changes no table entry |
| RegistrySpec.OnPiecesRegistersEach | common.blocks/i-bem-dom/__events/i-bem-dom__events.js:55-58 | a space-separated `on` registers the handler under the event type of every piece |
| RegistrySpec.SpacedOnIsSequence | common.blocks/i-bem-dom/__events/i-bem-dom__events.js:55-61 | `on` of two or more space-free types joined by spaces is `on` of each type in order, with the same arguments |
| RegistrySpec.SpacedUnIsSequence | common.blocks/i-bem-dom/__events/i-bem-dom__events.js:125-131 | `un(e, fn, ctx)` of a spaced list is `un` of each type in order, with the same arguments |
| RegistrySpec.OnPiecesKeepsTokens | common.blocks/i-bem-dom/__events/i-bem-dom__events.js:55-58 | a list `on` keeps every attached wrapper older than the next fresh identity |
| RegistrySpec.UnHandlerPiecesShrinks | common.blocks/i-bem-dom/__events/i-bem-dom__events.js:125-131 | a list `un` only ever removes listeners |
| RegistrySpec.ApplyKeepsTokens | common.blocks/i-bem-dom/__events/i-bem-dom__events.js:54-172 | every operation keeps wrapper identities fresh and never reuses one |
| RegistrySpec.OnOneKeepsRegistered | common.blocks/i-bem-dom/__events/i-bem-dom__events.js:73-96 | a registration survives a later `on` for one type |
| RegistrySpec.OnPiecesKeepsRegistered | common.blocks/i-bem-dom/__events/i-bem-dom__events.js:55-58 | a registration survives a later `on` for a list of types |
| RegistrySpec.OnRegistersEach | common.blocks/i-bem-dom/__events/i-bem-dom__events.js:54-97 | `on(e, ...)` registers the shifted handler under every type `e` names: each piece of a list, or `e` itself |
| RegistrySpec.OnKeepsRegistered | common.blocks/i-bem-dom/__events/i-bem-dom__events.js:54-97 | a handler registered under every type some `e0` names stays so after any later `on` |
| RegistrySpec.Issued | common.blocks/i-bem-dom/__events/i-bem-dom__events.js:78-89 | the identities of the wrappers made while the host's counter went from `lo` to `hi` are exactly `lo`, ..., `hi - 1` |
| RegistrySpec.TracksInitially | common.blocks/i-bem-dom/__events/i-bem-dom__events.js:40-45 | a new manager, with an empty table, owns no wrapper, so the invariant holds |
| RegistrySpec.OnOneKeepsTracks | common.blocks/i-bem-dom/__events/i-bem-dom__events.js:73-96 | `on` for one type keeps the invariant (fresh identities, every stored wrapper under its own identity, every listener carrying one of the manager's wrappers on a bind node and in the entry of its type); the wrapper it makes becomes the manager's |
| RegistrySpec.UnHandlerOneKeepsTracks | common.blocks/i-bem-dom/__events/i-bem-dom__events.js:139-152 | `un(e, fn, ctx)` for one type keeps the invariant |
| RegistrySpec.UnbindByEventKeepsTracks | common.blocks/i-bem-dom/__events/i-bem-dom__events.js:161-172 | `_unbindByEvent` keeps the invariant |
| RegistrySpec.OwnedAttached | common.blocks/i-bem-dom/__events/i-bem-dom__events.js:91-93 | under the invariant, every listener carrying one of the manager's wrappers is one its table records |
| RegistrySpec.UnAllDetachesOwn | common.blocks/i-bem-dom/__events/i-bem-dom__events.js:154-172 | under the invariant, after `un()` no native listener carrying a wrapper this manager made remains, whichever entry it came from, and the invariant still holds |
| RegistrySpec.OnPiecesKeepsTracks | common.blocks/i-bem-dom/__events/i-bem-dom__events.js:55-58 | a list `on` keeps the invariant; the wrappers it makes become the manager's |
| RegistrySpec.UnHandlerPiecesKeepsTracks | common.blocks/i-bem-dom/__events/i-bem-dom__events.js:125-131 | a list `un` keeps the invariant |
| RegistrySpec.ApplyKeepsTracks | common.blocks/i-bem-dom/__events/i-bem-dom__events.js:54-172 | every method of the manager keeps the invariant, and the wrappers it makes are exactly the identities the host's counter passed over |
| RegistrySpec.OneListenerPerSlot | common.blocks/i-bem-dom/__events/i-bem-dom__events.js:73-93 | under the invariant, each bind node holds at most one listener of the manager for one event type and one handler identity |
| RegistrySpec.OnPiecesAddsFresh | common.blocks/i-bem-dom/__events/i-bem-dom__events.js:55-93 | every listener a list `on` adds carries a wrapper made during that call |
| RegistrySpec.ApplyAddsFresh | common.blocks/i-bem-dom/__events/i-bem-dom__events.js:54-172 | every listener any method adds carries a wrapper made during that call |
| RegistrySpec.UnbindingKeepsCounter | common.blocks/i-bem-dom/__events/i-bem-dom__events.js:122-172 | no arity of `un` makes a wrapper: the host's counter is unchanged |
| RegistrySpec.OtherKeepsTracks | common.blocks/i-bem-dom/__events/i-bem-dom__events.js:54-172 | a method of another manager on the same host keeps this manager's whole tracking invariant |
| RegistrySpec.OtherKeepsOwned | common.blocks/i-bem-dom/__events/i-bem-dom__events.js:54-172 | a method of another manager on the same host keeps this manager's table accounting for this manager's listeners |
| RegistrySpec.UnHandlerPiecesKeeps | common.blocks/i-bem-dom/__events/i-bem-dom__events.js:125-146 | a list `un(e, fn, ctx)` removes no registration other than that of `(fn, ctx)` |
| RegistrySpec.UnEventListKeepsHandlers | common.blocks/i-bem-dom/__events/i-bem-dom__events.js:125-131 | as written, `un("a b")` keeps every handler registered with a function |
| RegistrySpec.UnbindPiecesClears | common.blocks/i-bem-dom/__events/i-bem-dom__events.js:161-172 | `_unbindByEvent` over a list sets every listed entry to `null` and only removes listeners |
| RegistrySpec.UnEventIntendedClears | common.blocks/i-bem-dom/__events/i-bem-dom__events.js:125-137 | with the intended `un(e)`, no handler stays registered under any type that `e` names |
| Registry.Host.NewWrapper | common.blocks/i-bem-dom/__events/i-bem-dom__events.js:80-89 | the handler wrapper returns a new function, with an identity no listener has yet |
| Registry.EventManager.constructor | common.blocks/i-bem-dom/__events/i-bem-dom__events.js:40-45 | a new manager keeps its parameters and builder, starts with an empty table and no wrappers of its own, and starts tracked on a valid host |
| Registry.EventManager.Attach | common.blocks/i-bem-dom/__events/i-bem-dom__events.js:91-93 | the loop adds exactly one listener per bind node |
| Registry.EventManager.Detach | common.blocks/i-bem-dom/__events/i-bem-dom__events.js:150-152 | the loop removes exactly one listener per bind node |
| Registry.EventManager.OnOne | common.blocks/i-bem-dom/__events/i-bem-dom__events.js:63-96 | the in-place `on` for one type performs `RegistrySpec.OnOne` on the table and the host, and records a new wrapper as the manager's |
| Registry.EventManager.On | common.blocks/i-bem-dom/__events/i-bem-dom__events.js:54-97 | the in-place `on` performs `RegistrySpec.On`, looping over the pieces of a list |
| Registry.EventManager.Once | common.blocks/i-bem-dom/__events/i-bem-dom__events.js:106-114 | the in-place `once` performs `RegistrySpec.Once` |
| Registry.EventManager.UnHandlerOne | common.blocks/i-bem-dom/__events/i-bem-dom__events.js:133-152 | the in-place `un(e, fn, ctx)` for one type performs `RegistrySpec.UnHandlerOne` |
| Registry.EventManager.UnHandler | common.blocks/i-bem-dom/__events/i-bem-dom__events.js:122-153 | the in-place `un(e, fn, ctx)` performs `RegistrySpec.UnHandler` |
| Registry.EventManager.UnHandlerPieces | common.blocks/i-bem-dom/__events/i-bem-dom__events.js:126-128 | the loop of `un` over the pieces of a list performs `RegistrySpec.UnHandlerPieces` |
| Registry.EventManager.UnbindByEvent | common.blocks/i-bem-dom/__events/i-bem-dom__events.js:161-172 | the in-place `_unbindByEvent` performs `RegistrySpec.UnbindByEvent` |
| Registry.EventManager.UnEvent | common.blocks/i-bem-dom/__events/i-bem-dom__events.js:124-137 | the in-place `un(e)` performs `RegistrySpec.UnEvent` |
| Registry.EventManager.UnAll | common.blocks/i-bem-dom/__events/i-bem-dom__events.js:154-155 | the in-place `un()` performs `RegistrySpec.UnAll`, looping over the keys of the table; when the table tracked the manager's listeners, none carrying one of its wrappers remains |
| Registry.EventManager.Fire | common.blocks/i-bem-dom/__events/i-bem-dom__events.js:81-85 | firing a wrapper performs `RegistrySpec.Fire` |
| Registry.EventManager.Dispatch | common.blocks/i-bem-dom/__events/i-bem-dom__events.js:178-180 | calling a method by name and arity performs `RegistrySpec.Apply`, adds the wrappers it makes to the manager's own, and keeps the tracking invariant |
| Fanout.Step | common.blocks/i-bem-dom/__events/i-bem-dom__events.js:179 | forwarding one call to `m` changes only `m`'s table |
| Fanout.Forwarded | common.blocks/i-bem-dom/__events/i-bem-dom__events.js:175-182 | forwarding to a sequence of managers changes no table outside it |
| Fanout.CollectionEventManager.Forward | common.blocks/i-bem-dom/__events/i-bem-dom__events.js:174-184 | the proxy loop performs `Forwarded` over `_eventManagers` in order; every member that accounted for its own listeners still does; a member's own wrappers grow only by identities the host's counter passed during the call, and not at all for `un` |
| Fanout.CollectionEventManager.On | common.blocks/i-bem-dom/__events/i-bem-dom__events.js:204 | `on` is forwarded to every member in order and returns the collection manager; each member keeps tracking its listeners, as `Forward` states |
| Fanout.CollectionEventManager.Once | common.blocks/i-bem-dom/__events/i-bem-dom__events.js:213 | `once` is forwarded to every member in order and returns the collection manager; each member keeps tracking its listeners, as `Forward` states |
| Fanout.CollectionEventManager.UnAll | common.blocks/i-bem-dom/__events/i-bem-dom__events.js:221 | `un()` is forwarded to every member in order and returns the collection manager; each member keeps tracking its listeners, as `Forward` states |
| Fanout.CollectionEventManager.UnEvent | common.blocks/i-bem-dom/__events/i-bem-dom__events.js:221 | `un(e)` is forwarded to every member in order and returns the collection manager; each member keeps tracking its listeners, as `Forward` states |
| Fanout.CollectionEventManager.UnHandler | common.blocks/i-bem-dom/__events/i-bem-dom__events.js:221 | `un(e, fn, ctx)` is forwarded to every member in order and returns the collection manager; each member keeps tracking its listeners, as `Forward` states |
| Fanout.CollectionEventManager.ForwardTo | common.blocks/i-bem-dom/__events/i-bem-dom__events.js:179 | one round of the proxy loop performs `Step` on the member and keeps, for every member, what `Forward` promises |
| Fanout.CollectionEventManager.constructor | common.blocks/i-bem-dom/__events/i-bem-dom__events.js:193-195 | the collection manager keeps the given managers in order |
| Fanout.ForwardedOnRegistersEach | common.blocks/i-bem-dom/__events/i-bem-dom__events.js:174-204 | `on` through a collection registers the handler with every member, under every type that member's builder makes of `e` or of the pieces of a list, even when a member repeats |
| Fanout.ForwardedUnAllClearsEach | common.blocks/i-bem-dom/__events/i-bem-dom__events.js:174-221 | `un()` through a collection leaves every member's table holding only `null` entries |
| Fanout.ForwardedUnAllDetachesEach | common.blocks/i-bem-dom/__events/i-bem-dom__events.js:174-221 | `un()` through a collection leaves no native listener carrying a wrapper any member made, when each member's table accounted for its own listeners |
| Fanout.ForwardedKeepsTokens | common.blocks/i-bem-dom/__events/i-bem-dom__events.js:174-184 | forwarding keeps wrapper identities fresh |
| Fanout.ForwardedSingle | common.blocks/i-bem-dom/__events/i-bem-dom__events.js:174-184 | a collection of one member behaves exactly as that member |
| Factory.EventStorage.constructor | common.blocks/i-bem-dom/__events/i-bem-dom__events.js:28 | the cache starts empty |
| Factory.EventStorage.Teardown | common.blocks/i-bem-dom/__events/i-bem-dom__events.js:269-273 | the closure runs `un()` on the manager under the captured key, only when the captured flag is set and that manager exists; it deletes the key `ctxId` from the context's table and keeps every other cached manager; no cached manager's own wrappers change, and each one that accounted for its own listeners still does |
| Factory.CtxCls | common.blocks/i-bem-dom/__events/i-bem-dom__events.js:256-261 | the owning entity class of a context; its use is stated by `Factory.EventManagerFactory.ParamsFor` |
| Factory.CtxClassName | common.blocks/i-bem-dom/__events/i-bem-dom__events.js:252-261 | the owning class name of a context; stated by `Factory.EventManagerFactory.ParamsFor` |
| Factory.EventManagerFactory.constructor | common.blocks/i-bem-dom/__events/i-bem-dom__events.js:228-233 | the factory keeps its suffix, its lookups and the shared cache |
| Factory.EventManagerFactory.ParamsFor | common.blocks/i-bem-dom/__events/i-bem-dom__events.js:249-263 | the owning class name is `''` for an instance and the class's own name for a class; with no target, an instance binds with no delegation class and a class binds under its own name, each with its own class as the entity class |
| Factory.EventManagerFactory.StorageKey | common.blocks/i-bem-dom/__events/i-bem-dom__events.js:264 | the cache key; stated by `Factory.StorageKeyInjective` |
| Factory.EventManagerFactory.CreateEventManager | common.blocks/i-bem-dom/__events/i-bem-dom__events.js:376-378 | the creation hook returns a new manager over the given parameters, with an empty table |
| Factory.EventManagerFactory.GetSingle | common.blocks/i-bem-dom/__events/i-bem-dom__events.js:249-278 | a cached manager for the context and storage key is returned unchanged with the cache untouched; otherwise a new manager is cached under that key; the teardown closure is registered only when an instance context is seen first; no cached manager is ever replaced |
| Factory.EventManagerFactory.GetEventManager | common.blocks/i-bem-dom/__events/i-bem-dom__events.js:242-279 | a collection yields a new collection manager whose i-th member is the manager cached for the i-th entity; any other target yields the manager cached for it |
| Factory.SameKeySameManager | common.blocks/i-bem-dom/__events/i-bem-dom__events.js:264-278 | two requests for one context whose parameter keys agree return the identical manager, even with different bind scopes; when the first request created it, the second gets the first request's parameters |
| Factory.StorageKeyInjective | common.blocks/i-bem-dom/__events/i-bem-dom__events.js:264 | with one factory's suffix, two storage keys are equal exactly when the parameter keys are |

## Left out

- Event dispatch by the browser, the event object the wrapper builds and the `data` it
  injects are left out. Calling a wrapper is modelled as the explicit step `Fire`, which
  reproduces only what a `once` wrapper does to the registry.
- Listener options and capture are left out. Every listener in the source is added
  non-capturing (`false`), so a listener is the triple (node, type, callback).
- `functions.isFunction`, `identify`, `inherit` and `objects.each` are library code. A
  function value is the `Func` constructor of `RegistrySpec.Value`. `identify` is an
  injective pair or an uninterpreted `Env` field. `objects.each` and `forEach` become
  loops over sets and sequences.
- `RegistrySpec.Truthy` does not tell numbers and strings from objects. It treats `0`,
  `NaN` and `""` as truthy, because the model's values have no numbers or strings.
- The `ctx._events().on({ modName : 'js', modVal : '' }, …)` subscription is left out.
  The event bus is not modelled: the closure it registers is recorded in
  `EventStorage.hooks`, and running it is the explicit step `Teardown`.
- `_createEventManager` throwing "not implemented" is left out: it is an abstract hook.
  The model's `CreateEventManager` is the subclass's version, which builds an
  `EventManager` over the parameters with the factory's builder.
- Factory.EventManagerFactory.constructor: `identify()` for the storage suffix is a
  parameter, so the model does not state that suffixes of different factories differ.
- The fluent `return this` of `EventManager` is left out. The class-level
  `CollectionEventManager` methods do return themselves.
- The bind nodes of a parameter record are an immutable sequence fixed when the manager
  is built. A live `NodeList` or `HTMLCollection` that changes later is not modelled.
- The contracts of the class methods use `old` and `fresh`. What they promise is proved
  on the value-level functions of `RegistrySpec`, `Fanout` and `Actors`.

## Source behaviour kept as written

- Line 301 sets `bindToArbitraryDomElem`, so a node list keeps `bindToArbitraryDomNode`
  false (`Resolver.NodeListBinding`). The teardown closure never unbinds such a manager.
- Line 272 deletes `ctxStorage[ctxId]`, a key the context's table does not normally hold. So the cached
  managers of a torn-down instance stay cached under their keys
  (`Factory.EventStorage.Teardown`, last `ensures`).
- The teardown closure captures the `params` and `storageKey` of the first request for
  the context only (lines 266-273). Later managers of the same instance are not unbound
  by it.
- A truthy value of no recognised shape falls through line 306 and yields the default
  record (`Resolver.OpaqueFallsThrough`).
- An empty node list fails the `length` test and takes the descriptor branch, naming the
  owning block. The empty string is falsy and takes the absent branch.

## Findings

| source | as written | input that shows it | evidently intended | confidence | as-written member | corrected member |
|---|---|---|---|---|---|---|
| common.blocks/i-bem-dom/__events/i-bem-dom__events.js:125-131 | `un(e)` with one space-separated argument calls `this.un(event, fn, _fnCtx)` for each piece. That call has three arguments (`fn` and `_fnCtx` undefined), so each piece takes the single-handler path. It only looks for the identity of `(undefined, undefined)`. | `on('a', f)` then `un('a b')`: `f` stays registered and attached under `a` | `un('a b')` unbinds every handler of `a` and of `b`, as `un('a')` and `un('b')` would | high; not executed | RegistrySpec.UnEventListKeepsHandlers | RegistrySpec.UnEventIntendedClears |

The corrected definition is `RegistrySpec.UnEventIntended`, and
`RegistrySpec.UnEventIntendedClears` proves its property. `RegistrySpec.Apply` and the
`EventManager` class keep the code's behaviour, `RegistrySpec.UnEvent`, so the rest of
the model matches the source.
