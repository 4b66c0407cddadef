/**
 * Actor resolution `_getEventActors` (lines 338-374): from the target of a native event,
 * walk up the ancestors to find the node carrying the delegation class name and the
 * entity instance it belongs to. This module holds the specification of the two walks;
 * the imperative walk itself is `Factory.EventManagerFactory.GetEventActors`.
 */
module Actors {
  import opened Wrappers
  import opened BemDom

  /** A node on the ancestor chain together with its `classList`. */
  datatype DomNode = DomNode(node: Node, classList: set<string>)

  /**
   * A native event as the walk sees it: `path[0]` is `e.target`, `path[i + 1]` is the
   * `parentElement` of `path[i]`, the last node has none; `currentTarget` is the node
   * the listener is attached to.
   */
  datatype NativeEvent = NativeEvent(path: seq<DomNode>, currentTarget: Node)

  /** `{ instance, targetDomNode }`; an undefined field is `None`. */
  datatype EventActors = EventActors(instance: Option<Instance>, targetDomNode: Option<Node>)

  /** The nearest node at or above `path[from]` that carries `name`. */
  function FirstMarked(path: seq<DomNode>, name: string, from: nat): (r: Option<nat>)
    requires from <= |path|
    ensures r.Some? ==> from <= r.value < |path| && name in path[r.value].classList
    ensures r.Some? ==> forall j | from <= j < r.value :: name !in path[j].classList
    ensures r.None? ==> forall j | from <= j < |path| :: name !in path[j].classList
    decreases |path| - from
  {
    if from == |path| then None
    else if name in path[from].classList then Some(from)
    else FirstMarked(path, name, from + 1)
  }

  /**
   * The walk of an instance-bound manager (lines 348-354): each node is tested for the
   * marker first and then for being `currentTarget`, where the walk stops.
   */
  function BoundedMarked(path: seq<DomNode>, name: string, stop: Node, from: nat): (r: Option<nat>)
    requires from <= |path|
    ensures r.Some? ==> from <= r.value < |path| && name in path[r.value].classList
    ensures r.Some? ==> forall j | from <= j < r.value :: name !in path[j].classList && path[j].node != stop
    ensures r.None? ==> forall j | from <= j < |path| && name in path[j].classList ::
                          exists i | from <= i < j :: path[i].node == stop
    decreases |path| - from
  {
    if from == |path| then None
    else if name in path[from].classList then Some(from)
    else if path[from].node == stop then None
    else BoundedMarked(path, name, stop, from + 1)
  }

  /**
   * What `_getEventActors(e, ctx, params, isInstance)` returns, `isInstance` being whether
   * the owning context is an instance (line 252) and `getEntity` the factory's lookup.
   */
  function Resolve(getEntity: (Node, Ctx) -> Option<Instance>, e: NativeEvent,
                   ctx: Ctx, params: Params): EventActors
  {
    var path := e.path;
    match ctx
    case InstanceCtx(inst) =>
      if params.bindClassName == "" then EventActors(Some(inst), None)
      else
        (match BoundedMarked(path, params.bindClassName, e.currentTarget, 0)
         case Some(t) => EventActors(Some(inst), Some(path[t].node))
         case None => EventActors(None, None))
    case ClassCtx(_) =>
      match FirstMarked(path, params.bindClassName, 0)
      case None => EventActors(None, None)
      case Some(t) =>
        match FirstMarked(path, params.ctxClassName, t)
        case None => EventActors(None, Some(path[t].node))
        case Some(k) => EventActors(getEntity(path[k].node, ctx), Some(path[t].node))
  }

  /**
   * Instance-bound: with no delegation class the instance is the context itself and there
   * is no target node. Otherwise the target node is the nearest marked node between the
   * event target and the attachment node, and the instance is kept exactly when there
   * is one.
   */
  lemma InstanceBoundActors(getEntity: (Node, Ctx) -> Option<Instance>, e: NativeEvent,
                            inst: Instance, params: Params)
    ensures var r := Resolve(getEntity, e, InstanceCtx(inst), params);
      && (params.bindClassName == "" ==> r == EventActors(Some(inst), None))
      && (params.bindClassName != "" ==>
            && (r.instance.Some? <==> r.targetDomNode.Some?)
            && (r.instance.Some? ==> r.instance == Some(inst))
            && (r.targetDomNode.Some? ==>
                  exists t | 0 <= t < |e.path| :: e.path[t].node == r.targetDomNode.value
                    && params.bindClassName in e.path[t].classList
                    && forall j | 0 <= j < t :: params.bindClassName !in e.path[j].classList
                                                && e.path[j].node != e.currentTarget)
            && (r.targetDomNode.None? ==>
                  forall j | 0 <= j < |e.path| && params.bindClassName in e.path[j].classList ::
                    exists i | 0 <= i < j :: e.path[i].node == e.currentTarget))
  {
    var b := BoundedMarked(e.path, params.bindClassName, e.currentTarget, 0);
    if params.bindClassName != "" && b.Some? {
      assert e.path[b.value].node == Resolve(getEntity, e, InstanceCtx(inst), params).targetDomNode.value;
    }
  }

  /**
   * Class-bound delegation: the target node is the nearest marked node anywhere above the
   * event target, and the instance is looked up at the nearest node at or above it that
   * carries the owning class name, and is absent exactly when no such node exists.
   */
  lemma ClassBoundActors(getEntity: (Node, Ctx) -> Option<Instance>, e: NativeEvent,
                         cls: EntityCls, params: Params)
    ensures var r := Resolve(getEntity, e, ClassCtx(cls), params);
      && (r.targetDomNode.None? ==>
            r.instance.None?
            && forall j | 0 <= j < |e.path| :: params.bindClassName !in e.path[j].classList)
      && (r.targetDomNode.Some? ==>
            exists t | 0 <= t < |e.path| :: e.path[t].node == r.targetDomNode.value
              && params.bindClassName in e.path[t].classList
              && (forall j | 0 <= j < t :: params.bindClassName !in e.path[j].classList)
              && ((exists k | t <= k < |e.path| ::
                     && params.ctxClassName in e.path[k].classList
                     && (forall j | t <= j < k :: params.ctxClassName !in e.path[j].classList)
                     && r.instance == getEntity(e.path[k].node, ClassCtx(cls)))
                  || (r.instance.None? &&
                      forall j | t <= j < |e.path| :: params.ctxClassName !in e.path[j].classList)))
  {
    var t := FirstMarked(e.path, params.bindClassName, 0);
    if t.Some? {
      var k := FirstMarked(e.path, params.ctxClassName, t.value);
      assert e.path[t.value].node == Resolve(getEntity, e, ClassCtx(cls), params).targetDomNode.value;
      if k.Some? {
        assert Resolve(getEntity, e, ClassCtx(cls), params).instance
            == getEntity(e.path[k.value].node, ClassCtx(cls));
      }
    }
  }

  /** The class-bound walk does not stop at the attachment node: it may reach the root. */
  lemma ClassBoundIgnoresCurrentTarget(getEntity: (Node, Ctx) -> Option<Instance>,
                                       path: seq<DomNode>, n1: Node, n2: Node,
                                       cls: EntityCls, params: Params)
    ensures Resolve(getEntity, NativeEvent(path, n1), ClassCtx(cls), params)
         == Resolve(getEntity, NativeEvent(path, n2), ClassCtx(cls), params)
  {
  }
}
