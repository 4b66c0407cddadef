/**
 * The values the event engine of `i-bem-dom__events` works on: DOM nodes, BEM entity
 * classes and instances, the owning context of a registration, and the binding
 * parameter record that the resolver produces and every event manager keeps.
 *
 * Anything the engine only asks an external collaborator about (the name of a class,
 * the block it belongs to, the DOM nodes of an instance) is a field of these records:
 * the model never looks inside those values, it only passes them on.
 */
module BemDom {
  import opened Wrappers

  /** An event target: the window, or an element identified by reference. */
  datatype Node = WindowNode | ElementNode(id: nat)

  /**
   * A BEM entity class (a block class or an element class). The fields stand for
   * `getName()`, `getEntityName()`, `_blockName` and `_buildClassName()`.
   */
  datatype EntityCls = EntityCls(name: string, entityName: string, blockName: string, className: string)

  /** A block class is one whose name is its own entity name (line 320). */
  predicate IsBlockClass(c: EntityCls)
  {
    c.name == c.entityName
  }

  /** A BEM entity instance: `_uniqId`, `__self` and `domNodes`. */
  datatype Instance = Instance(uniqId: string, cls: EntityCls, domNodes: seq<Node>)

  /** The owning context of a registration: an entity class or an entity instance. */
  datatype Ctx = ClassCtx(cls: EntityCls) | InstanceCtx(inst: Instance)

  /** A modifier value: BEM allows strings and booleans. */
  datatype ModVal = StrVal(s: string) | BoolVal(b: bool)

  /**
   * The parameter record of an event manager (lines 282-289). `bindToArbitraryDomElem`
   * is the misspelt flag that the node-list branch sets (line 301); nothing reads it.
   */
  datatype Params = Params(
    bindEntityCls: Option<EntityCls>,
    bindDomNodes: seq<Node>,
    bindToArbitraryDomNode: bool,
    bindToArbitraryDomElem: bool,
    bindClassName: string,
    ctxClassName: string,
    key: string)
}
