/**
 * The binding resolver `_buildEventManagerParams` (lines 281-336): a case analysis of
 * the bind target that fills a parameter record. The duck-typed tests of the source
 * become the constructors of `BindTarget`; the naming and identity services it calls
 * are the fields of `Env` and stay uninterpreted.
 */
module Resolver {
  import opened Wrappers
  import opened BemDom

  /** The `elem` field of a descriptor object: absent, a name, or an element class. */
  datatype ElemRef = NoElem | ElemString(s: string) | ElemClass(cls: EntityCls)

  /** The shapes of `bindCtx` that the source tells apart. */
  datatype BindTarget =
    | Absent                                    // undefined, null or another falsy value
    | WindowTarget                              // `window`
    | DocumentTarget                            // `document`
    | ElementTarget(id: nat)                    // an `Element`
    | NodeList(nodes: seq<Node>)                // an array-like value that is not a string
    | EntityInstance(inst: Instance)            // an object carrying `__self`
    | ElemName(name: string)                    // a string: an element name
    | Descriptor(block: Option<EntityCls>, elem: ElemRef,
                 modName: Option<string>, modVal: Option<ModVal>)  // `{ block, elem, modName, modVal }`
    | ClassRef(cls: EntityCls)                  // a block class or an element class
    | Opaque                                    // a truthy number, boolean or symbol
    | Collection(members: seq<Instance>)        // a `BemDomCollection`

  /** `bindScope`: a single element or a list of nodes (line 284). */
  datatype BindScope = ScopeElement(id: nat) | ScopeNodes(nodes: seq<Node>)

  /**
   * The external services the resolver calls: `bemInternal.buildClassName`,
   * `bemInternal.buildModPostfix`, the factory's `_getEntityCls`, `identify` on nodes,
   * on `document`, on a list of nodes and on an owning context, and
   * `document.documentElement`.
   */
  datatype Env = Env(
    buildClassName: (string, Option<string>) -> string,
    buildModPostfix: (Option<string>, Option<ModVal>) -> string,
    getEntityCls: string -> Option<EntityCls>,
    identifyNode: Node -> string,
    identifyDocument: string,
    identifyNodes: seq<Node> -> string,
    identifyCtx: Ctx -> string,
    documentElement: Node)

  /** The BEM name a target stands for: block, optional element and modifier. */
  datatype NameParts = NameParts(block: string, elem: Option<string>,
                                 modName: Option<string>, modVal: Option<ModVal>)

  /** JavaScript truthiness of `bindCtx` (line 291): the empty string is falsy. */
  predicate IsTruthy(t: BindTarget)
  {
    !t.Absent? && !(t.ElemName? && t.name == "")
  }

  /** Targets that are the window, the document or an element (line 294). */
  predicate IsHostNode(t: BindTarget)
  {
    t.WindowTarget? || t.DocumentTarget? || t.ElementTarget?
  }

  /** `bindScope instanceof Element ? [bindScope] : bindScope` (line 284). */
  function ScopeNodes(scope: BindScope): seq<Node>
  {
    match scope
    case ScopeElement(id) => [ElementNode(id)]
    case ScopeNodes(nodes) => nodes
  }

  /** The element name of a descriptor's `elem` field (lines 315-317). */
  function ElemNameOf(elem: ElemRef): Option<string>
  {
    match elem
    case NoElem => None
    case ElemString(s) => Some(s)
    case ElemClass(c) => Some(c.name)
  }

  /**
   * The name a string, descriptor or class target stands for (lines 307-325). An empty
   * node list has no `length` to pass line 298 and no `__self`, so line 306 takes it as
   * a descriptor object without fields: the block of the owning class.
   */
  function Parts(t: BindTarget, ctxCls: EntityCls): Option<NameParts>
  {
    match t
    case ElemName(n) => Some(NameParts(ctxCls.blockName, Some(n), None, None))
    case NodeList(nodes) =>
      if |nodes| == 0 then Some(NameParts(ctxCls.blockName, None, None, None)) else None
    case Descriptor(block, elem, modName, modVal) =>
      Some(NameParts(if block.Some? then block.value.name else ctxCls.blockName,
                     ElemNameOf(elem), modName, modVal))
    case ClassRef(c) =>
      if IsBlockClass(c) then Some(NameParts(c.name, None, None, None))
      else Some(NameParts(ctxCls.blockName, Some(c.name), None, None))
    case _ => None
  }

  /** The record every branch starts from (lines 282-289). */
  function DefaultParams(scope: BindScope, ctxClassName: string): Params
  {
    Params(None, ScopeNodes(scope), false, false, ctxClassName, ctxClassName, "")
  }

  /** The class name, and cache key, of a BEM name (lines 327-329). */
  function NamedClassName(env: Env, np: NameParts): string
  {
    env.buildClassName(np.block, np.elem) + env.buildModPostfix(np.modName, np.modVal)
  }

  /**
   * `_buildEventManagerParams(bindCtx, bindScope, ctxClassName, ctxCls)`. A collection
   * never reaches it: `getEventManager` fans it out first (line 243).
   */
  function BuildParams(env: Env, t: BindTarget, scope: BindScope,
                       ctxClassName: string, ctxCls: EntityCls): (p: Params)
    requires !t.Collection?
    ensures p.ctxClassName == ctxClassName
    ensures p.bindToArbitraryDomNode <==> IsHostNode(t)
    ensures p.bindToArbitraryDomElem <==> t.NodeList? && |t.nodes| > 0
    ensures IsTruthy(t) && Parts(t, ctxCls).Some? ==> p.bindClassName == p.key
    ensures !(IsTruthy(t) && Parts(t, ctxCls).Some?) ==> p.bindClassName == ctxClassName
    ensures (!IsHostNode(t) && !(t.NodeList? && |t.nodes| > 0) && !t.EntityInstance?)
            ==> p.bindDomNodes == ScopeNodes(scope)
  {
    var base := DefaultParams(scope, ctxClassName);
    if !IsTruthy(t) then base.(bindEntityCls := Some(ctxCls))
    else match t
      case WindowTarget =>
        base.(bindDomNodes := [WindowNode], key := env.identifyNode(WindowNode),
              bindToArbitraryDomNode := true)
      case DocumentTarget =>
        base.(bindDomNodes := [env.documentElement], key := env.identifyDocument,
              bindToArbitraryDomNode := true)
      case ElementTarget(id) =>
        base.(bindDomNodes := [ElementNode(id)], key := env.identifyNode(ElementNode(id)),
              bindToArbitraryDomNode := true)
      case NodeList(nodes) =>
        if |nodes| > 0 then
          base.(bindDomNodes := nodes, key := env.identifyNodes(nodes),
                bindToArbitraryDomElem := true)
        else NamedParams(env, base, NameParts(ctxCls.blockName, None, None, None))
      case EntityInstance(inst) =>
        base.(bindDomNodes := inst.domNodes, key := inst.uniqId, bindEntityCls := Some(inst.cls))
      case Opaque => base
      case ElemName(n) => NamedParams(env, base, NameParts(ctxCls.blockName, Some(n), None, None))
      case Descriptor(_, _, _, _) => NamedParams(env, base, Parts(t, ctxCls).value)
      case ClassRef(_) => NamedParams(env, base, Parts(t, ctxCls).value)
  }

  /** The named branch: entity class, class name and key from the BEM name (327-329). */
  function NamedParams(env: Env, base: Params, np: NameParts): Params
  {
    var entityName := env.buildClassName(np.block, np.elem);
    base.(bindEntityCls := env.getEntityCls(entityName),
          bindClassName := NamedClassName(env, np), key := NamedClassName(env, np))
  }

  /** Window, document and element targets bind one node, by identity, arbitrarily. */
  lemma HostNodeBinding(env: Env, t: BindTarget, scope: BindScope, ctxClassName: string, ctxCls: EntityCls)
    requires IsHostNode(t)
    ensures var p := BuildParams(env, t, scope, ctxClassName, ctxCls);
      && p.bindToArbitraryDomNode
      && p.bindDomNodes == [match t
                            case WindowTarget => WindowNode
                            case DocumentTarget => env.documentElement
                            case ElementTarget(id) => ElementNode(id)]
      && p.key == (if t.DocumentTarget? then env.identifyDocument else env.identifyNode(p.bindDomNodes[0]))
      && p.bindClassName == ctxClassName && p.bindEntityCls == None
  {
  }

  /** A node list keeps its nodes and joint identity but is not marked arbitrary (301). */
  lemma NodeListBinding(env: Env, nodes: seq<Node>, scope: BindScope, ctxClassName: string, ctxCls: EntityCls)
    requires |nodes| > 0
    ensures var p := BuildParams(env, NodeList(nodes), scope, ctxClassName, ctxCls);
      && p.bindDomNodes == nodes && p.key == env.identifyNodes(nodes)
      && !p.bindToArbitraryDomNode && p.bindToArbitraryDomElem
      && p.bindClassName == ctxClassName && p.bindEntityCls.None?
  {
  }

  /** An entity instance binds its own nodes under its unique id and its class. */
  lemma InstanceBinding(env: Env, inst: Instance, scope: BindScope, ctxClassName: string, ctxCls: EntityCls)
    ensures var p := BuildParams(env, EntityInstance(inst), scope, ctxClassName, ctxCls);
      && p.bindDomNodes == inst.domNodes && p.key == inst.uniqId
      && p.bindEntityCls == Some(inst.cls) && p.bindClassName == ctxClassName
  {
  }

  /**
   * A name, descriptor or class target binds the scope under the class name of its BEM
   * name, which is also the key, with the entity class looked up by that name.
   */
  lemma NamedBinding(env: Env, t: BindTarget, scope: BindScope, ctxClassName: string, ctxCls: EntityCls)
    requires IsTruthy(t) && Parts(t, ctxCls).Some?
    ensures var p := BuildParams(env, t, scope, ctxClassName, ctxCls);
      var np := Parts(t, ctxCls).value;
      && p.bindClassName == p.key
      && p.key == env.buildClassName(np.block, np.elem) + env.buildModPostfix(np.modName, np.modVal)
      && p.bindEntityCls == env.getEntityCls(env.buildClassName(np.block, np.elem))
      && p.bindDomNodes == ScopeNodes(scope) && !p.bindToArbitraryDomNode
  {
  }

  /** An absent target binds the owning class itself on the scope, under the key ''. */
  lemma AbsentBinding(env: Env, t: BindTarget, scope: BindScope, ctxClassName: string, ctxCls: EntityCls)
    requires !t.Collection? && !IsTruthy(t)
    ensures BuildParams(env, t, scope, ctxClassName, ctxCls)
         == Params(Some(ctxCls), ScopeNodes(scope), false, false, ctxClassName, ctxClassName, "")
  {
  }

  /** A truthy primitive is not rejected: it falls through to the default record (306). */
  lemma OpaqueFallsThrough(env: Env, scope: BindScope, ctxClassName: string, ctxCls: EntityCls)
    ensures BuildParams(env, Opaque, scope, ctxClassName, ctxCls) == DefaultParams(scope, ctxClassName)
  {
  }

  /**
   * The record of a named target depends on nothing but its BEM name: an element name,
   * the equivalent descriptor and the element class of the same name share one record,
   * hence one cache key and one event manager.
   */
  lemma SameNameSameParams(env: Env, t1: BindTarget, t2: BindTarget, scope: BindScope,
                           ctxClassName: string, ctxCls: EntityCls)
    requires IsTruthy(t1) && IsTruthy(t2)
    requires Parts(t1, ctxCls).Some? && Parts(t1, ctxCls) == Parts(t2, ctxCls)
    ensures BuildParams(env, t1, scope, ctxClassName, ctxCls) == BuildParams(env, t2, scope, ctxClassName, ctxCls)
  {
    NamedBinding(env, t1, scope, ctxClassName, ctxCls);
    NamedBinding(env, t2, scope, ctxClassName, ctxCls);
  }

  /** The three spellings of an element of the owning block name the same thing. */
  lemma ElemSpellingsAgree(n: string, c: EntityCls, ctxCls: EntityCls)
    requires n != "" && c.name == n && !IsBlockClass(c)
    ensures Parts(ElemName(n), ctxCls) == Parts(Descriptor(None, ElemString(n), None, None), ctxCls)
    ensures Parts(ElemName(n), ctxCls) == Parts(ClassRef(c), ctxCls)
  {
  }
}
