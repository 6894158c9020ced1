/**
 * The parts of the paperclip document graph, inspector tree and override
 * provider that the style cascade reads. The helpers behind them (`getPCNode`,
 * `getParentTreeNode`, `getInspectorNodeOverrides`, `extendsComponent`,
 * `isPCComponentOrInstance`, `isElementLikePCNode`, `getSortedStyleMixinIds`
 * and the two style-name sets) are not part of this model: what they answer
 * is stored as data here, and the model holds for any answers they give.
 */
module PaperclipModel {
  import opened Wrappers

  type Id = string

  /** A style: property name to value. JS `undefined` is represented by "". */
  type Style = map<string, string>

  /** A document node (component, instance, element or style mixin). */
  datatype PCNode = PCNode(
    id: Id,
    style: Style,
    /** mixin ids in the order `getSortedStyleMixinIds` yields */
    styleMixins: seq<Id>,
    /** the `is` id when `extendsComponent` holds, `None` when it does not */
    baseId: Option<Id>,
    /** what `isPCComponentOrInstance` answers for this node */
    componentOrInstance: bool,
    /** what `isElementLikePCNode` answers for this node */
    elementLike: bool)

  datatype InspectorTreeNodeName = SourceRep | OtherName

  /** A node of the inspector (instance) tree. */
  datatype InspectorNode = InspectorNode(id: Id, name: InspectorTreeNodeName, sourceNodeId: Id)

  datatype KeyValuePair = KeyValuePair(key: string, value: string)

  datatype PCOverridableType = AddStyleBlock | OtherOverride

  /** An override record; for `AddStyleBlock` its value is a list of key/value pairs. */
  datatype PCOverride = PCOverride(id: Id, kind: PCOverridableType, value: seq<KeyValuePair>)

  /**
   * Everything one resolution reads. The root inspector node and the variant
   * are fixed for a call and its recursive calls, so the answers of the
   * helpers that take them are stored per inspector node id.
   */
  datatype Env = Env(
    /** `getPCNode(id, graph)` */
    graph: map<Id, PCNode>,
    /** a rank witnessing that `is` links and mixin links are acyclic */
    rank: map<Id, nat>,
    /** `getParentTreeNode(id, rootInspectorNode)` */
    parentOf: map<Id, InspectorNode>,
    /** a depth witnessing that the parent relation is a tree */
    depth: map<Id, nat>,
    /** `getInspectorNodeOverrides(node, rootInspectorNode, variant, graph)` */
    overridesOf: map<Id, seq<PCOverride>>,
    /** `INHERITABLE_STYLE_NAMES` */
    inheritableNames: set<string>,
    /** `TEXT_STYLE_NAMES` */
    textStyleNames: set<string>,
    /** `override.value[key]`: a property of the pair list looked up by a style key */
    pairsIndex: (seq<KeyValuePair>, string) -> string)

  function Rank(env: Env, id: Id): nat
  {
    if id in env.rank then env.rank[id] else 0
  }

  function Depth(env: Env, id: Id): nat
  {
    if id in env.depth then env.depth[id] else 0
  }

  /** `getParentTreeNode`: `None` at the root. */
  function ParentOf(env: Env, id: Id): Option<InspectorNode>
  {
    if id in env.parentOf then Some(env.parentOf[id]) else None
  }

  /** `getInspectorNodeOverrides`, in provider order. */
  function OverridesOf(env: Env, id: Id): seq<PCOverride>
  {
    if id in env.overridesOf then env.overridesOf[id] else []
  }

  /** Every mixin of `node` that the graph holds has a smaller rank than `node`. */
  predicate MixinsRanked(env: Env, node: PCNode)
  {
    forall m :: m in node.styleMixins && m in env.graph ==> Rank(env, m) < Rank(env, node.id)
  }

  /**
   * The document graph: nodes are stored under their own id, and every `is`
   * link and every mixin link that resolves goes to a node of smaller rank
   * (so neither relation has a cycle). Dangling links are allowed here;
   * the resolutions that follow them ask for them to resolve.
   */
  predicate GraphOk(env: Env)
  {
    && (forall id :: id in env.graph ==> env.graph[id].id == id)
    && (forall id :: id in env.graph && env.graph[id].baseId.Some? && env.graph[id].baseId.value in env.graph ==>
          Rank(env, env.graph[id].baseId.value) < Rank(env, id))
    && (forall id :: id in env.graph ==> MixinsRanked(env, env.graph[id]))
  }

  /** Every `is` link on the extends chain from `id` names a graph node. */
  predicate ChainResolves(env: Env, id: Id)
    requires GraphOk(env)
    decreases Rank(env, id)
  {
    && id in env.graph
    && (env.graph[id].baseId.Some? ==>
          env.graph[id].baseId.value in env.graph && ChainResolves(env, env.graph[id].baseId.value))
  }

  /** A source-representation inspector node refers to a document node. */
  predicate SourceResolves(env: Env, node: InspectorNode)
  {
    node.name == SourceRep ==> node.sourceNodeId in env.graph
  }

  /** The inspector tree: every parent is shallower than its child. */
  predicate TreeOk(env: Env)
  {
    forall id :: id in env.parentOf ==> Depth(env, env.parentOf[id].id) < Depth(env, id)
  }

  predicate WellFormed(env: Env)
  {
    GraphOk(env) && TreeOk(env)
  }

  /**
   * Stages 1 to 4 of resolving document node `id` with `options` look the
   * node up, and walk its extends chain when the parent stage is on.
   */
  predicate SourceOk(env: Env, id: Id, options: ComputeStyleOptions)
    requires GraphOk(env)
  {
    id in env.graph && (Enabled(options.parentStyles) ==> ChainResolves(env, id))
  }

  /**
   * What the inheritance loop dereferences at ancestor `a`: the source node
   * of a source representation, and, when that node is element-like, the
   * extends chain its own resolution with the default options walks.
   */
  predicate AncestorResolves(env: Env, a: InspectorNode)
    requires GraphOk(env)
  {
    && SourceResolves(env, a)
    && (a.name == SourceRep && env.graph[a.sourceNodeId].elementLike ==> ChainResolves(env, a.sourceNodeId))
  }

  /** Every node on the walk up the inspector tree from `start` resolves. */
  predicate PathResolves(env: Env, start: Option<InspectorNode>)
    requires WellFormed(env)
    decreases if start.Some? then Depth(env, start.value.id) + 1 else 0
  {
    match start
    case None => true
    case Some(a) => AncestorResolves(env, a) && PathResolves(env, ParentOf(env, a.id))
  }

  /** Ancestor `a` resolves, and so does the walk above it. */
  predicate AncestorOk(env: Env, a: InspectorNode)
    requires WellFormed(env)
  {
    AncestorResolves(env, a) && PathResolves(env, ParentOf(env, a.id))
  }

  /**
   * Everything `computeStyleInfo(node, ..., options)` dereferences resolves:
   * the source node and, with the parent stage on, its extends chain; with
   * the inheritance stage on, each ancestor it walks.
   */
  predicate Resolvable(env: Env, node: InspectorNode, options: ComputeStyleOptions)
    requires WellFormed(env)
  {
    && SourceOk(env, node.sourceNodeId, options)
    && (Enabled(options.inheritedStyles) ==> PathResolves(env, ParentOf(env, node.id)))
  }

  /** `ComputeStyleOptions`: each flag may be absent. */
  datatype ComputeStyleOptions = ComputeStyleOptions(
    styleMixins: Option<bool>,
    inheritedStyles: Option<bool>,
    overrides: Option<bool>,
    parentStyles: Option<bool>,
    self: Option<bool>)

  const DefaultComputeStyleOptions := ComputeStyleOptions(Some(true), Some(true), Some(true), Some(true), Some(true))

  /** `options.x !== false`: only an explicit `false` switches a stage off. */
  predicate Enabled(flag: Option<bool>)
  {
    flag != Some(false)
  }

  /** `ComputedStyleInfo`. */
  datatype ComputedStyleInfo = ComputedStyleInfo(
    sourceNode: PCNode,
    styleMixinMap: map<string, PCNode>,
    styleOverridesMap: map<string, seq<PCOverride>>,
    styleInheritanceMap: map<string, InspectorNode>,
    style: Style)

  /** `!style[key]`: absent and the empty value ("" or `undefined`) are falsy. */
  predicate Falsy(style: Style, key: string)
  {
    key !in style || style[key] == ""
  }
}
