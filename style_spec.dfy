/**
 * The style cascade of paperclip's `computeStyleInfo` as functions, one per
 * stage. The methods in module StyleResolver run the same stages with the
 * loops of the source and are proved equal to these functions; module
 * StyleProperties states what each stage and the whole cascade promise.
 */
module StyleSpec {
  import opened Wrappers
  import opened StyleMaps
  import opened PaperclipModel

  // ---------------------------------------------------------------------------
  // Stage 1: the extends chain

  /** The nodes reached by following `is` links from `id`, nearest first. */
  function ExtendsChain(env: Env, id: Id): (chain: seq<PCNode>)
    requires GraphOk(env) && ChainResolves(env, id)
    ensures forall i :: 0 <= i < |chain| ==> chain[i].id in env.graph && env.graph[chain[i].id] == chain[i]
    decreases Rank(env, id)
  {
    match env.graph[id].baseId
    case None => []
    case Some(base) => [env.graph[base]] + ExtendsChain(env, base)
  }

  /** What one node of the extends chain offers: its style only if it is a component or instance. */
  function ParentContribution(node: PCNode): Style
  {
    if node.componentOrInstance then node.style else map[]
  }

  /** The contributions of the chain, index for index. */
  function ParentLayers(chain: seq<PCNode>): (layers: seq<Style>)
    ensures |layers| == |chain|
    ensures forall i :: 0 <= i < |chain| ==> layers[i] == ParentContribution(chain[i])
  {
    if chain == [] then [] else [ParentContribution(chain[0])] + ParentLayers(chain[1..])
  }

  /** Stage 1 on an empty style: `defaults` with each chain member in turn. */
  function ParentStyle(env: Env, id: Id): Style
    requires GraphOk(env) && ChainResolves(env, id)
  {
    DefaultsFold(map[], ParentLayers(ExtendsChain(env, id)))
  }

  // ---------------------------------------------------------------------------
  // Stage 3: style mixins

  /** `for (const key in node.style) map[key] = node`. */
  function SelfAttribution(node: PCNode): map<string, PCNode>
  {
    map k | k in node.style :: node
  }

  /**
   * A mixin map whose keys point to nodes holding them: `node` itself when
   * `includeSelf`, otherwise graph nodes of smaller rank than `node`.
   */
  ghost predicate AttributedBelow(env: Env, m: map<string, PCNode>, node: PCNode, includeSelf: bool)
  {
    forall k :: k in m ==>
      && k in m[k].style
      && ((includeSelf && m[k] == node) || (m[k].id in env.graph && env.graph[m[k].id] == m[k] && Rank(env, m[k].id) < Rank(env, node.id)))
  }

  /** Every layer maps each key to a graph node of rank below `bound` that holds the key. */
  ghost predicate LayersBelow(env: Env, layers: seq<map<string, PCNode>>, bound: nat)
  {
    forall i, k :: 0 <= i < |layers| && k in layers[i] ==>
      && k in layers[i][k].style
      && layers[i][k].id in env.graph && env.graph[layers[i][k].id] == layers[i][k] && Rank(env, layers[i][k].id) < bound
  }

  /**
   * `getStyleMixinMap(node, graph, includeSelf)`: each key attributed to a
   * node whose own style has that key. With `includeSelf` the node's own keys
   * are attributed to the node and shadow its nested mixins; every other key
   * is attributed to a mixin in the graph below the node.
   */
  function MixinMap(env: Env, node: PCNode, includeSelf: bool): (r: map<string, PCNode>)
    requires GraphOk(env) && MixinsRanked(env, node)
    ensures forall k :: k in r ==> k in r[k].style
    ensures forall k :: k in r ==>
      (includeSelf && r[k] == node) || (r[k].id in env.graph && env.graph[r[k].id] == r[k] && Rank(env, r[k].id) < Rank(env, node.id))
    ensures includeSelf ==> forall k :: k in node.style ==> k in r && r[k] == node
    decreases Rank(env, node.id), 1, 0
  {
    var layers := MixinLayers(env, node.styleMixins, Rank(env, node.id));
    var seed := if includeSelf then SelfAttribution(node) else map[];
    DefaultsFoldKeepsAttribution(env, seed, layers, node, includeSelf);
    DefaultsFoldKeepsSet(seed, layers);
    DefaultsFold(seed, layers)
  }

  /** The expanded maps of the mixins in `ids` that the graph holds, in order. */
  function MixinLayers(env: Env, ids: seq<Id>, ghost bound: nat): (layers: seq<map<string, PCNode>>)
    requires GraphOk(env)
    requires forall m :: m in ids && m in env.graph ==> Rank(env, m) < bound
    ensures LayersBelow(env, layers, bound)
    decreases bound, 0, |ids|
  {
    if ids == [] then []
    else if ids[0] in env.graph then [MixinMap(env, env.graph[ids[0]], true)] + MixinLayers(env, ids[1..], bound)
    else MixinLayers(env, ids[1..], bound)
  }

  /** Folding layers below the node's rank into an attributed map keeps it attributed. */
  lemma {:induction false} DefaultsFoldKeepsAttribution(
    env: Env, acc: map<string, PCNode>, layers: seq<map<string, PCNode>>, node: PCNode, includeSelf: bool)
    requires AttributedBelow(env, acc, node, includeSelf)
    requires LayersBelow(env, layers, Rank(env, node.id))
    ensures AttributedBelow(env, DefaultsFold(acc, layers), node, includeSelf)
    decreases |layers|
  {
    if layers != [] {
      assert LayersBelow(env, layers[1..], Rank(env, node.id)) by {
        forall i, k | 0 <= i < |layers[1..]| && k in layers[1..][i] ensures layers[1..][i] == layers[i + 1] { }
      }
      DefaultsFoldKeepsAttribution(env, Defaults(acc, layers[0]), layers[1..], node, includeSelf);
    }
  }

  /** `styleMixinMapToStyle`: each key's value in the style of the node it is attributed to. */
  function MixinMapStyle(mixinMap: map<string, PCNode>): Style
    requires forall k :: k in mixinMap ==> k in mixinMap[k].style
  {
    map k | k in mixinMap :: mixinMap[k].style[k]
  }

  // ---------------------------------------------------------------------------
  // Stages 1 to 3 together

  /** The style after stage 2 (extends chain, then the node's own style). */
  function SelfStyle(env: Env, id: Id, options: ComputeStyleOptions): Style
    requires GraphOk(env) && SourceOk(env, id, options)
  {
    var parentStyle := if Enabled(options.parentStyles) then ParentStyle(env, id) else map[];
    if Enabled(options.self) then parentStyle + env.graph[id].style else parentStyle
  }

  /** The `styleMixinMap` of the result. */
  function StyleMixinMapOf(env: Env, id: Id, options: ComputeStyleOptions): (r: map<string, PCNode>)
    requires GraphOk(env) && id in env.graph
    ensures forall k :: k in r ==> k in r[k].style
  {
    if Enabled(options.styleMixins) then MixinMap(env, env.graph[id], false) else map[]
  }

  /** The style after stage 3 (mixins fill only the keys still missing). */
  function AuthoredStyle(env: Env, id: Id, options: ComputeStyleOptions): Style
    requires GraphOk(env) && SourceOk(env, id, options)
  {
    var selfStyle := SelfStyle(env, id, options);
    if Enabled(options.styleMixins) then Defaults(selfStyle, MixinMapStyle(StyleMixinMapOf(env, id, options)))
    else selfStyle
  }

  // ---------------------------------------------------------------------------
  // Stage 4: ADD_STYLE_BLOCK overrides

  datatype OverrideState = OverrideState(style: Style, overridesMap: map<string, seq<PCOverride>>)

  /** `styleOverridesMap[key]`, the empty list when it was never created. */
  function OverridesFor(overridesMap: map<string, seq<PCOverride>>, key: string): seq<PCOverride>
  {
    if key in overridesMap then overridesMap[key] else []
  }

  /** The body of the inner loop for one pair whose key is `key`. */
  function AddOverrideKey(env: Env, ov: PCOverride, key: string, st: OverrideState): OverrideState
  {
    OverrideState(
      st.style[key := env.pairsIndex(ov.value, key)],
      st.overridesMap[key := OverridesFor(st.overridesMap, key) + [ov]])
  }

  /** The inner loop over the pairs of one override. */
  function ApplyPairs(env: Env, ov: PCOverride, pairs: seq<KeyValuePair>, st: OverrideState): OverrideState
    decreases |pairs|
  {
    if pairs == [] then st else ApplyPairs(env, ov, pairs[1..], AddOverrideKey(env, ov, pairs[0].key, st))
  }

  /** The outer loop over the overrides; other override types are skipped. */
  function ApplyOverrides(env: Env, overrides: seq<PCOverride>, st: OverrideState): OverrideState
    decreases |overrides|
  {
    if overrides == [] then st
    else
      var ov := overrides[0];
      ApplyOverrides(env, overrides[1..], if ov.kind == AddStyleBlock then ApplyPairs(env, ov, ov.value, st) else st)
  }

  /** The result after stages 1 to 4; the inheritance map is still empty. */
  function LocalStyleInfo(env: Env, node: InspectorNode, options: ComputeStyleOptions): ComputedStyleInfo
    requires GraphOk(env) && SourceOk(env, node.sourceNodeId, options)
  {
    var authored := AuthoredStyle(env, node.sourceNodeId, options);
    var start := OverrideState(authored, map[]);
    var ov := if Enabled(options.overrides) then ApplyOverrides(env, OverridesOf(env, node.id), start) else start;
    ComputedStyleInfo(env.graph[node.sourceNodeId], StyleMixinMapOf(env, node.sourceNodeId, options),
                      ov.overridesMap, map[], ov.style)
  }

  // ---------------------------------------------------------------------------
  // Stage 5: inheritance from inspector-tree ancestors

  datatype InheritState = InheritState(style: Style, inheritanceMap: map<string, InspectorNode>)

  /** `start` and the ancestors above it, nearest first. */
  function AncestorsFrom(env: Env, start: Option<InspectorNode>): (ancestors: seq<InspectorNode>)
    requires WellFormed(env)
    ensures start.None? ==> ancestors == []
    ensures start.Some? ==> |ancestors| > 0 && ancestors[0] == start.value
    ensures PathResolves(env, start) ==> forall i :: 0 <= i < |ancestors| ==> AncestorOk(env, ancestors[i])
    ensures start.Some? ==> forall i :: 0 <= i < |ancestors| ==> Depth(env, ancestors[i].id) <= Depth(env, start.value.id)
    decreases if start.Some? then Depth(env, start.value.id) + 1 else 0
  {
    match start
    case None => []
    case Some(p) => [p] + AncestorsFrom(env, ParentOf(env, p.id))
  }

  /** The ancestors of inspector node `id`, nearest first. */
  function Ancestors(env: Env, id: Id): (ancestors: seq<InspectorNode>)
    requires WellFormed(env)
    ensures forall i :: 0 <= i < |ancestors| ==> Depth(env, ancestors[i].id) < Depth(env, id)
    ensures PathResolves(env, ParentOf(env, id)) ==> forall i :: 0 <= i < |ancestors| ==> AncestorOk(env, ancestors[i])
  {
    AncestorsFrom(env, ParentOf(env, id))
  }

  /** The `for (const key in inheritedStyle)` loop: copy into the keys that are falsy. */
  function CopyInherited(inherited: Style, from: InspectorNode, st: InheritState): (r: InheritState)
    ensures forall k :: Get(r.style, k) == (if k in inherited && Falsy(st.style, k) then Some(inherited[k]) else Get(st.style, k))
    ensures forall k :: Get(r.inheritanceMap, k) == (if k in inherited && Falsy(st.style, k) then Some(from) else Get(st.inheritanceMap, k))
  {
    InheritState(
      st.style + map k | k in inherited && Falsy(st.style, k) :: inherited[k],
      st.inheritanceMap + map k | k in inherited && Falsy(st.style, k) :: from)
  }

  /**
   * What an ancestor offers: `None` unless it is a source representation of
   * an element-like node, else its inheritable style computed with the
   * default options.
   */
  function InheritedContribution(env: Env, ancestor: InspectorNode, ghost bound: nat): Option<Style>
    requires WellFormed(env) && AncestorOk(env, ancestor) && Depth(env, ancestor.id) < bound
    decreases bound, 0, 0
  {
    if ancestor.name == SourceRep && env.graph[ancestor.sourceNodeId].elementLike then
      Some(Pick(StyleInfo(env, ancestor, DefaultComputeStyleOptions).style, env.inheritableNames))
    else None
  }

  /** The `while (parent)` loop over the ancestors. */
  function InheritFold(env: Env, ancestors: seq<InspectorNode>, st: InheritState, ghost bound: nat): InheritState
    requires WellFormed(env)
    requires forall i :: 0 <= i < |ancestors| ==> AncestorOk(env, ancestors[i]) && Depth(env, ancestors[i].id) < bound
    decreases bound, 0, |ancestors|
  {
    if ancestors == [] then st
    else
      var c := InheritedContribution(env, ancestors[0], bound);
      InheritFold(env, ancestors[1..], if c.Some? then CopyInherited(c.value, ancestors[0], st) else st, bound)
  }

  // ---------------------------------------------------------------------------
  // The whole cascade

  /** `computeStyleInfo(inspectorNode, rootInspectorNode, variant, graph, options)`. */
  function StyleInfo(env: Env, node: InspectorNode, options: ComputeStyleOptions): ComputedStyleInfo
    requires WellFormed(env) && Resolvable(env, node, options)
    decreases Depth(env, node.id), 1, 0
  {
    var local := LocalStyleInfo(env, node, options);
    if Enabled(options.inheritedStyles) then
      var inh := InheritFold(env, Ancestors(env, node.id), InheritState(local.style, map[]), Depth(env, node.id));
      local.(style := inh.style, styleInheritanceMap := inh.inheritanceMap)
    else local
  }
}
