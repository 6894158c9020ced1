/**
 * `packages/paperclip/src/style.ts`: `computeStyleInfo` and its helpers with
 * the loops of the source, each proved to compute what module StyleSpec
 * defines, and the text-style queries built on it. `memoize` is
 * semantically transparent and is not modelled.
 */
module StyleResolver {
  import opened Wrappers
  import opened StyleMaps
  import opened PaperclipModel
  import opened StyleSpec

  /** The `includeSelf` loop of `getStyleMixinMap`: `map[key] = node` for each own key. */
  method AttributeOwnKeys(node: PCNode) returns (result: map<string, PCNode>)
    ensures result == SelfAttribution(node)
  {
    result := map[];
    var keys := node.style.Keys;
    while keys != {}
      invariant keys <= node.style.Keys
      invariant result == map k | k in node.style.Keys - keys :: node
      decreases keys
    {
      var key :| key in keys;
      result := result[key := node];
      keys := keys - {key};
    }
    assert node.style.Keys - keys == node.style.Keys;
  }

  /** `getStyleMixinMap(node, graph, includeSelf)`. */
  method GetStyleMixinMap(env: Env, node: PCNode, includeSelf: bool) returns (result: map<string, PCNode>)
    requires GraphOk(env) && MixinsRanked(env, node)
    ensures result == MixinMap(env, node, includeSelf)
    decreases Rank(env, node.id)
  {
    result := map[];
    if includeSelf {
      result := AttributeOwnKeys(node);
    }
    ghost var bound := Rank(env, node.id);
    var sortedStyleMixinIds := node.styleMixins;
    var i := 0;
    MixinMapUnfold(env, node, includeSelf);
    assert sortedStyleMixinIds[0..] == sortedStyleMixinIds;
    while i < |sortedStyleMixinIds|
      invariant i <= |sortedStyleMixinIds|
      invariant DefaultsFold(result, MixinLayers(env, sortedStyleMixinIds[i..], bound)) == MixinMap(env, node, includeSelf)
    {
      var styleMixinId := sortedStyleMixinIds[i];
      MixinStep(env, sortedStyleMixinIds, i, bound, result);
      // a dangling mixin id is skipped
      if styleMixinId in env.graph {
        var nested := GetStyleMixinMap(env, env.graph[styleMixinId], true);
        result := Defaults(result, nested);
      }
      i := i + 1;
    }
    assert sortedStyleMixinIds[i..] == [];
  }

  /** `MixinMap` is the fold of the mixins' layers onto the node's own attribution. */
  lemma MixinMapUnfold(env: Env, node: PCNode, includeSelf: bool)
    requires GraphOk(env) && MixinsRanked(env, node)
    ensures MixinMap(env, node, includeSelf)
         == DefaultsFold(if includeSelf then SelfAttribution(node) else map[], MixinLayers(env, node.styleMixins, Rank(env, node.id)))
  {
  }

  /** One turn of the mixin loop: `defaults` with the mixin's expanded map if the graph holds it. */
  lemma MixinStep(env: Env, ids: seq<Id>, i: int, bound: nat, acc: map<string, PCNode>)
    requires GraphOk(env) && 0 <= i < |ids|
    requires forall m :: m in ids && m in env.graph ==> Rank(env, m) < bound
    ensures ids[i] in env.graph ==>
      MixinsRanked(env, env.graph[ids[i]]) && Rank(env, env.graph[ids[i]].id) < bound
    ensures forall m :: m in ids[i..] && m in env.graph ==> Rank(env, m) < bound
    ensures DefaultsFold(acc, MixinLayers(env, ids[i..], bound))
         == DefaultsFold(if ids[i] in env.graph then Defaults(acc, MixinMap(env, env.graph[ids[i]], true)) else acc,
                         MixinLayers(env, ids[i + 1..], bound))
  {
    assert ids[i..][0] == ids[i];
    assert ids[i..][1..] == ids[i + 1..];
  }

  /** `styleMixinMapToStyle(map)`. */
  method StyleMixinMapToStyle(mixinMap: map<string, PCNode>) returns (style: Style)
    requires forall k :: k in mixinMap ==> k in mixinMap[k].style
    ensures style == MixinMapStyle(mixinMap)
  {
    style := map[];
    var keys := mixinMap.Keys;
    while keys != {}
      invariant keys <= mixinMap.Keys
      invariant style == map k | k in mixinMap.Keys - keys :: mixinMap[k].style[k]
      decreases keys
    {
      var key :| key in keys;
      style := style[key := mixinMap[key].style[key]];
      keys := keys - {key};
    }
    assert mixinMap.Keys - keys == mixinMap.Keys;
  }

  /** Stage 1 of `computeStyleInfo`: the `while (extendsComponent(current))` loop. */
  method ApplyParentStyles(env: Env, sourceNode: PCNode) returns (style: Style)
    requires GraphOk(env) && ChainResolves(env, sourceNode.id) && env.graph[sourceNode.id] == sourceNode
    ensures style == ParentStyle(env, sourceNode.id)
  {
    style := map[];
    var current := sourceNode;
    while current.baseId.Some?
      invariant ChainResolves(env, current.id) && env.graph[current.id] == current
      invariant DefaultsFold(style, ParentLayers(ExtendsChain(env, current.id))) == ParentStyle(env, sourceNode.id)
      decreases Rank(env, current.id)
    {
      var parent := env.graph[current.baseId.value];
      ParentStep(env, current.id, style);
      if parent.componentOrInstance {
        // the chain only fills keys still missing
        style := Defaults(style, parent.style);
      }
      current := parent;
    }
  }

  /** One turn of the extends loop: `defaults` with the parent if it contributes, then the rest of the chain. */
  lemma ParentStep(env: Env, id: Id, acc: Style)
    requires GraphOk(env) && ChainResolves(env, id) && env.graph[id].baseId.Some?
    ensures var parent := env.graph[env.graph[id].baseId.value];
      && ChainResolves(env, parent.id) && env.graph[parent.id] == parent && Rank(env, parent.id) < Rank(env, id)
      && DefaultsFold(acc, ParentLayers(ExtendsChain(env, id)))
           == DefaultsFold(if parent.componentOrInstance then Defaults(acc, parent.style) else acc,
                           ParentLayers(ExtendsChain(env, parent.id)))
  {
    var parent := env.graph[env.graph[id].baseId.value];
    var layers := ParentLayers(ExtendsChain(env, id));
    assert layers == [ParentContribution(parent)] + ParentLayers(ExtendsChain(env, parent.id));
    assert layers[1..] == ParentLayers(ExtendsChain(env, parent.id));
    assert Defaults(acc, map[]) == acc;
  }

  /** The inner loop of stage 4: the pairs of one ADD_STYLE_BLOCK override. */
  method ApplyOverridePairs(env: Env, override: PCOverride, st: OverrideState) returns (result: OverrideState)
    ensures result == ApplyPairs(env, override, override.value, st)
  {
    var style, styleOverridesMap := st.style, st.overridesMap;
    var j := 0;
    while j < |override.value|
      invariant j <= |override.value|
      invariant ApplyPairs(env, override, override.value[j..], OverrideState(style, styleOverridesMap))
                == ApplyPairs(env, override, override.value, st)
    {
      var key := override.value[j].key;
      ghost var before := OverrideState(style, styleOverridesMap);
      assert override.value[j..][1..] == override.value[j + 1..];
      if key !in styleOverridesMap {
        styleOverridesMap := styleOverridesMap[key := []];
      }
      styleOverridesMap := styleOverridesMap[key := styleOverridesMap[key] + [override]];
      style := style[key := env.pairsIndex(override.value, key)];
      assert styleOverridesMap == before.overridesMap[key := OverridesFor(before.overridesMap, key) + [override]];
      assert OverrideState(style, styleOverridesMap) == AddOverrideKey(env, override, key, before);
      j := j + 1;
    }
    result := OverrideState(style, styleOverridesMap);
  }

  /** Stage 4 of `computeStyleInfo`: the `for (const override of overrides)` loop. */
  method ApplyStyleOverrides(env: Env, overrides: seq<PCOverride>, st: OverrideState) returns (result: OverrideState)
    ensures result == ApplyOverrides(env, overrides, st)
  {
    result := st;
    var i := 0;
    while i < |overrides|
      invariant i <= |overrides|
      invariant ApplyOverrides(env, overrides[i..], result) == ApplyOverrides(env, overrides, st)
    {
      var override := overrides[i];
      assert overrides[i..][1..] == overrides[i + 1..];
      if override.kind == AddStyleBlock {
        result := ApplyOverridePairs(env, override, result);
      }
      i := i + 1;
    }
  }

  /** The `for (const key in inheritedStyle)` loop of stage 5. */
  method CopyInheritedStyle(inheritedStyle: Style, parent: InspectorNode, st: InheritState) returns (result: InheritState)
    ensures result == CopyInherited(inheritedStyle, parent, st)
  {
    var style, styleInheritanceMap := st.style, st.inheritanceMap;
    var keys := inheritedStyle.Keys;
    while keys != {}
      invariant keys <= inheritedStyle.Keys
      invariant forall k :: Get(style, k) ==
                  (if k in inheritedStyle && k !in keys && Falsy(st.style, k) then Some(inheritedStyle[k]) else Get(st.style, k))
      invariant forall k :: Get(styleInheritanceMap, k) ==
                  (if k in inheritedStyle && k !in keys && Falsy(st.style, k) then Some(parent) else Get(st.inheritanceMap, k))
      decreases keys
    {
      var key :| key in keys;
      if Falsy(style, key) {
        styleInheritanceMap := styleInheritanceMap[key := parent];
        style := style[key := inheritedStyle[key]];
      }
      keys := keys - {key};
    }
    var want := CopyInherited(inheritedStyle, parent, st);
    MapsEqualByGet(style, want.style);
    MapsEqualByGet(styleInheritanceMap, want.inheritanceMap);
    result := InheritState(style, styleInheritanceMap);
  }

  /** Stage 5 of `computeStyleInfo`: the `while (parent)` loop over the inspector-tree ancestors. */
  method InheritFromAncestors(env: Env, inspectorNode: InspectorNode, st: InheritState) returns (result: InheritState)
    requires WellFormed(env) && PathResolves(env, ParentOf(env, inspectorNode.id))
    ensures result == InheritFold(env, Ancestors(env, inspectorNode.id), st, Depth(env, inspectorNode.id))
    decreases Depth(env, inspectorNode.id), 0
  {
    ghost var depth := Depth(env, inspectorNode.id);
    result := st;
    var parent := ParentOf(env, inspectorNode.id);
    while parent.Some?
      invariant PathResolves(env, parent) && (parent.Some? ==> Depth(env, parent.value.id) < depth)
      invariant InheritFold(env, AncestorsFrom(env, parent), result, depth)
                == InheritFold(env, Ancestors(env, inspectorNode.id), st, depth)
      decreases if parent.Some? then Depth(env, parent.value.id) + 1 else 0
    {
      var p := parent.value;
      assert AncestorsFrom(env, parent)[1..] == AncestorsFrom(env, ParentOf(env, p.id));
      if p.name == SourceRep && env.graph[p.sourceNodeId].elementLike {
        var parentInfo := ComputeStyleInfo(env, p, DefaultComputeStyleOptions);
        var inheritedStyle := Pick(parentInfo.style, env.inheritableNames);
        result := CopyInheritedStyle(inheritedStyle, p, result);
      }
      parent := ParentOf(env, p.id);
    }
  }

  /** `computeStyleInfo(inspectorNode, rootInspectorNode, variant, graph, options)`. */
  method ComputeStyleInfo(env: Env, inspectorNode: InspectorNode, options: ComputeStyleOptions)
    returns (info: ComputedStyleInfo)
    requires WellFormed(env) && Resolvable(env, inspectorNode, options)
    ensures info == StyleInfo(env, inspectorNode, options)
    decreases Depth(env, inspectorNode.id), 1
  {
    var style: Style := map[];
    var styleMixinMap: map<string, PCNode> := map[];
    var sourceNode := env.graph[inspectorNode.sourceNodeId];

    if Enabled(options.parentStyles) {
      style := ApplyParentStyles(env, sourceNode);
    }
    if Enabled(options.self) {
      style := style + sourceNode.style;
    }
    if Enabled(options.styleMixins) {
      styleMixinMap := GetStyleMixinMap(env, sourceNode, false);
      var mixinStyle := StyleMixinMapToStyle(styleMixinMap);
      style := Defaults(style, mixinStyle);
    }
    var local := OverrideState(style, map[]);
    if Enabled(options.overrides) {
      local := ApplyStyleOverrides(env, OverridesOf(env, inspectorNode.id), local);
    }
    var inherited := InheritState(local.style, map[]);
    if Enabled(options.inheritedStyles) {
      inherited := InheritFromAncestors(env, inspectorNode, inherited);
    }
    info := ComputedStyleInfo(sourceNode, styleMixinMap, local.overridesMap, inherited.inheritanceMap, inherited.style);
  }

  /** `filterTextStyles(style)`. */
  function FilterTextStyles(env: Env, style: Style): (r: Style)
    ensures r.Keys == style.Keys * env.textStyleNames
    ensures forall k :: k in r ==> r[k] == style[k]
  {
    Pick(style, env.textStyleNames)
  }

  /** The options `getTextStyles` passes: only the node's own style and its overrides. */
  const TextStyleOptions := ComputeStyleOptions(Some(false), Some(false), Some(true), Some(false), Some(true))

  /** `getTextStyles(inspectorNode, rootInspectorNode, variant, graph)`. */
  function GetTextStyles(env: Env, inspectorNode: InspectorNode): (r: Style)
    requires WellFormed(env) && inspectorNode.sourceNodeId in env.graph
    ensures r.Keys <= env.textStyleNames
  {
    FilterTextStyles(env, StyleInfo(env, inspectorNode, TextStyleOptions).style)
  }

  /** `hasTextStyles(inspectorNode, rootInspectorNode, variant, graph)`. */
  function HasTextStyles(env: Env, inspectorNode: InspectorNode): (r: bool)
    requires WellFormed(env) && inspectorNode.sourceNodeId in env.graph
    ensures r <==> GetTextStyles(env, inspectorNode) != map[]
  {
    |GetTextStyles(env, inspectorNode)| != 0
  }
}
