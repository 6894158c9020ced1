/**
 * What the style cascade promises, stage by stage and end to end, stated
 * about the functions of module StyleSpec (which the methods of module StyleResolver
 * compute).
 */
module StyleProperties {
  import opened Wrappers
  import opened StyleMaps
  import opened PaperclipModel
  import opened StyleSpec
  import StyleResolver

  // ---------------------------------------------------------------------------
  // Stage 1: the extends chain

  /**
   * Along the extends chain the nearest component or instance that has a key
   * supplies its value; nodes that are neither contribute nothing, and a key
   * no contributor has stays unset.
   */
  lemma ParentStyleMostDerivedWins(env: Env, id: Id, k: string)
    requires GraphOk(env) && ChainResolves(env, id)
    ensures var chain := ExtendsChain(env, id);
      && Get(ParentStyle(env, id), k) == FirstValue(ParentLayers(chain), k)
      && (k in ParentStyle(env, id) <==>
            exists i :: 0 <= i < |chain| && chain[i].componentOrInstance && k in chain[i].style)
      && (forall i :: FirstWith(ParentLayers(chain), k, i) ==>
            k in ParentStyle(env, id) && ParentStyle(env, id)[k] == chain[i].style[k])
  {
    var chain := ExtendsChain(env, id);
    var layers := ParentLayers(chain);
    DefaultsFoldFirstValue(map[], layers, k);
    assert ([map[]] + layers)[1..] == layers;
    FirstValueNone(layers, k);
    forall i | FirstWith(layers, k, i) ensures ParentStyle(env, id)[k] == chain[i].style[k] {
      FirstValueAt(layers, k, i);
    }
  }

  // ---------------------------------------------------------------------------
  // Stages 2 and 3: own style, then mixins

  /**
   * The node's own style overwrites what the extends chain gave, and the
   * mixin stage keeps it: an own key ends stage 3 with the node's own value.
   */
  lemma OwnStyleOverwritesParents(env: Env, id: Id, options: ComputeStyleOptions, k: string)
    requires GraphOk(env) && SourceOk(env, id, options)
    requires Enabled(options.self) && k in env.graph[id].style
    ensures SelfStyle(env, id, options)[k] == env.graph[id].style[k]
    ensures AuthoredStyle(env, id, options)[k] == env.graph[id].style[k]
  {
  }

  /**
   * The mixin stage only adds keys still missing after stages 1 and 2; every
   * key it adds has the value of the mixin the key is attributed to.
   */
  lemma MixinsOnlyFillMissingKeys(env: Env, id: Id, options: ComputeStyleOptions, k: string)
    requires GraphOk(env) && SourceOk(env, id, options)
    ensures var before := SelfStyle(env, id, options);
            var after := AuthoredStyle(env, id, options);
            var mixinMap := StyleMixinMapOf(env, id, options);
      && (k in before ==> k in after && after[k] == before[k])
      && (k !in before ==> (k in after <==> k in mixinMap))
      && (k !in before && k in mixinMap ==> k in mixinMap[k].style && after[k] == mixinMap[k].style[k])
  {
  }

  /**
   * Because parent defaults are written before mixins and mixins only fill
   * gaps, a value from the extends chain beats a mixin's value for the same
   * key whenever the node itself does not set the key.
   */
  lemma ParentDefaultBeatsMixin(env: Env, id: Id, options: ComputeStyleOptions, k: string)
    requires GraphOk(env) && SourceOk(env, id, options)
    requires Enabled(options.parentStyles) && k in ParentStyle(env, id)
    requires !Enabled(options.self) || k !in env.graph[id].style
    ensures AuthoredStyle(env, id, options)[k] == ParentStyle(env, id)[k]
  {
  }

  // ---------------------------------------------------------------------------
  // The mixin resolver

  /**
   * `getStyleMixinMap` attributes a key the node does not own itself to the
   * first mixin, in sorted order, whose expansion has it; with `includeSelf`
   * the node's own keys come first.
   */
  lemma {:induction false} MixinMapFirstProviderWins(env: Env, node: PCNode, includeSelf: bool, k: string)
    requires GraphOk(env) && MixinsRanked(env, node)
    ensures var layers := MixinLayers(env, node.styleMixins, Rank(env, node.id));
      && (includeSelf && k in node.style ==> Get(MixinMap(env, node, includeSelf), k) == Some(node))
      && (!includeSelf || k !in node.style ==> Get(MixinMap(env, node, includeSelf), k) == FirstValue(layers, k))
  {
    var layers := MixinLayers(env, node.styleMixins, Rank(env, node.id));
    var seed := if includeSelf then SelfAttribution(node) else map[];
    DefaultsFoldFirstValue(seed, layers, k);
    assert ([seed] + layers)[1..] == layers;
  }

  /** A mixin id the graph does not hold (a deleted mixin) leaves no layer. */
  lemma {:induction false} MissingMixinLeavesNoLayer(env: Env, ids: seq<Id>, i: int, bound: nat)
    requires GraphOk(env)
    requires forall m :: m in ids && m in env.graph ==> Rank(env, m) < bound
    requires 0 <= i < |ids| && ids[i] !in env.graph
    ensures MixinLayers(env, ids, bound) == MixinLayers(env, ids[..i] + ids[i + 1..], bound)
    decreases i
  {
    if i == 0 {
      assert ids[..0] + ids[1..] == ids[1..];
    } else {
      var rest := ids[1..];
      MissingMixinLeavesNoLayer(env, rest, i - 1, bound);
      assert ids[..i] + ids[i + 1..] == [ids[0]] + (rest[..i - 1] + rest[i..]);
      assert ([ids[0]] + (rest[..i - 1] + rest[i..]))[1..] == rest[..i - 1] + rest[i..];
    }
  }

  /**
   * Dropping a dangling mixin id from a node does not change the top-level
   * mixin map `computeStyleInfo` asks for.
   */
  lemma MissingMixinIsInert(env: Env, node: PCNode, i: int)
    requires GraphOk(env) && MixinsRanked(env, node)
    requires 0 <= i < |node.styleMixins| && node.styleMixins[i] !in env.graph
    ensures var pruned := node.(styleMixins := node.styleMixins[..i] + node.styleMixins[i + 1..]);
      MixinsRanked(env, pruned) && MixinMap(env, node, false) == MixinMap(env, pruned, false)
  {
    var ids := node.styleMixins;
    var pruned := node.(styleMixins := ids[..i] + ids[i + 1..]);
    forall m | m in pruned.styleMixins ensures m in ids {
      var j :| 0 <= j < |pruned.styleMixins| && pruned.styleMixins[j] == m;
      if j < i { assert m == ids[j]; } else { assert m == ids[j + 1]; }
    }
    MissingMixinLeavesNoLayer(env, ids, i, Rank(env, node.id));
    assert MixinLayers(env, pruned.styleMixins, Rank(env, pruned.id)) == MixinLayers(env, ids, Rank(env, node.id));
  }

  /** At the top level (`includeSelf` false) no key is attributed to the node itself. */
  lemma TopLevelMixinMapExcludesSelf(env: Env, node: PCNode, k: string)
    requires GraphOk(env) && MixinsRanked(env, node)
    requires k in MixinMap(env, node, false)
    ensures MixinMap(env, node, false)[k].id != node.id
    ensures MixinMap(env, node, false)[k].id in env.graph
  {
  }

  // ---------------------------------------------------------------------------
  // Stage 4: ADD_STYLE_BLOCK overrides

  /** How many pairs of the list have key `k`. */
  function CountKey(pairs: seq<KeyValuePair>, k: string): nat
  {
    if pairs == [] then 0 else (if pairs[0].key == k then 1 else 0) + CountKey(pairs[1..], k)
  }

  /** `ov` is an ADD_STYLE_BLOCK override with a pair for key `k`. */
  predicate WritesKey(ov: PCOverride, k: string)
  {
    ov.kind == AddStyleBlock && CountKey(ov.value, k) > 0
  }

  /** The last override, in provider order, that writes key `k`. */
  function LastWriter(overrides: seq<PCOverride>, k: string): Option<PCOverride>
  {
    if overrides == [] then None
    else
      var later := LastWriter(overrides[1..], k);
      if later.Some? then later
      else if WritesKey(overrides[0], k) then Some(overrides[0])
      else None
  }

  /** `n` copies of `ov`. */
  function Repeat(ov: PCOverride, n: nat): (r: seq<PCOverride>)
    ensures |r| == n
  {
    if n == 0 then [] else [ov] + Repeat(ov, n - 1)
  }

  /** Each ADD_STYLE_BLOCK override once per pair with key `k`, in provider order. */
  function Trail(overrides: seq<PCOverride>, k: string): seq<PCOverride>
  {
    if overrides == [] then []
    else
      (if overrides[0].kind == AddStyleBlock then Repeat(overrides[0], CountKey(overrides[0].value, k)) else [])
      + Trail(overrides[1..], k)
  }

  /** One override's pairs write `k` if it has a pair for `k`. */
  lemma {:induction false} ApplyPairsStyle(env: Env, ov: PCOverride, pairs: seq<KeyValuePair>, st: OverrideState, k: string)
    ensures Get(ApplyPairs(env, ov, pairs, st).style, k)
         == (if CountKey(pairs, k) > 0 then Some(env.pairsIndex(ov.value, k)) else Get(st.style, k))
    decreases |pairs|
  {
    if pairs != [] {
      ApplyPairsStyle(env, ov, pairs[1..], AddOverrideKey(env, ov, pairs[0].key, st), k);
    }
  }

  /** One override's pairs append it to the provenance of `k` once per pair for `k`. */
  lemma {:induction false} ApplyPairsTrail(env: Env, ov: PCOverride, pairs: seq<KeyValuePair>, st: OverrideState, k: string)
    ensures var r := ApplyPairs(env, ov, pairs, st);
      && OverridesFor(r.overridesMap, k) == OverridesFor(st.overridesMap, k) + Repeat(ov, CountKey(pairs, k))
      && (k in r.overridesMap <==> k in st.overridesMap || CountKey(pairs, k) > 0)
    decreases |pairs|
  {
    if pairs != [] {
      var next := AddOverrideKey(env, ov, pairs[0].key, st);
      ApplyPairsTrail(env, ov, pairs[1..], next, k);
      if pairs[0].key == k {
        var n := CountKey(pairs[1..], k);
        assert OverridesFor(st.overridesMap, k) + [ov] + Repeat(ov, n) == OverridesFor(st.overridesMap, k) + Repeat(ov, n + 1);
      }
    }
  }

  /** The value of `k` after the override stage: the last writer's, or the value before. */
  lemma {:induction false} ApplyOverridesStyle(env: Env, overrides: seq<PCOverride>, st: OverrideState, k: string)
    ensures var w := LastWriter(overrides, k);
      Get(ApplyOverrides(env, overrides, st).style, k)
        == (if w.Some? then Some(env.pairsIndex(w.value.value, k)) else Get(st.style, k))
    decreases |overrides|
  {
    if overrides != [] {
      var ov := overrides[0];
      var next := if ov.kind == AddStyleBlock then ApplyPairs(env, ov, ov.value, st) else st;
      if ov.kind == AddStyleBlock {
        ApplyPairsStyle(env, ov, ov.value, st, k);
      }
      ApplyOverridesStyle(env, overrides[1..], next, k);
    }
  }

  /** The provenance of `k` after the override stage: the old list followed by the trail. */
  lemma {:induction false} ApplyOverridesTrail(env: Env, overrides: seq<PCOverride>, st: OverrideState, k: string)
    ensures var r := ApplyOverrides(env, overrides, st);
      && OverridesFor(r.overridesMap, k) == OverridesFor(st.overridesMap, k) + Trail(overrides, k)
      && (k in r.overridesMap <==> k in st.overridesMap || Trail(overrides, k) != [])
    decreases |overrides|
  {
    if overrides != [] {
      var ov := overrides[0];
      var next := if ov.kind == AddStyleBlock then ApplyPairs(env, ov, ov.value, st) else st;
      var mine := if ov.kind == AddStyleBlock then Repeat(ov, CountKey(ov.value, k)) else [];
      if ov.kind == AddStyleBlock {
        ApplyPairsTrail(env, ov, ov.value, st, k);
      }
      assert OverridesFor(next.overridesMap, k) == OverridesFor(st.overridesMap, k) + mine;
      ApplyOverridesTrail(env, overrides[1..], next, k);
      assert Trail(overrides, k) == mine + Trail(overrides[1..], k);
      assert OverridesFor(st.overridesMap, k) + mine + Trail(overrides[1..], k)
          == OverridesFor(st.overridesMap, k) + (mine + Trail(overrides[1..], k));
    }
  }

  /**
   * The override stage: the last override that writes a key decides its
   * value (`env.pairsIndex` stands for what line 120 reads); keys no override
   * writes keep their value; `styleOverridesMap[k]` gains every
   * ADD_STYLE_BLOCK override once per pair for `k`, in provider order, and no
   * other key gains an entry. Overrides of other types change nothing.
   */
  lemma ApplyOverridesEffect(env: Env, overrides: seq<PCOverride>, st: OverrideState, k: string)
    ensures var r := ApplyOverrides(env, overrides, st);
            var w := LastWriter(overrides, k);
      && Get(r.style, k) == (if w.Some? then Some(env.pairsIndex(w.value.value, k)) else Get(st.style, k))
      && OverridesFor(r.overridesMap, k) == OverridesFor(st.overridesMap, k) + Trail(overrides, k)
      && (k in r.overridesMap <==> k in st.overridesMap || Trail(overrides, k) != [])
  {
    ApplyOverridesStyle(env, overrides, st, k);
    ApplyOverridesTrail(env, overrides, st, k);
  }

  // ---------------------------------------------------------------------------
  // Stage 5: inheritance from inspector-tree ancestors
  //
  // The fold is first read as a fold over what each ancestor offers (`None`
  // or its inheritable style), so that the per-key reasoning sees only maps.

  /** What each ancestor offers, index for index. */
  function Contributions(env: Env, ancestors: seq<InspectorNode>, bound: nat): (offers: seq<Option<Style>>)
    requires WellFormed(env) && AncestorsBelow(env, ancestors, bound)
    ensures |offers| == |ancestors|
    ensures forall i :: 0 <= i < |ancestors| ==> offers[i] == InheritedContribution(env, ancestors[i], bound)
  {
    if ancestors == [] then []
    else [InheritedContribution(env, ancestors[0], bound)] + Contributions(env, ancestors[1..], bound)
  }

  /** A list of ancestors the inheritance fold may walk with `bound`. */
  ghost predicate AncestorsBelow(env: Env, ancestors: seq<InspectorNode>, bound: nat)
    requires WellFormed(env)
  {
    forall i :: 0 <= i < |ancestors| ==> AncestorOk(env, ancestors[i]) && Depth(env, ancestors[i].id) < bound
  }

  /** The inheritance loop over given offers: copy each offer into the keys still falsy. */
  function CopyFold(offers: seq<Option<Style>>, ancestors: seq<InspectorNode>, st: InheritState): InheritState
    requires |offers| == |ancestors|
    decreases |offers|
  {
    if offers == [] then st
    else CopyFold(offers[1..], ancestors[1..], if offers[0].Some? then CopyInherited(offers[0].value, ancestors[0], st) else st)
  }

  /** Offer `i` has key `k`. */
  predicate OffersKey(offers: seq<Option<Style>>, i: int, k: string)
  {
    0 <= i < |offers| && offers[i].Some? && k in offers[i].value
  }

  lemma {:induction false} InheritFoldIsCopyFold(env: Env, ancestors: seq<InspectorNode>, st: InheritState, bound: nat)
    requires WellFormed(env) && AncestorsBelow(env, ancestors, bound)
    ensures InheritFold(env, ancestors, st, bound) == CopyFold(Contributions(env, ancestors, bound), ancestors, st)
    decreases |ancestors|
  {
    if ancestors != [] {
      var c := InheritedContribution(env, ancestors[0], bound);
      assert AncestorsBelow(env, ancestors[1..], bound) by {
        forall i | 0 <= i < |ancestors[1..]| ensures ancestors[1..][i] == ancestors[i + 1] { }
      }
      InheritFoldIsCopyFold(env, ancestors[1..], if c.Some? then CopyInherited(c.value, ancestors[0], st) else st, bound);
      assert Contributions(env, ancestors, bound)[1..] == Contributions(env, ancestors[1..], bound);
    }
  }

  /** The fold never touches a truthy key, and never removes a key. */
  lemma {:induction false} CopyFoldKeepsTruthy(offers: seq<Option<Style>>, ancestors: seq<InspectorNode>, st: InheritState, k: string)
    requires |offers| == |ancestors|
    ensures var r := CopyFold(offers, ancestors, st);
      && (!Falsy(st.style, k) ==> Get(r.style, k) == Get(st.style, k) && Get(r.inheritanceMap, k) == Get(st.inheritanceMap, k))
      && (k in st.style ==> k in r.style)
    decreases |offers|
  {
    if offers != [] {
      CopyFoldKeepsTruthy(offers[1..], ancestors[1..], if offers[0].Some? then CopyInherited(offers[0].value, ancestors[0], st) else st, k);
    }
  }

  /** A key no offer has is left as it was. */
  lemma {:induction false} CopyFoldNoOffer(offers: seq<Option<Style>>, ancestors: seq<InspectorNode>, st: InheritState, k: string)
    requires |offers| == |ancestors|
    requires forall i :: !OffersKey(offers, i, k)
    ensures var r := CopyFold(offers, ancestors, st);
      Get(r.style, k) == Get(st.style, k) && Get(r.inheritanceMap, k) == Get(st.inheritanceMap, k)
    decreases |offers|
  {
    if offers != [] {
      assert !OffersKey(offers, 0, k);
      forall i ensures !OffersKey(offers[1..], i, k) {
        assert !OffersKey(offers, i + 1, k);
      }
      CopyFoldNoOffer(offers[1..], ancestors[1..], if offers[0].Some? then CopyInherited(offers[0].value, ancestors[0], st) else st, k);
    }
  }

  /**
   * A falsy key that some offer has ends up recorded: the inheritance map
   * names an ancestor whose offer has the key, and the style holds that
   * offer's value.
   */
  lemma {:induction false} CopyFoldRecordsProvider(offers: seq<Option<Style>>, ancestors: seq<InspectorNode>, st: InheritState, k: string)
    requires |offers| == |ancestors|
    requires Falsy(st.style, k)
    requires exists i :: OffersKey(offers, i, k)
    ensures var r := CopyFold(offers, ancestors, st);
      exists j :: OffersKey(offers, j, k)
        && Get(r.style, k) == Some(offers[j].value[k]) && Get(r.inheritanceMap, k) == Some(ancestors[j])
    decreases |offers|, 1
  {
    if OffersKey(offers, 0, k) && (offers[0].value[k] != "" || !exists i :: OffersKey(offers[1..], i, k)) {
      CopyFoldFirstDecides(offers, ancestors, st, k);
    } else {
      CopyFoldLaterDecides(offers, ancestors, st, k);
    }
  }

  /** Otherwise a later offer decides the key. */
  lemma {:induction false} CopyFoldLaterDecides(offers: seq<Option<Style>>, ancestors: seq<InspectorNode>, st: InheritState, k: string)
    requires |offers| == |ancestors| && Falsy(st.style, k) && exists i :: OffersKey(offers, i, k)
    requires !(OffersKey(offers, 0, k) && (offers[0].value[k] != "" || !exists i :: OffersKey(offers[1..], i, k)))
    ensures var r := CopyFold(offers, ancestors, st);
      exists j :: OffersKey(offers, j, k)
        && Get(r.style, k) == Some(offers[j].value[k]) && Get(r.inheritanceMap, k) == Some(ancestors[j])
    decreases |offers|, 0
  {
    var r := CopyFold(offers, ancestors, st);
    var next := if offers[0].Some? then CopyInherited(offers[0].value, ancestors[0], st) else st;
    assert r == CopyFold(offers[1..], ancestors[1..], next);
    assert Falsy(next.style, k);
    assert exists i :: OffersKey(offers[1..], i, k) by {
      var i :| OffersKey(offers, i, k);
      if i != 0 {
        assert OffersKey(offers[1..], i - 1, k);
      }
    }
    CopyFoldRecordsProvider(offers[1..], ancestors[1..], next, k);
    var j :| OffersKey(offers[1..], j, k)
      && Get(r.style, k) == Some(offers[1..][j].value[k]) && Get(r.inheritanceMap, k) == Some(ancestors[1..][j]);
    assert OffersKey(offers, j + 1, k);
  }

  /** The first offer of a falsy key decides it when its value is truthy or no later offer has the key. */
  lemma CopyFoldFirstDecides(offers: seq<Option<Style>>, ancestors: seq<InspectorNode>, st: InheritState, k: string)
    requires |offers| == |ancestors| && Falsy(st.style, k) && OffersKey(offers, 0, k)
    requires offers[0].value[k] != "" || !exists i :: OffersKey(offers[1..], i, k)
    ensures var r := CopyFold(offers, ancestors, st);
      Get(r.style, k) == Some(offers[0].value[k]) && Get(r.inheritanceMap, k) == Some(ancestors[0])
  {
    var next := CopyInherited(offers[0].value, ancestors[0], st);
    assert CopyFold(offers, ancestors, st) == CopyFold(offers[1..], ancestors[1..], next);
    if offers[0].value[k] != "" {
      CopyFoldKeepsTruthy(offers[1..], ancestors[1..], next, k);
    } else {
      CopyFoldNoOffer(offers[1..], ancestors[1..], next, k);
    }
  }

  /**
   * The nearest offer with a truthy value for a falsy key wins; nearer
   * offers of the key may only have had the empty value.
   */
  lemma {:induction false} CopyFoldNearestTruthyWins(
    offers: seq<Option<Style>>, ancestors: seq<InspectorNode>, st: InheritState, k: string, i: int)
    requires |offers| == |ancestors|
    requires Falsy(st.style, k)
    requires OffersKey(offers, i, k) && offers[i].value[k] != ""
    requires forall j :: 0 <= j < i && OffersKey(offers, j, k) ==> offers[j].value[k] == ""
    ensures var r := CopyFold(offers, ancestors, st);
      Get(r.style, k) == Some(offers[i].value[k]) && Get(r.inheritanceMap, k) == Some(ancestors[i])
    decreases i
  {
    var next := if offers[0].Some? then CopyInherited(offers[0].value, ancestors[0], st) else st;
    if i == 0 {
      CopyFoldKeepsTruthy(offers[1..], ancestors[1..], next, k);
    } else {
      forall j | 0 <= j < i - 1 && OffersKey(offers[1..], j, k) ensures offers[1..][j].value[k] == "" {
        assert OffersKey(offers, j + 1, k);
      }
      CopyFoldNearestTruthyWins(offers[1..], ancestors[1..], next, k, i - 1);
    }
  }

  /**
   * When every offer of a falsy key has only the empty value, each offering
   * ancestor rewrites the still-falsy key in turn, so the farthest one is
   * recorded.
   */
  lemma {:induction false} CopyFoldFarthestEmptyWins(
    offers: seq<Option<Style>>, ancestors: seq<InspectorNode>, st: InheritState, k: string, i: int)
    requires |offers| == |ancestors|
    requires Falsy(st.style, k)
    requires OffersKey(offers, i, k)
    requires forall j :: OffersKey(offers, j, k) ==> offers[j].value[k] == ""
    requires forall j :: i < j ==> !OffersKey(offers, j, k)
    ensures var r := CopyFold(offers, ancestors, st);
      Get(r.style, k) == Some("") && Get(r.inheritanceMap, k) == Some(ancestors[i])
    decreases i
  {
    var next := if offers[0].Some? then CopyInherited(offers[0].value, ancestors[0], st) else st;
    assert CopyFold(offers, ancestors, st) == CopyFold(offers[1..], ancestors[1..], next);
    if i == 0 {
      forall j | 0 <= j ensures !OffersKey(offers[1..], j, k) {
        assert !OffersKey(offers, j + 1, k);
      }
      CopyFoldNoOffer(offers[1..], ancestors[1..], next, k);
    } else {
      forall j | OffersKey(offers[1..], j, k) ensures offers[1..][j].value[k] == "" {
        assert OffersKey(offers, j + 1, k);
      }
      forall j | i - 1 < j ensures !OffersKey(offers[1..], j, k) {
        assert !OffersKey(offers, j + 1, k);
      }
      assert OffersKey(offers[1..], i - 1, k);
      CopyFoldFarthestEmptyWins(offers[1..], ancestors[1..], next, k, i - 1);
    }
  }

  // ---------------------------------------------------------------------------
  // The whole cascade

  /**
   * Ancestor `a` offers key `k` to its descendants: it is a source
   * representation of an element-like node, `k` is inheritable, and `a`'s
   * style computed with the default options has `k`.
   */
  ghost predicate Offers(env: Env, a: InspectorNode, k: string)
    requires WellFormed(env) && AncestorOk(env, a)
  {
    && a.name == SourceRep && env.graph[a.sourceNodeId].elementLike
    && k in env.inheritableNames && k in StyleInfo(env, a, DefaultComputeStyleOptions).style
  }

  /** The offers the fold sees are exactly what `Offers` describes. */
  lemma ContributionOffers(env: Env, ancestors: seq<InspectorNode>, bound: nat, i: int, k: string)
    requires WellFormed(env) && AncestorsBelow(env, ancestors, bound) && 0 <= i < |ancestors|
    ensures var offers := Contributions(env, ancestors, bound);
      && (OffersKey(offers, i, k) <==> Offers(env, ancestors[i], k))
      && (OffersKey(offers, i, k) ==> offers[i].value[k] == StyleInfo(env, ancestors[i], DefaultComputeStyleOptions).style[k])
  {
  }

  /** The inheritance stage of `StyleInfo` is the fold over the node's ancestors' offers. */
  lemma StyleInfoInherits(env: Env, node: InspectorNode, options: ComputeStyleOptions)
    requires WellFormed(env) && Resolvable(env, node, options)
    ensures var info := StyleInfo(env, node, options);
            var local := LocalStyleInfo(env, node, options);
            var ancestors := Ancestors(env, node.id);
            var bound := Depth(env, node.id);
      && (Enabled(options.inheritedStyles) ==>
            && AncestorsBelow(env, ancestors, bound)
            && InheritState(info.style, info.styleInheritanceMap)
              == CopyFold(Contributions(env, ancestors, bound), ancestors, InheritState(local.style, map[])))
      && (!Enabled(options.inheritedStyles) ==> info == local)
  {
    var local := LocalStyleInfo(env, node, options);
    if Enabled(options.inheritedStyles) {
      InheritFoldIsCopyFold(env, Ancestors(env, node.id), InheritState(local.style, map[]), Depth(env, node.id));
    }
  }

  /**
   * `styleInheritanceMap` has key `k` exactly when inheritance is on, `k` is
   * falsy after the override stage, and some ancestor offers `k`.
   */
  lemma InheritanceMapDomain(env: Env, node: InspectorNode, options: ComputeStyleOptions, k: string)
    requires WellFormed(env) && Resolvable(env, node, options)
    ensures var ancestors := Ancestors(env, node.id);
      k in StyleInfo(env, node, options).styleInheritanceMap <==>
        && Enabled(options.inheritedStyles)
        && Falsy(LocalStyleInfo(env, node, options).style, k)
        && exists i :: 0 <= i < |ancestors| && Offers(env, ancestors[i], k)
  {
    var info := StyleInfo(env, node, options);
    var local := LocalStyleInfo(env, node, options);
    var ancestors := Ancestors(env, node.id);
    var bound := Depth(env, node.id);
    var st := InheritState(local.style, map[]);
    StyleInfoInherits(env, node, options);
    if Enabled(options.inheritedStyles) {
      var offers := Contributions(env, ancestors, bound);
      CopyFoldKeepsTruthy(offers, ancestors, st, k);
      if exists i :: 0 <= i < |ancestors| && Offers(env, ancestors[i], k) {
        var i :| 0 <= i < |ancestors| && Offers(env, ancestors[i], k);
        ContributionOffers(env, ancestors, bound, i, k);
        if Falsy(local.style, k) {
          CopyFoldRecordsProvider(offers, ancestors, st, k);
        }
      } else {
        forall i ensures !OffersKey(offers, i, k) {
          if 0 <= i < |ancestors| { ContributionOffers(env, ancestors, bound, i, k); }
        }
        CopyFoldNoOffer(offers, ancestors, st, k);
      }
    }
  }

  /**
   * An inherited key is attributed to an ancestor that offers it, and its
   * value is that ancestor's value computed with the default options.
   */
  lemma InheritedFromOfferingAncestor(env: Env, node: InspectorNode, options: ComputeStyleOptions, k: string)
    requires WellFormed(env) && Resolvable(env, node, options)
    requires k in StyleInfo(env, node, options).styleInheritanceMap
    ensures var info := StyleInfo(env, node, options);
            var ancestors := Ancestors(env, node.id);
      exists i :: 0 <= i < |ancestors| && Offers(env, ancestors[i], k)
        && info.styleInheritanceMap[k] == ancestors[i]
        && k in info.style && info.style[k] == StyleInfo(env, ancestors[i], DefaultComputeStyleOptions).style[k]
  {
    var info := StyleInfo(env, node, options);
    var local := LocalStyleInfo(env, node, options);
    var ancestors := Ancestors(env, node.id);
    var bound := Depth(env, node.id);
    var offers := Contributions(env, ancestors, bound);
    InheritanceMapDomain(env, node, options, k);
    StyleInfoInherits(env, node, options);
    var i0 :| 0 <= i0 < |ancestors| && Offers(env, ancestors[i0], k);
    ContributionOffers(env, ancestors, bound, i0, k);
    CopyFoldRecordsProvider(offers, ancestors, InheritState(local.style, map[]), k);
    var j :| OffersKey(offers, j, k)
      && Get(info.style, k) == Some(offers[j].value[k]) && Get(info.styleInheritanceMap, k) == Some(ancestors[j]);
    ContributionOffers(env, ancestors, bound, j, k);
  }

  /**
   * A key the inheritance stage does not record keeps its value from the
   * override stage; in particular a truthy value is never replaced and a
   * key outside the inheritable names is never inherited. No key is lost.
   */
  lemma InheritanceOnlyFillsFalsy(env: Env, node: InspectorNode, options: ComputeStyleOptions, k: string)
    requires WellFormed(env) && Resolvable(env, node, options)
    ensures var info := StyleInfo(env, node, options);
            var local := LocalStyleInfo(env, node, options);
      && (k !in info.styleInheritanceMap ==> Get(info.style, k) == Get(local.style, k))
      && (!Falsy(local.style, k) ==> k !in info.styleInheritanceMap)
      && (k !in env.inheritableNames ==> k !in info.styleInheritanceMap)
      && (k in local.style ==> k in info.style)
  {
    var local := LocalStyleInfo(env, node, options);
    var ancestors := Ancestors(env, node.id);
    var bound := Depth(env, node.id);
    var st := InheritState(local.style, map[]);
    InheritanceMapDomain(env, node, options, k);
    StyleInfoInherits(env, node, options);
    if Enabled(options.inheritedStyles) {
      var offers := Contributions(env, ancestors, bound);
      CopyFoldKeepsTruthy(offers, ancestors, st, k);
      if !(Falsy(local.style, k) && exists i :: 0 <= i < |ancestors| && Offers(env, ancestors[i], k)) {
        if Falsy(local.style, k) {
          forall i ensures !OffersKey(offers, i, k) {
            if 0 <= i < |ancestors| { ContributionOffers(env, ancestors, bound, i, k); }
          }
          CopyFoldNoOffer(offers, ancestors, st, k);
        }
      }
    }
  }

  /**
   * `styleInheritanceMap[k]` is the nearest ancestor offering a truthy value
   * for a falsy `k` (nearer ones may only have offered the empty value), and
   * the style takes that ancestor's value.
   */
  lemma NearestTruthyAncestorWins(env: Env, node: InspectorNode, options: ComputeStyleOptions, k: string, i: int)
    requires WellFormed(env) && Resolvable(env, node, options)
    requires Enabled(options.inheritedStyles) && Falsy(LocalStyleInfo(env, node, options).style, k)
    requires 0 <= i < |Ancestors(env, node.id)| && Offers(env, Ancestors(env, node.id)[i], k)
    requires StyleInfo(env, Ancestors(env, node.id)[i], DefaultComputeStyleOptions).style[k] != ""
    requires forall j :: 0 <= j < i && Offers(env, Ancestors(env, node.id)[j], k) ==>
               StyleInfo(env, Ancestors(env, node.id)[j], DefaultComputeStyleOptions).style[k] == ""
    ensures var info := StyleInfo(env, node, options);
            var a := Ancestors(env, node.id)[i];
      && k in info.styleInheritanceMap && info.styleInheritanceMap[k] == a
      && k in info.style && info.style[k] == StyleInfo(env, a, DefaultComputeStyleOptions).style[k]
  {
    var local := LocalStyleInfo(env, node, options);
    var ancestors := Ancestors(env, node.id);
    var bound := Depth(env, node.id);
    var offers := Contributions(env, ancestors, bound);
    StyleInfoInherits(env, node, options);
    ContributionOffers(env, ancestors, bound, i, k);
    forall j | 0 <= j < i && OffersKey(offers, j, k) ensures offers[j].value[k] == "" {
      ContributionOffers(env, ancestors, bound, j, k);
    }
    CopyFoldNearestTruthyWins(offers, ancestors, InheritState(local.style, map[]), k, i);
  }

  /**
   * When every ancestor offering a falsy `k` offers only the empty value,
   * `styleInheritanceMap[k]` is the farthest of them and `k` stays empty.
   */
  lemma FarthestEmptyAncestorWins(env: Env, node: InspectorNode, options: ComputeStyleOptions, k: string, i: int)
    requires WellFormed(env) && Resolvable(env, node, options)
    requires Enabled(options.inheritedStyles) && Falsy(LocalStyleInfo(env, node, options).style, k)
    requires 0 <= i < |Ancestors(env, node.id)| && Offers(env, Ancestors(env, node.id)[i], k)
    requires forall j :: 0 <= j < |Ancestors(env, node.id)| && Offers(env, Ancestors(env, node.id)[j], k) ==>
               StyleInfo(env, Ancestors(env, node.id)[j], DefaultComputeStyleOptions).style[k] == ""
    requires forall j :: i < j < |Ancestors(env, node.id)| ==> !Offers(env, Ancestors(env, node.id)[j], k)
    ensures var info := StyleInfo(env, node, options);
      && k in info.styleInheritanceMap && info.styleInheritanceMap[k] == Ancestors(env, node.id)[i]
      && k in info.style && info.style[k] == ""
  {
    var local := LocalStyleInfo(env, node, options);
    var ancestors := Ancestors(env, node.id);
    var bound := Depth(env, node.id);
    var offers := Contributions(env, ancestors, bound);
    StyleInfoInherits(env, node, options);
    ContributionOffers(env, ancestors, bound, i, k);
    forall j | OffersKey(offers, j, k) ensures offers[j].value[k] == "" {
      ContributionOffers(env, ancestors, bound, j, k);
    }
    forall j | i < j ensures !OffersKey(offers, j, k) {
      if j < |ancestors| { ContributionOffers(env, ancestors, bound, j, k); }
    }
    CopyFoldFarthestEmptyWins(offers, ancestors, InheritState(local.style, map[]), k, i);
  }

  /**
   * After the override stage, the last ADD_STYLE_BLOCK override with a pair
   * for `k` decides `k` (with what line 120 reads, `env.pairsIndex`);
   * without one `k` keeps its authored value. `styleOverridesMap[k]` lists
   * every such override once per pair, in provider order.
   */
  lemma OverrideStage(env: Env, node: InspectorNode, options: ComputeStyleOptions, k: string)
    requires WellFormed(env) && Resolvable(env, node, options)
    ensures var info := StyleInfo(env, node, options);
            var local := LocalStyleInfo(env, node, options);
            var authored := AuthoredStyle(env, node.sourceNodeId, options);
            var overrides := OverridesOf(env, node.id);
      && (Enabled(options.overrides) ==>
            && Get(local.style, k) == (if LastWriter(overrides, k).Some?
                                       then Some(env.pairsIndex(LastWriter(overrides, k).value.value, k))
                                       else Get(authored, k))
            && OverridesFor(info.styleOverridesMap, k) == Trail(overrides, k)
            && (k in info.styleOverridesMap <==> Trail(overrides, k) != []))
      && (!Enabled(options.overrides) ==> local.style == authored && info.styleOverridesMap == map[])
  {
    StyleInfoInherits(env, node, options);
    if Enabled(options.overrides) {
      ApplyOverridesEffect(env, OverridesOf(env, node.id), OverrideState(AuthoredStyle(env, node.sourceNodeId, options), map[]), k);
    }
  }

  /**
   * Every key some override writes ends up in the style; when the value it
   * writes is truthy, the final style has exactly that value.
   */
  lemma OverriddenKeyKept(env: Env, node: InspectorNode, options: ComputeStyleOptions, k: string, ov: PCOverride)
    requires WellFormed(env) && Resolvable(env, node, options)
    requires Enabled(options.overrides) && LastWriter(OverridesOf(env, node.id), k) == Some(ov)
    ensures var info := StyleInfo(env, node, options);
      && k in info.style
      && (env.pairsIndex(ov.value, k) != "" ==> info.style[k] == env.pairsIndex(ov.value, k) && k !in info.styleInheritanceMap)
  {
    OverrideStage(env, node, options, k);
    InheritanceOnlyFillsFalsy(env, node, options, k);
  }

  /** Only an explicit `false` switches a stage off: flags alike in that sense give the same result. */
  lemma OnlyFalseSwitchesOff(env: Env, node: InspectorNode, o1: ComputeStyleOptions, o2: ComputeStyleOptions)
    requires WellFormed(env) && Resolvable(env, node, o1)
    requires Enabled(o1.styleMixins) == Enabled(o2.styleMixins)
    requires Enabled(o1.inheritedStyles) == Enabled(o2.inheritedStyles)
    requires Enabled(o1.overrides) == Enabled(o2.overrides)
    requires Enabled(o1.parentStyles) == Enabled(o2.parentStyles)
    requires Enabled(o1.self) == Enabled(o2.self)
    ensures StyleInfo(env, node, o1) == StyleInfo(env, node, o2)
  {
    assert SelfStyle(env, node.sourceNodeId, o1) == SelfStyle(env, node.sourceNodeId, o2);
    assert StyleMixinMapOf(env, node.sourceNodeId, o1) == StyleMixinMapOf(env, node.sourceNodeId, o2);
    assert LocalStyleInfo(env, node, o1) == LocalStyleInfo(env, node, o2);
  }

  /** Options with no flag set are the default options. */
  lemma AbsentOptionsAreDefaults(env: Env, node: InspectorNode)
    requires WellFormed(env) && Resolvable(env, node, DefaultComputeStyleOptions)
    ensures StyleInfo(env, node, ComputeStyleOptions(None, None, None, None, None))
         == StyleInfo(env, node, DefaultComputeStyleOptions)
  {
    OnlyFalseSwitchesOff(env, node, ComputeStyleOptions(None, None, None, None, None), DefaultComputeStyleOptions);
  }

  // ---------------------------------------------------------------------------
  // Text styles

  /**
   * `getTextStyles` sees only the node's own style and its overrides: its
   * result is the text-style part of the own style with the overrides
   * applied, and it has key `k` exactly when `k` is a text style name that
   * the node sets or an override writes.
   */
  lemma TextStylesFromSelfAndOverrides(env: Env, node: InspectorNode, k: string)
    requires WellFormed(env) && node.sourceNodeId in env.graph
    ensures var own := env.graph[node.sourceNodeId].style;
            var overrides := OverridesOf(env, node.id);
      && StyleResolver.GetTextStyles(env, node)
           == Pick(ApplyOverrides(env, overrides, OverrideState(own, map[])).style, env.textStyleNames)
      && (k in StyleResolver.GetTextStyles(env, node) <==>
            k in env.textStyleNames && (k in own || LastWriter(overrides, k).Some?))
  {
    var opts := StyleResolver.TextStyleOptions;
    var own := env.graph[node.sourceNodeId].style;
    assert map[] + own == own;
    assert AuthoredStyle(env, node.sourceNodeId, opts) == own;
    StyleInfoInherits(env, node, opts);
    ApplyOverridesEffect(env, OverridesOf(env, node.id), OverrideState(own, map[]), k);
  }

  /** `hasTextStyles` holds exactly when some text style name is set on the node or written by an override. */
  lemma HasTextStylesIff(env: Env, node: InspectorNode)
    requires WellFormed(env) && node.sourceNodeId in env.graph
    ensures StyleResolver.HasTextStyles(env, node) <==>
      exists k :: k in env.textStyleNames && (k in env.graph[node.sourceNodeId].style || LastWriter(OverridesOf(env, node.id), k).Some?)
  {
    var text := StyleResolver.GetTextStyles(env, node);
    if text != map[] {
      var k :| k in text;
      TextStylesFromSelfAndOverrides(env, node, k);
    } else {
      forall k | k in env.textStyleNames
        ensures !(k in env.graph[node.sourceNodeId].style || LastWriter(OverridesOf(env, node.id), k).Some?)
      {
        TextStylesFromSelfAndOverrides(env, node, k);
      }
    }
  }
}
