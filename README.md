# Paperclip style cascade and the mesh ChunkQueue, in Dafny

This project models two pieces of the Tandem / Paperclip code base and proves
what they promise.

**The style cascade** is `computeStyleInfo` in `packages/paperclip/src/style.ts`.
For an inspector-tree node it computes the effective style of the document node
the inspector node represents. It also records where each value came from.
The style is built in five stages, and an option can switch each stage off:

1. the `is` (extends) chain, applied with lodash `defaults`;
2. the node's own style, applied with `Object.assign`;
3. style mixins, flattened by `getStyleMixinMap` and applied with `defaults`;
4. `ADD_STYLE_BLOCK` overrides, which write each key and append provenance to `styleOverridesMap`;
5. inheritance from inspector-tree ancestors. Each ancestor's style is computed recursively with the default options. Only inheritable keys are copied, and only into keys that are still falsy.

The model has four layers:

- `PaperclipModel` holds the data: document nodes, inspector nodes, overrides, options, and the `Env` record of everything one resolution reads.
- `StyleSpec` gives each stage as a function.
- `StyleResolver` has the loops and recursion of the source as methods. Each method is proved equal to its `StyleSpec` function.
- `StyleProperties` proves what each stage and the whole cascade guarantee.

`StyleMaps` models lodash `defaults` and `pick`. It also proves the "first layer wins" reading of a sequence of `defaults` calls.

**ChunkQueue** is the class of that name in `src/@tandem/mesh/streams/duplex.ts`. It pairs pending readers with pending writes.

- `push` hands a value to the oldest waiting reader, or else queues it.
- `shift` takes the oldest queued write, or else queues a reader.
- `cancel` rejects every queued write.

Module `Duplex` models it as a class with two `seq` fields of opaque callback tokens and a ghost log of callback calls. Each method is proved equal to a pure step function on a `QueueState` value. The first-in-first-out behaviour is proved about runs of those step functions.

`StyleFindings` instantiates the override lookup of line 120 twice: as written and as evidently intended (see "## Findings").

Style values are strings. JavaScript `undefined` is represented by the empty string; both are falsy, and falsiness is the only test the code applies to them.

## Behaviour of the code worth knowing

- A value from the extends chain beats a mixin's value for the same key. The chain is applied first (line 90), and mixins only fill keys still missing (line 102). See `StyleProperties.ParentDefaultBeatsMixin`.
- An override does not write the pair's value. Line 120 writes `override.value[key]`, the pair array indexed by the property name (see "## Findings"). Stage 5 then refills such a falsy key only when it is inheritable and some element-like source-representation ancestor offers it; otherwise it stays empty. See `StyleProperties.InheritanceMapDomain` and `StyleProperties.OverriddenKeyKept`.
- There is no not-found result. The function always returns a record holding the source node (lines 160-166), and it reads that node when stage 1, 2 or 3 is on (lines 83, 96 and 100). It also dereferences every node on the extends chain (lines 84-88) and the source of each source-representation ancestor (lines 135-139). The model makes these links preconditions (`PaperclipModel.Resolvable`). It requires the source node whatever the options, although with stages 1 to 3 off the code would return an undefined `sourceNode` instead of failing.

## Model

| member | source | states |
|---|---|---|
| StyleMaps.Defaults | packages/paperclip/src/style.ts:90 | lodash `defaults`: the result has the keys of both maps, keeps every value already set, and fills only the missing keys from the source |
| StyleMaps.Pick | packages/paperclip/src/style.ts:140-143 | lodash `pick`: exactly the keys of the map that are in the name set, with their values |
| StyleMaps.DefaultsFoldFirstValue | packages/paperclip/src/style.ts:83-93 | a sequence of `defaults` calls answers each key with the first layer (accumulator first) that has it |
| StyleMaps.DefaultsFoldKeepsSet | packages/paperclip/src/style.ts:198 | a sequence of `defaults` calls never changes a key the accumulator already had |
| StyleMaps.DefaultsFoldFrom | packages/paperclip/src/style.ts:198 | every entry after a sequence of `defaults` calls comes from the accumulator or from some layer |
| StyleSpec.ExtendsChain | packages/paperclip/src/style.ts:83-93 | the nodes reached by following `is` links are graph nodes stored under their own id |
| PaperclipModel.Enabled | packages/paperclip/src/style.ts:82 | the `options.x !== false` test: a stage is on unless its flag is exactly `false`; `StyleProperties.OnlyFalseSwitchesOff` proves the result depends on nothing else |
| PaperclipModel.Falsy | packages/paperclip/src/style.ts:146 | the `!style[key]` test: the key is absent or holds the empty value |
| PaperclipModel.ChainResolves | packages/paperclip/src/style.ts:83-92 | every `is` link the stage 1 loop follows from the node names a graph node |
| PaperclipModel.Resolvable | packages/paperclip/src/style.ts:76-139 | what one call dereferences resolves: the source node, its extends chain when stage 1 is on, and each ancestor the stage 5 loop reads when it is on |
| StyleSpec.ParentStyle | packages/paperclip/src/style.ts:82-94 | stage 1 as `defaults` with each contributing chain node in turn; `StyleProperties.ParentStyleMostDerivedWins` states its law and `StyleResolver.ApplyParentStyles` computes it |
| StyleSpec.ParentLayers | packages/paperclip/src/style.ts:88-91 | one layer per chain node, holding that node's style only if it is a component or instance |
| StyleSpec.MixinMap | packages/paperclip/src/style.ts:178-202 | every key is attributed to a node whose own style has it; that node is the node itself (only with `includeSelf`) or a graph mixin of lower rank; with `includeSelf` every own key is attributed to the node |
| StyleSpec.MixinLayers | packages/paperclip/src/style.ts:189-200 | each expanded mixin layer attributes keys to graph nodes below the bound that hold them |
| StyleSpec.DefaultsFoldKeepsAttribution | packages/paperclip/src/style.ts:198 | folding such layers into an attributed map keeps every key attributed to a node that holds it |
| StyleSpec.MixinMapStyle | packages/paperclip/src/style.ts:170-176 | each key's value in the style of the node it is attributed to; `StyleResolver.StyleMixinMapToStyle` computes it |
| StyleSpec.SelfStyle | packages/paperclip/src/style.ts:82-98 | stages 1 and 2; `StyleProperties.OwnStyleOverwritesParents` states its law |
| StyleSpec.AuthoredStyle | packages/paperclip/src/style.ts:82-103 | stages 1 to 3; `StyleProperties.MixinsOnlyFillMissingKeys` and `StyleProperties.ParentDefaultBeatsMixin` state its laws |
| StyleSpec.ApplyPairs | packages/paperclip/src/style.ts:115-121 | the inner override loop; `StyleProperties.ApplyPairsStyle` and `StyleProperties.ApplyPairsTrail` state its laws |
| StyleSpec.ApplyOverrides | packages/paperclip/src/style.ts:113-123 | the outer override loop; `StyleProperties.ApplyOverridesEffect` states its laws |
| StyleSpec.LocalStyleInfo | packages/paperclip/src/style.ts:72-124 | the result after stages 1 to 4; `StyleProperties.OverrideStage` states its law |
| StyleSpec.InheritedContribution | packages/paperclip/src/style.ts:134-143 | what an ancestor offers; `StyleProperties.ContributionOffers` states it |
| StyleSpec.InheritFold | packages/paperclip/src/style.ts:133-157 | the `while (parent)` loop; `StyleProperties.InheritFoldIsCopyFold` and the `CopyFold` lemmas state its laws |
| StyleSpec.StyleInfo | packages/paperclip/src/style.ts:64-168 | the whole cascade; `StyleResolver.ComputeStyleInfo` computes it and the `StyleProperties` lemmas state its laws |
| StyleSpec.StyleMixinMapOf | packages/paperclip/src/style.ts:100-101 | the `styleMixinMap` of the result attributes every key to a node holding it, so `styleMixinMapToStyle` is defined |
| StyleSpec.AncestorsFrom | packages/paperclip/src/style.ts:129-157 | the walk up the inspector tree starts at the given parent, visits only resolvable nodes, and never goes deeper than its start |
| StyleSpec.Ancestors | packages/paperclip/src/style.ts:129-132 | every ancestor is strictly shallower than the node and its source resolves when it is a source representation |
| StyleSpec.CopyInherited | packages/paperclip/src/style.ts:145-150 | a key is written, with the ancestor recorded, exactly when the ancestor offers it and it is falsy; every other key keeps its value and provenance |
| StyleResolver.AttributeOwnKeys | packages/paperclip/src/style.ts:184-188 | the `includeSelf` loop attributes exactly the node's own keys to the node |
| StyleResolver.GetStyleMixinMap | packages/paperclip/src/style.ts:178-202 | the recursive loop over sorted mixin ids computes `StyleSpec.MixinMap` |
| StyleResolver.StyleMixinMapToStyle | packages/paperclip/src/style.ts:170-176 | the loop computes each key's value in the style of the node it is attributed to |
| StyleResolver.ApplyParentStyles | packages/paperclip/src/style.ts:82-94 | the `while (extendsComponent(current))` loop computes `StyleSpec.ParentStyle` |
| StyleResolver.ApplyOverridePairs | packages/paperclip/src/style.ts:115-121 | the loop over one override's pairs computes `StyleSpec.ApplyPairs` |
| StyleResolver.ApplyStyleOverrides | packages/paperclip/src/style.ts:105-124 | the loop over the overrides computes `StyleSpec.ApplyOverrides` and skips other override types |
| StyleResolver.CopyInheritedStyle | packages/paperclip/src/style.ts:145-150 | the `for (const key in inheritedStyle)` loop computes `StyleSpec.CopyInherited` |
| StyleResolver.InheritFromAncestors | packages/paperclip/src/style.ts:128-158 | the `while (parent)` loop, with its recursive default-option calls, computes `StyleSpec.InheritFold` over the node's ancestors |
| StyleResolver.ComputeStyleInfo | packages/paperclip/src/style.ts:64-168 | the whole resolver computes `StyleSpec.StyleInfo` for any options |
| StyleResolver.FilterTextStyles | packages/paperclip/src/style.ts:204-206 | lodash `pick` with the text style names: the keys are exactly the style's keys that are text style names, each with its style value |
| StyleResolver.GetTextStyles | packages/paperclip/src/style.ts:208-222 | the result has only text style names |
| StyleResolver.HasTextStyles | packages/paperclip/src/style.ts:223-232 | true exactly when `getTextStyles` is non-empty |
| StyleProperties.ParentStyleMostDerivedWins | packages/paperclip/src/style.ts:82-94 | along the extends chain the nearest component or instance with a key supplies its value; a key is set exactly when some contributing chain node has it |
| StyleProperties.OwnStyleOverwritesParents | packages/paperclip/src/style.ts:82-98 | every own key holds the node's own value after stage 2 and still after stage 3 |
| StyleProperties.MixinsOnlyFillMissingKeys | packages/paperclip/src/style.ts:100-103 | the mixin stage keeps every key already set, adds a missing key exactly when the mixin map has it, and gives it the attributed mixin's value |
| StyleProperties.ParentDefaultBeatsMixin | packages/paperclip/src/style.ts:82-103 | when the node does not set a key, the extends chain's value beats any mixin's |
| StyleProperties.MixinMapFirstProviderWins | packages/paperclip/src/style.ts:184-200 | with `includeSelf` the node's own keys win; every other key goes to the first mixin in sorted order whose expansion has it |
| StyleProperties.MissingMixinLeavesNoLayer | packages/paperclip/src/style.ts:192-197 | a mixin id the graph does not hold adds no layer |
| StyleProperties.MissingMixinIsInert | packages/paperclip/src/style.ts:191-197 | removing a dangling mixin id from a node leaves its top-level mixin map unchanged |
| StyleProperties.TopLevelMixinMapExcludesSelf | packages/paperclip/src/style.ts:101 | the top-level mixin map never attributes a key to the node itself, only to graph mixins |
| StyleProperties.ApplyPairsStyle | packages/paperclip/src/style.ts:115-121 | an override's pairs set `k` to the looked-up value exactly when some pair has key `k` |
| StyleProperties.ApplyPairsTrail | packages/paperclip/src/style.ts:115-119 | an override is appended to `styleOverridesMap[k]` once per pair for `k`, and creates the entry only then |
| StyleProperties.ApplyOverridesStyle | packages/paperclip/src/style.ts:113-123 | after the override stage the last `ADD_STYLE_BLOCK` override with a pair for `k` decides `k`; a key no such override writes is unchanged |
| StyleProperties.ApplyOverridesTrail | packages/paperclip/src/style.ts:113-123 | `styleOverridesMap[k]` gains every `ADD_STYLE_BLOCK` override once per pair for `k` in provider order; other override types add nothing |
| StyleProperties.ApplyOverridesEffect | packages/paperclip/src/style.ts:113-123 | the value and provenance laws of the override stage together |
| StyleProperties.Contributions | packages/paperclip/src/style.ts:134-143 | one offer per ancestor, index for index |
| StyleProperties.InheritFoldIsCopyFold | packages/paperclip/src/style.ts:133-157 | the ancestor loop is a fold of plain copies over what each ancestor offers |
| StyleProperties.CopyFoldKeepsTruthy | packages/paperclip/src/style.ts:146 | the inheritance stage never changes a truthy key or its provenance, and never removes a key |
| StyleProperties.CopyFoldNoOffer | packages/paperclip/src/style.ts:145-150 | a key no ancestor offers keeps its value and provenance |
| StyleProperties.CopyFoldRecordsProvider | packages/paperclip/src/style.ts:145-150 | a falsy key that some ancestor offers ends up attributed to an offering ancestor, with that ancestor's value |
| StyleProperties.CopyFoldFirstDecides | packages/paperclip/src/style.ts:145-150 | the nearest offer of a falsy key decides it when its value is truthy or no farther ancestor offers the key |
| StyleProperties.CopyFoldLaterDecides | packages/paperclip/src/style.ts:145-150 | a step of `CopyFoldRecordsProvider`: otherwise some farther offering ancestor decides it; which one is stated by `CopyFoldNearestTruthyWins` and `CopyFoldFarthestEmptyWins` |
| StyleProperties.CopyFoldNearestTruthyWins | packages/paperclip/src/style.ts:145-150 | the nearest ancestor offering a truthy value decides a falsy key; nearer ones may have offered only the empty value |
| StyleProperties.CopyFoldFarthestEmptyWins | packages/paperclip/src/style.ts:145-150 | when every offer of a falsy key has the empty value, the farthest offering ancestor is recorded and the key stays empty |
| StyleProperties.ContributionOffers | packages/paperclip/src/style.ts:134-143 | an ancestor offers `k` exactly when it is a source representation of an element-like node, `k` is inheritable, and its default-option style has `k` |
| StyleProperties.StyleInfoInherits | packages/paperclip/src/style.ts:126-158 | with inheritance on the result is the fold over the node's ancestors; with it off it is the result of stages 1 to 4 |
| StyleProperties.InheritanceMapDomain | packages/paperclip/src/style.ts:128-158 | `styleInheritanceMap` has `k` exactly when inheritance is on, `k` is falsy after stage 4, and some ancestor offers `k` |
| StyleProperties.InheritedFromOfferingAncestor | packages/paperclip/src/style.ts:134-149 | an inherited key is attributed to an offering ancestor, and its value is that ancestor's value computed with the default options |
| StyleProperties.InheritanceOnlyFillsFalsy | packages/paperclip/src/style.ts:140-150 | an unrecorded key keeps its stage-4 value; a truthy key or a non-inheritable key is never inherited; no key is lost |
| StyleProperties.NearestTruthyAncestorWins | packages/paperclip/src/style.ts:133-157 | a falsy key takes the value of the nearest ancestor offering a truthy value, and that ancestor is recorded |
| StyleProperties.FarthestEmptyAncestorWins | packages/paperclip/src/style.ts:133-157 | when every ancestor offering a falsy key offers the empty value, the farthest of them is recorded and the key stays empty |
| StyleProperties.OverrideStage | packages/paperclip/src/style.ts:105-124 | with overrides on, the last writer decides each key and `styleOverridesMap[k]` is the per-pair trail; with them off the style is the authored one and the map is empty |
| StyleProperties.OverriddenKeyKept | packages/paperclip/src/style.ts:113-150 | a key some override writes is in the final style; a truthy written value is final and is not inherited |
| StyleProperties.OnlyFalseSwitchesOff | packages/paperclip/src/style.ts:82-128 | the result depends only on which options are exactly `false` |
| StyleProperties.AbsentOptionsAreDefaults | packages/paperclip/src/style.ts:44-50 | options with no flag set give the same result as `DEFAULT_COMPUTE_STYLE_OPTIONS` (`PaperclipModel.DefaultComputeStyleOptions`, every flag `true`) |
| StyleProperties.TextStylesFromSelfAndOverrides | packages/paperclip/src/style.ts:208-222 | `getTextStyles` is the text-style part of the node's own style with its overrides applied; a key is in it exactly when it is a text style name the node sets or an override writes |
| StyleProperties.HasTextStylesIff | packages/paperclip/src/style.ts:223-232 | `hasTextStyles` holds exactly when some text style name is set on the node or written by an override |
| StyleFindings.AsWrittenLookup | packages/paperclip/src/style.ts:120 | indexing the pair array by a name gives a truthy value exactly when the array answers it: a non-zero `length`, an index in range, or an `Array.prototype` member (such as `filter` and `fill`); any other name gives `undefined`. A name a plain object also answers through `Object.prototype` never reaches line 120, since lines 116-119 fail first |
| StyleFindings.LastPairValue | packages/paperclip/src/style.ts:115-120 | the value of the last pair with the key, which is what writing each pair's `value` leaves behind |
| StyleFindings.AsWrittenOverrideErasesValue | packages/paperclip/src/style.ts:120 | as written, every property the pair array does not answer is empty after stage 4; this covers every CSS property except `fill` and `filter` |
| StyleFindings.AsWrittenArrayMemberKept | packages/paperclip/src/style.ts:120 | as written, a property the pair array answers and a plain object does not (line 116) ends with the array's member, not the override's value, and inheritance keeps it |
| StyleFindings.CorrectedOverrideWins | packages/paperclip/src/style.ts:115-120 | corrected, the last pair for `k` of the last override writing `k` decides `k` after stage 4 |
| StyleFindings.LastWriterWrites | packages/paperclip/src/style.ts:114-115 | the deciding override is an `ADD_STYLE_BLOCK` override with a pair for the key |
| StyleFindings.AsWrittenScenario | packages/paperclip/src/style.ts:120 | as written, `color: red` overridden by `color: blue` computes to an empty colour |
| StyleFindings.AsWrittenFilterScenario | packages/paperclip/src/style.ts:120 | as written, `filter: none` overridden by `filter: blur(2px)` computes to `Array.prototype.filter` |
| StyleFindings.CorrectedScenario | packages/paperclip/src/style.ts:115-120 | corrected, the same node computes to `blue` |
| Duplex.PushStep | src/@tandem/mesh/streams/duplex.ts:19-29 | with a waiting reader: the oldest reader gets the value and leaves, writes unchanged, resolved promise; otherwise the write is appended, size grows by one, promise pending; never both queues non-empty |
| Duplex.ShiftStep | src/@tandem/mesh/streams/duplex.ts:35-44 | with pending writes: the oldest leaves, its writer is resolved, its value is returned; otherwise the reader is appended; never both queues non-empty |
| Duplex.Rejections | src/@tandem/mesh/streams/duplex.ts:49-51 | one rejection per pending write, in queue order |
| Duplex.CancelStep | src/@tandem/mesh/streams/duplex.ts:46-52 | writes become empty, readers are untouched, and each previously pending writer is rejected once in queue order |
| Duplex.PushAll | src/@tandem/mesh/streams/duplex.ts:19-29 | a run of pushes as successive `PushStep`s; `Duplex.PushAllQueues` and `Duplex.PushAllFeedsReaders` state its laws |
| Duplex.ShiftAll | src/@tandem/mesh/streams/duplex.ts:35-44 | a run of shifts as successive `ShiftStep`s; `Duplex.ShiftAllTakesOldest` and `Duplex.ShiftAllWaits` state its laws |
| Duplex.PushAllQueues | src/@tandem/mesh/streams/duplex.ts:26-28 | with no reader waiting, a run of pushes appends to the writes in order and calls nothing |
| Duplex.PushAllFeedsReaders | src/@tandem/mesh/streams/duplex.ts:21-24 | with no write pending, a run of pushes feeds the waiting readers oldest first |
| Duplex.ShiftAllTakesOldest | src/@tandem/mesh/streams/duplex.ts:36-39 | a run of shifts takes the oldest writes, yields their values and resolves their writers in queue order |
| Duplex.ShiftAllWaits | src/@tandem/mesh/streams/duplex.ts:41-43 | with no write pending, a run of shifts queues its readers in order and yields nothing yet |
| Duplex.FifoRoundTrip | src/@tandem/mesh/streams/duplex.ts:19-44 | pushing writes and then shifting once per pending write yields all their values first in, first out, and empties the queue |
| Duplex.ReadersServedInOrder | src/@tandem/mesh/streams/duplex.ts:19-44 | readers that shift on an empty queue get the values of later pushes in the order they asked |
| Duplex.RejectionsAppend | src/@tandem/mesh/streams/duplex.ts:49-51 | rejecting one more write appends one rejection |
| Duplex.ChunkQueue.constructor | src/@tandem/mesh/streams/duplex.ts:16-17 | a new queue has no readers, no writes and no calls |
| Duplex.ChunkQueue.Push | src/@tandem/mesh/streams/duplex.ts:19-29 | the new state, the returned promise and the calls made are those of `PushStep`; the invariant is kept |
| Duplex.ChunkQueue.Size | src/@tandem/mesh/streams/duplex.ts:31-33 | `size` is the number of pending writes, and a non-zero size means no reader waits |
| Duplex.ChunkQueue.Shift | src/@tandem/mesh/streams/duplex.ts:35-44 | the new state, the returned promise and the calls made are those of `ShiftStep`; the invariant is kept |
| Duplex.ChunkQueue.Cancel | src/@tandem/mesh/streams/duplex.ts:46-52 | the loop over the copied writes leaves the state and the calls of `CancelStep`; the invariant is kept |

## Left out

- `memoize` is not modelled. It is semantically transparent, so every call is a fresh computation.
- `keyValuePairToHash` (line 97) is the identity on a style map.
- The helpers in `dsl`, `inspector` and `tandem-common` are not part of this model: `getPCNode`, `extendsComponent`, `isPCComponentOrInstance`, `isElementLikePCNode`, `getSortedStyleMixinIds`, `getParentTreeNode`, `getInspectorNodeOverrides`, `INHERITABLE_STYLE_NAMES` and `TEXT_STYLE_NAMES`. What they answer is stored as data in `PCNode` and `Env`, and every lemma holds for any answers.
  - Where the `root` and `variant` arguments matter (overrides and the tree walk), they are fixed inside `Env`.
- The sorting done by `getSortedStyleMixinIds` is not modelled. `PCNode.styleMixins` is taken to be already in that order.
- An absent `style` or `styleMixins` on a node (the guards at lines 96, 100 and 189) is the empty map or the empty list. This gives the same result.
- Cycles in `is` links, in mixin links or in the inspector tree are excluded for the whole graph and tree. `GraphOk` and `TreeOk` ask for a rank and a depth that decrease along every link that resolves. The code has no cycle guard. On an `is` cycle the `while` loop at lines 83-93 runs forever. On a mixin cycle `getStyleMixinMap` recurses (line 198) until the stack overflows. On an inspector-tree cycle the `while (parent)` loop at lines 133-157 runs forever, or, when the cycle passes an ancestor that offers styles, the recursive call at line 141 overflows the stack.
- PaperclipModel.Resolvable: a missing source node, a dangling `is` link on the walked chain, and a source-representation ancestor with a missing source are preconditions, since the code dereferences them. Links the call does not walk may dangle.
- The `| null` in the result type of `computeStyleInfo` is never produced, so the model has no such case.
- StyleSpec.ApplyPairs: the value line 120 writes is an uninterpreted lookup (`env.pairsIndex`). The main model does not fix it; `StyleFindings` instantiates it.
- StyleSpec.ApplyPairs: an override key that a plain object answers through `Object.prototype` (`constructor`, `toString`, `valueOf`, `hasOwnProperty`, `__proto__` and the rest of `StyleFindings.IsPlainObjectMember`) makes `computeStyleInfo` throw a TypeError. Line 116 finds the inherited member truthy, so no trail entry is created, and line 119 calls `push` on it. The model records the override and writes the key instead. No CSS property has such a name.
- StyleMaps.Defaults: a key present with any value counts as set. lodash also refills an own key holding `undefined`. Stages 1 to 3 only see authored string values, so this does not arise. (A key only inherited from `Object.prototype` counts as missing in lodash and is filled, as the model fills an absent key.)
- `undefined` and the empty string are the same value (""). The model cannot tell a key holding "" from one holding `undefined`.
- StyleFindings.AsWrittenLookup: where the pair array answers with a number, a pair object or a function, the model gives a truthy placeholder string, not that value. The member names are those of an ECMAScript 2023 runtime. Older runtimes lack `at`, `findLast`, `findLastIndex`, `toReversed`, `toSorted`, `toSpliced` and `with`; for these names such a runtime gives `undefined`.
- ChunkQueue promises are not modelled. Resolve and reject functions are opaque tokens passed in by the caller. The returned promise is an outcome value (resolved or pending). Asynchronous settlement is not modelled; each call of a resolve or reject function is an entry in the ghost log.
- Duplex.ChunkQueue.Push, Duplex.ChunkQueue.Shift, Duplex.ChunkQueue.Cancel each require `Valid()`, the class invariant "never both readers and writes". The constructor establishes it and every method keeps it; the source states no such requirement.
- The rest of `duplex.ts` (`ReadableWritableStream`, `DuplexStream`, `wrapDuplexStream`) is not modelled. It is WHATWG-stream and Promise plumbing around external stream classes.
- The UI components, the dependency-injection and bus wiring, and the commented-out test file of the repository are not modelled.

## Findings

| source | as written | input that shows it | evidently intended | confidence | as-written member | corrected member |
|---|---|---|---|---|---|---|
| packages/paperclip/src/style.ts:120 | each pair writes the pair array indexed by its property name; this is `undefined` for every CSS property except `fill` and `filter`, which give `Array.prototype` functions | a node styled `color: red` with one `ADD_STYLE_BLOCK` override holding the pair `color: blue`, and no ancestors: the computed colour is empty | each pair writes its own destructured value, so the computed colour is `blue` | high, not executed | StyleFindings.AsWrittenScenario | StyleFindings.CorrectedScenario |

Every lemma of `StyleProperties` is stated for an arbitrary lookup `env.pairsIndex`. Each one therefore holds for the corrected lookup `StyleFindings.LastPairValue`. Under it, `StyleFindings.CorrectedOverrideWins` proves that the override's own value decides the key. `StyleFindings.AsWrittenOverrideErasesValue` proves the as-written effect for every node, every override and every key the pair array does not answer; `StyleFindings.AsWrittenArrayMemberKept` covers the keys it does answer and a plain object does not.
