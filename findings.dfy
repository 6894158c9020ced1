/**
 * Line 120 of `packages/paperclip/src/style.ts` writes `override.value[key]`:
 * it indexes the array of key/value pairs by the property name instead of
 * writing the pair's destructured `value`. The cascade in StyleSpec is stated
 * for any lookup `env.pairsIndex`; this module instantiates it with the
 * lookup as written and with the evidently intended one.
 */
module StyleFindings {
  import opened Wrappers
  import opened StyleMaps
  import opened PaperclipModel
  import opened StyleSpec
  import opened StyleProperties

  /**
   * The string-named members of `Array.prototype` in an ECMAScript 2023
   * runtime, other than `length`. Each is a function or an object, so it is
   * truthy; `fill` and `filter` are CSS property names as well.
   */
  const ArrayPrototypeNames: set<string> := {
    "at", "concat", "constructor", "copyWithin", "entries", "every", "fill", "filter",
    "find", "findIndex", "findLast", "findLastIndex", "flat", "flatMap", "forEach",
    "includes", "indexOf", "join", "keys", "lastIndexOf", "map", "pop", "push",
    "reduce", "reduceRight", "reverse", "shift", "slice", "some", "sort", "splice",
    "toLocaleString", "toReversed", "toSorted", "toSpliced", "toString", "unshift",
    "values", "with"}

  /** The further string-named members an array inherits from `Object.prototype`. */
  const ObjectPrototypeNames: set<string> := {
    "__defineGetter__", "__defineSetter__", "__lookupGetter__", "__lookupSetter__",
    "__proto__", "hasOwnProperty", "isPrototypeOf", "propertyIsEnumerable", "valueOf"}

  /**
   * The names a plain object such as `styleOverridesMap` answers truthily
   * through `Object.prototype`. For a pair with such a key the trail entry is
   * never created, and appending to it fails before the style is written.
   */
  predicate IsPlainObjectMember(key: string)
  {
    key in ObjectPrototypeNames || key in {"constructor", "toLocaleString", "toString"}
  }

  /** A canonical decimal array index: digits, with no leading zero except "0" itself. */
  predicate IsCanonicalIndex(key: string)
  {
    && key != ""
    && (forall i :: 0 <= i < |key| ==> '0' <= key[i] <= '9')
    && (key[0] == '0' ==> key == "0")
  }

  /** The number a string of decimal digits denotes. */
  function DecimalValue(digits: string): nat
    requires forall i :: 0 <= i < |digits| ==> '0' <= digits[i] <= '9'
  {
    if digits == [] then 0
    else DecimalValue(digits[..|digits| - 1]) * 10 + (digits[|digits| - 1] - '0') as int
  }

  /**
   * The array of pairs answers `key` with a truthy value: a non-zero
   * `length`, a pair object at an index in range, or an inherited member.
   */
  predicate TruthyArrayProperty(pairs: seq<KeyValuePair>, key: string)
  {
    || (key == "length" && |pairs| > 0)
    || (IsCanonicalIndex(key) && DecimalValue(key) < |pairs|)
    || key in ArrayPrototypeNames
    || key in ObjectPrototypeNames
  }

  /**
   * `override.value[key]` as written. Where the array answers `key` with a
   * truthy number, pair object or function, the result is a truthy
   * placeholder standing for it. Every other name, including an index past
   * the end, is `undefined` (""); so are most CSS property names.
   */
  function AsWrittenLookup(pairs: seq<KeyValuePair>, key: string): (r: string)
    ensures r == "" <==> !TruthyArrayProperty(pairs, key)
  {
    if TruthyArrayProperty(pairs, key) then ArrayMemberValue else ""
  }

  /** The placeholder for a truthy non-string value the pair array yields. */
  const ArrayMemberValue := "[array member]"

  /** The value of the last pair with key `key`, "" when there is none. */
  function LastPairValue(pairs: seq<KeyValuePair>, key: string): (r: string)
    ensures CountKey(pairs, key) > 0 ==>
      exists i :: 0 <= i < |pairs| && pairs[i].key == key && r == pairs[i].value
        && forall j :: i < j < |pairs| ==> pairs[j].key != key
    decreases |pairs|
  {
    if pairs == [] then ""
    else if CountKey(pairs[1..], key) > 0 then
      var r := LastPairValue(pairs[1..], key);
      var i :| 0 <= i < |pairs[1..]| && pairs[1..][i].key == key && r == pairs[1..][i].value
        && forall j :: i < j < |pairs[1..]| ==> pairs[1..][j].key != key;
      assert forall j :: i + 1 < j < |pairs| ==> pairs[j] == pairs[1..][j - 1];
      r
    else if pairs[0].key == key then
      assert forall j :: 0 < j < |pairs| ==> pairs[j].key != key by {
        NoKeyInTail(pairs[1..], key);
      }
      pairs[0].value
    else ""
  }

  /** A pair list with no pair for `key`. */
  lemma {:induction false} NoKeyInTail(pairs: seq<KeyValuePair>, key: string)
    requires CountKey(pairs, key) == 0
    ensures forall j :: 0 <= j < |pairs| ==> pairs[j].key != key
    decreases |pairs|
  {
    if pairs != [] {
      NoKeyInTail(pairs[1..], key);
      assert forall j :: 1 <= j < |pairs| ==> pairs[j] == pairs[1..][j - 1];
    }
  }

  /**
   * As written: a property the pair array does not answer (every CSS
   * property name except `fill` and `filter`) ends the override stage with
   * the empty value, whatever the override or the node said; the
   * inheritance stage may then refill it from an ancestor.
   */
  lemma AsWrittenOverrideErasesValue(env: Env, node: InspectorNode, options: ComputeStyleOptions, k: string, ov: PCOverride)
    requires WellFormed(env) && Resolvable(env, node, options) && env.pairsIndex == AsWrittenLookup
    requires Enabled(options.overrides) && LastWriter(OverridesOf(env, node.id), k) == Some(ov)
    requires !TruthyArrayProperty(ov.value, k)
    ensures Get(LocalStyleInfo(env, node, options).style, k) == Some("")
  {
    OverrideStage(env, node, options, k);
  }

  /**
   * As written: a property the pair array does answer (such as `filter` or
   * `fill`) ends with the array's member in place of the override's value,
   * and as it is truthy the inheritance stage keeps it. A key a plain object
   * also answers never gets this far, as the trail update fails first.
   */
  lemma AsWrittenArrayMemberKept(env: Env, node: InspectorNode, options: ComputeStyleOptions, k: string, ov: PCOverride)
    requires WellFormed(env) && Resolvable(env, node, options) && env.pairsIndex == AsWrittenLookup
    requires Enabled(options.overrides) && LastWriter(OverridesOf(env, node.id), k) == Some(ov)
    requires TruthyArrayProperty(ov.value, k) && !IsPlainObjectMember(k)
    ensures var info := StyleInfo(env, node, options);
      k in info.style && info.style[k] == ArrayMemberValue && k !in info.styleInheritanceMap
  {
    OverriddenKeyKept(env, node, options, k, ov);
  }

  /**
   * Corrected: with the pair's own value, the last pair for `k` of the last
   * override that writes `k` decides `k` after the override stage.
   */
  lemma CorrectedOverrideWins(env: Env, node: InspectorNode, options: ComputeStyleOptions, k: string, ov: PCOverride)
    requires WellFormed(env) && Resolvable(env, node, options) && env.pairsIndex == LastPairValue
    requires Enabled(options.overrides) && LastWriter(OverridesOf(env, node.id), k) == Some(ov)
    ensures exists i :: (0 <= i < |ov.value| && ov.value[i].key == k
      && Get(LocalStyleInfo(env, node, options).style, k) == Some(ov.value[i].value)
      && forall j :: i < j < |ov.value| ==> ov.value[j].key != k)
  {
    OverrideStage(env, node, options, k);
    LastWriterWrites(OverridesOf(env, node.id), k);
  }

  /** The last writer has a pair for the key. */
  lemma {:induction false} LastWriterWrites(overrides: seq<PCOverride>, k: string)
    requires LastWriter(overrides, k).Some?
    ensures WritesKey(LastWriter(overrides, k).value, k)
    decreases |overrides|
  {
    if LastWriter(overrides[1..], k).Some? {
      LastWriterWrites(overrides[1..], k);
    }
  }

  /**
   * A node whose own style sets `prop` to `authored` and whose only override
   * sets `prop` to `written`, with no ancestors; `prop` is both inheritable
   * and a text style.
   */
  function Scenario(pairsIndex: (seq<KeyValuePair>, string) -> string, prop: string, authored: string, written: string): Env
  {
    Env(
      map["n" := PCNode("n", map[prop := authored], [], None, false, true)],
      map[], map[], map[],
      map["i" := [PCOverride("o", AddStyleBlock, [KeyValuePair(prop, written)])]],
      {prop}, {prop}, pairsIndex)
  }

  const ScenarioNode := InspectorNode("i", SourceRep, "n")

  /** As written, a `color: blue` override of `color: red` leaves `color` undefined. */
  lemma AsWrittenScenario()
    ensures var env := Scenario(AsWrittenLookup, "color", "red", "blue");
      && WellFormed(env) && Resolvable(env, ScenarioNode, DefaultComputeStyleOptions)
      && Get(StyleInfo(env, ScenarioNode, DefaultComputeStyleOptions).style, "color") == Some("")
  {
    var env := Scenario(AsWrittenLookup, "color", "red", "blue");
    var ov := PCOverride("o", AddStyleBlock, [KeyValuePair("color", "blue")]);
    assert !IsCanonicalIndex("color") by { assert !('0' <= "color"[0] <= '9'); }
    assert "color" !in ArrayPrototypeNames;
    assert "color" !in ObjectPrototypeNames;
    assert !TruthyArrayProperty(ov.value, "color");
    assert LastWriter(OverridesOf(env, "i"), "color") == Some(ov);
    AsWrittenOverrideErasesValue(env, ScenarioNode, DefaultComputeStyleOptions, "color", ov);
    assert Ancestors(env, "i") == [];
    InheritanceMapDomain(env, ScenarioNode, DefaultComputeStyleOptions, "color");
    InheritanceOnlyFillsFalsy(env, ScenarioNode, DefaultComputeStyleOptions, "color");
  }

  /** As written, a `filter: blur(2px)` override computes to `Array.prototype.filter`, not the blur. */
  lemma AsWrittenFilterScenario()
    ensures var env := Scenario(AsWrittenLookup, "filter", "none", "blur(2px)");
      && WellFormed(env) && Resolvable(env, ScenarioNode, DefaultComputeStyleOptions)
      && Get(StyleInfo(env, ScenarioNode, DefaultComputeStyleOptions).style, "filter") == Some(ArrayMemberValue)
  {
    var env := Scenario(AsWrittenLookup, "filter", "none", "blur(2px)");
    var ov := PCOverride("o", AddStyleBlock, [KeyValuePair("filter", "blur(2px)")]);
    assert LastWriter(OverridesOf(env, "i"), "filter") == Some(ov);
    AsWrittenArrayMemberKept(env, ScenarioNode, DefaultComputeStyleOptions, "filter", ov);
  }

  /** Corrected, the override's `blue` is the computed colour. */
  lemma CorrectedScenario()
    ensures var env := Scenario(LastPairValue, "color", "red", "blue");
      && WellFormed(env) && Resolvable(env, ScenarioNode, DefaultComputeStyleOptions)
      && Get(StyleInfo(env, ScenarioNode, DefaultComputeStyleOptions).style, "color") == Some("blue")
  {
    var env := Scenario(LastPairValue, "color", "red", "blue");
    var ov := PCOverride("o", AddStyleBlock, [KeyValuePair("color", "blue")]);
    assert LastWriter(OverridesOf(env, "i"), "color") == Some(ov);
    assert LastPairValue(ov.value, "color") == "blue";
    OverriddenKeyKept(env, ScenarioNode, DefaultComputeStyleOptions, "color", ov);
  }
}
