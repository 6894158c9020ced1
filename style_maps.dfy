/**
 * Plain map operations standing in for the lodash helpers `defaults` and
 * `pick` that the style cascade uses, and the "first layer wins" reading of a
 * sequence of `defaults` calls.
 */
module StyleMaps {
  import opened Wrappers

  /** Looking a key up in a map, `None` when it is absent. */
  function Get<V>(m: map<string, V>, k: string): Option<V>
  {
    if k in m then Some(m[k]) else None
  }

  /**
   * lodash `defaults(acc, src)`: every key of `src` that `acc` lacks is
   * copied in; a key `acc` already has is never touched.
   */
  function Defaults<V>(acc: map<string, V>, src: map<string, V>): (r: map<string, V>)
    ensures r.Keys == acc.Keys + src.Keys
    ensures forall k :: k in acc ==> r[k] == acc[k]
    ensures forall k :: k in src && k !in acc ==> r[k] == src[k]
  {
    src + acc
  }

  /** lodash `pick(m, names)`: the entries of `m` whose key is in `names`. */
  function Pick<V>(m: map<string, V>, names: set<string>): (r: map<string, V>)
    ensures r.Keys == m.Keys * names
    ensures forall k :: k in r ==> r[k] == m[k]
  {
    map k | k in m && k in names :: m[k]
  }

  /** `defaults(acc, layers[0]); defaults(acc, layers[1]); ...` in that order. */
  function DefaultsFold<V>(acc: map<string, V>, layers: seq<map<string, V>>): map<string, V>
    decreases |layers|
  {
    if layers == [] then acc else DefaultsFold(Defaults(acc, layers[0]), layers[1..])
  }

  /** The value of `k` in the first layer that has `k` at all. */
  function FirstValue<V>(layers: seq<map<string, V>>, k: string): Option<V>
  {
    if layers == [] then None
    else if k in layers[0] then Some(layers[0][k])
    else FirstValue(layers[1..], k)
  }

  /** Layer `i` is the first one that has key `k`. */
  ghost predicate FirstWith<V>(layers: seq<map<string, V>>, k: string, i: int)
  {
    0 <= i < |layers| && k in layers[i] && forall j :: 0 <= j < i ==> k !in layers[j]
  }

  /** A fold of `defaults` answers every key with the first layer that has it. */
  lemma {:induction false} DefaultsFoldFirstValue<V>(acc: map<string, V>, layers: seq<map<string, V>>, k: string)
    ensures Get(DefaultsFold(acc, layers), k) == FirstValue([acc] + layers, k)
    decreases |layers|
  {
    if layers == [] {
      assert ([acc] + layers)[1..] == [];
    } else {
      var next := Defaults(acc, layers[0]);
      DefaultsFoldFirstValue(next, layers[1..], k);
      assert ([next] + layers[1..])[1..] == layers[1..];
      assert ([acc] + layers)[1..] == layers;
      if k !in acc && k !in layers[0] {
        assert ([acc] + layers)[1..][1..] == layers[1..];
      }
    }
  }

  /** `FirstValue` is the value of the first layer holding the key. */
  lemma {:induction false} FirstValueAt<V>(layers: seq<map<string, V>>, k: string, i: int)
    requires FirstWith(layers, k, i)
    ensures FirstValue(layers, k) == Some(layers[i][k])
  {
    if i > 0 {
      assert k !in layers[0];
      FirstValueAt(layers[1..], k, i - 1);
    }
  }

  /** `FirstValue` finds nothing exactly when no layer holds the key. */
  lemma {:induction false} FirstValueNone<V>(layers: seq<map<string, V>>, k: string)
    ensures FirstValue(layers, k) == None <==> forall i :: 0 <= i < |layers| ==> k !in layers[i]
  {
    if layers != [] {
      FirstValueNone(layers[1..], k);
      if k !in layers[0] {
        forall i | 0 <= i < |layers| && k in layers[i] ensures 1 <= i && k in layers[1..][i - 1] { }
      }
    }
  }

  /** What `FirstValue` finds is the value of some layer. */
  lemma {:induction false} FirstValueFrom<V>(layers: seq<map<string, V>>, k: string)
    requires FirstValue(layers, k).Some?
    ensures exists i :: FirstWith(layers, k, i) && layers[i][k] == FirstValue(layers, k).value
  {
    if k in layers[0] {
      assert FirstWith(layers, k, 0);
    } else {
      FirstValueFrom(layers[1..], k);
      var i :| FirstWith(layers[1..], k, i) && layers[1..][i][k] == FirstValue(layers[1..], k).value;
      assert FirstWith(layers, k, i + 1);
    }
  }

  /** Two maps that answer every lookup alike are equal. */
  lemma MapsEqualByGet<V>(a: map<string, V>, b: map<string, V>)
    requires forall k :: Get(a, k) == Get(b, k)
    ensures a == b
  {
    assert a.Keys == b.Keys by {
      forall k ensures k in a <==> k in b { assert Get(a, k).Some? <==> Get(b, k).Some?; }
    }
    forall k | k in a ensures a[k] == b[k] { assert Get(a, k) == Get(b, k); }
  }

  /** A fold of `defaults` never changes a key the accumulator already has. */
  lemma {:induction false} DefaultsFoldKeepsSet<V>(acc: map<string, V>, layers: seq<map<string, V>>)
    ensures forall k :: k in acc ==> k in DefaultsFold(acc, layers) && DefaultsFold(acc, layers)[k] == acc[k]
    decreases |layers|
  {
    if layers != [] {
      DefaultsFoldKeepsSet(Defaults(acc, layers[0]), layers[1..]);
    }
  }

  /** Every entry of a fold of `defaults` comes from the accumulator or from some layer. */
  lemma {:induction false} DefaultsFoldFrom<V>(acc: map<string, V>, layers: seq<map<string, V>>, k: string)
    requires k in DefaultsFold(acc, layers)
    ensures || (k in acc && DefaultsFold(acc, layers)[k] == acc[k])
            || exists i :: 0 <= i < |layers| && k in layers[i] && DefaultsFold(acc, layers)[k] == layers[i][k]
  {
    var all := [acc] + layers;
    DefaultsFoldFirstValue(acc, layers, k);
    FirstValueFrom(all, k);
    var i :| FirstWith(all, k, i) && all[i][k] == FirstValue(all, k).value;
    if i > 0 {
      assert all[i] == layers[i - 1];
    }
  }
}
