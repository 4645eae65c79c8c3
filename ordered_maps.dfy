/**
 * An ordered dictionary in the manner of a JavaScript object with string keys:
 * a sequence of (key, value) entries kept in insertion order. The spread update
 * `{...m, [k]: v}` is `Put`, `delete m[k]` on a copy is `Delete`, and
 * `Object.values(m)` is `Values`. Every dictionary the model keeps satisfies
 * `DistinctKeys`, as every JavaScript object does.
 */
module OrderedMaps {
  import opened Wrappers

  type OMap<K, V> = seq<(K, V)>

  function KeySet<K, V>(m: OMap<K, V>): set<K> {
    set i | 0 <= i < |m| :: m[i].0
  }

  /** The keys in insertion order (`Object.keys`). */
  function KeyList<K, V>(m: OMap<K, V>): (ks: seq<K>)
    ensures |ks| == |m|
    ensures forall i :: 0 <= i < |m| ==> ks[i] == m[i].0
  {
    seq(|m|, i requires 0 <= i < |m| => m[i].0)
  }

  /** The values in insertion order (`Object.values`). */
  function Values<K, V>(m: OMap<K, V>): (vs: seq<V>)
    ensures |vs| == |m|
    ensures forall i :: 0 <= i < |m| ==> vs[i] == m[i].1
  {
    seq(|m|, i requires 0 <= i < |m| => m[i].1)
  }

  predicate DistinctKeys<K(==), V>(m: OMap<K, V>) {
    forall i, j :: 0 <= i < j < |m| ==> m[i].0 != m[j].0
  }

  /** The position of the entry for `k`, or -1 when there is none. */
  function IndexOf<K(==), V>(m: OMap<K, V>, k: K): (i: int)
    ensures -1 <= i < |m|
    ensures 0 <= i ==> m[i].0 == k && forall j :: 0 <= j < i ==> m[j].0 != k
    ensures i == -1 <==> k !in KeySet(m)
    decreases |m|
  {
    if m == [] then -1
    else if m[|m| - 1].0 == k && IndexOf(m[..|m| - 1], k) == -1 then |m| - 1
    else IndexOf(m[..|m| - 1], k)
  }

  /** The dictionary seen as a mathematical map. */
  function ToMap<K(==), V>(m: OMap<K, V>): (r: map<K, V>)
    requires DistinctKeys(m)
    ensures r.Keys == KeySet(m)
    ensures forall i :: 0 <= i < |m| ==> r[m[i].0] == m[i].1
  {
    map i | 0 <= i < |m| :: m[i].0 := m[i].1
  }

  /** `m[k]`, or `None` for a key the dictionary does not hold (`undefined`). */
  function Get<K(==), V>(m: OMap<K, V>, k: K): (r: Option<V>)
    ensures r.Some? <==> k in KeySet(m)
    ensures r.Some? && DistinctKeys(m) ==> r.value == ToMap(m)[k]
  {
    var i := IndexOf(m, k);
    if i < 0 then None else Some(m[i].1)
  }

  /** `{...m, [k]: v}`: overwrite in place when `k` is present, append otherwise. */
  function Put<K(==), V>(m: OMap<K, V>, k: K, v: V): (r: OMap<K, V>)
    ensures KeySet(r) == KeySet(m) + {k}
    ensures DistinctKeys(m) ==> DistinctKeys(r) && ToMap(r) == ToMap(m)[k := v]
  {
    var i := IndexOf(m, k);
    if i < 0 then
      AppendKeepsDictionary(m, k, v);
      m + [(k, v)]
    else
      OverwriteKeepsDictionary(m, i, v);
      m[i := (k, v)]
  }

  /**
   * Where `Put` leaves the entry: an existing key keeps its place, so the
   * key order and the size are unchanged; a new key is appended last.
   */
  lemma PutOrder<K, V>(m: OMap<K, V>, k: K, v: V)
    ensures k in KeySet(m) ==> |Put(m, k, v)| == |m| && KeyList(Put(m, k, v)) == KeyList(m)
    ensures k !in KeySet(m) ==> Put(m, k, v) == m + [(k, v)]
  {
    var i := IndexOf(m, k);
    if 0 <= i {
      OverwriteKeepsDictionary(m, i, v);
    }
  }

  lemma AppendKeepsDictionary<K, V>(m: OMap<K, V>, k: K, v: V)
    requires k !in KeySet(m)
    ensures KeySet(m + [(k, v)]) == KeySet(m) + {k}
    ensures DistinctKeys(m) ==> DistinctKeys(m + [(k, v)]) && ToMap(m + [(k, v)]) == ToMap(m)[k := v]
  {
    AppendKeys(m, k, v);
    if DistinctKeys(m) {
      AppendMap(m, k, v);
    }
  }

  lemma AppendKeys<K, V>(m: OMap<K, V>, k: K, v: V)
    ensures KeySet(m + [(k, v)]) == KeySet(m) + {k}
  {
    var r := m + [(k, v)];
    forall x | x in KeySet(m) ensures x in KeySet(r) {
      var j :| 0 <= j < |m| && m[j].0 == x;
      assert r[j].0 == x;
    }
    assert r[|m|].0 == k;
  }

  lemma AppendMap<K, V>(m: OMap<K, V>, k: K, v: V)
    requires k !in KeySet(m) && DistinctKeys(m)
    ensures DistinctKeys(m + [(k, v)]) && ToMap(m + [(k, v)]) == ToMap(m)[k := v]
  {
    AppendDistinct(m, k, v);
    var r := m + [(k, v)];
    AppendKeys(m, k, v);
    var x, y := ToMap(r), ToMap(m)[k := v];
    assert x.Keys == y.Keys;
    forall key | key in x.Keys ensures x[key] == y[key] {
      var j :| 0 <= j < |r| && r[j].0 == key;
    }
  }

  lemma AppendDistinct<K, V>(m: OMap<K, V>, k: K, v: V)
    requires k !in KeySet(m) && DistinctKeys(m)
    ensures DistinctKeys(m + [(k, v)])
  {
    var r := m + [(k, v)];
    forall a, b | 0 <= a < b < |r| ensures r[a].0 != r[b].0 {
      assert r[a] == m[a];
      if b == |m| {
        assert m[a].0 in KeySet(m);
      } else {
        assert r[b] == m[b];
      }
    }
  }

  lemma OverwriteKeepsDictionary<K, V>(m: OMap<K, V>, i: int, v: V)
    requires 0 <= i < |m|
    ensures KeySet(m[i := (m[i].0, v)]) == KeySet(m)
    ensures KeyList(m[i := (m[i].0, v)]) == KeyList(m)
    ensures DistinctKeys(m) ==> DistinctKeys(m[i := (m[i].0, v)]) && ToMap(m[i := (m[i].0, v)]) == ToMap(m)[m[i].0 := v]
  {
    OverwriteKeys(m, i, v);
    if DistinctKeys(m) {
      OverwriteMap(m, i, v);
    }
  }

  lemma OverwriteKeys<K, V>(m: OMap<K, V>, i: int, v: V)
    requires 0 <= i < |m|
    ensures KeySet(m[i := (m[i].0, v)]) == KeySet(m)
    ensures KeyList(m[i := (m[i].0, v)]) == KeyList(m)
  {
    var r := m[i := (m[i].0, v)];
    forall x | x in KeySet(m) ensures x in KeySet(r) {
      var j :| 0 <= j < |m| && m[j].0 == x;
      assert r[j].0 == x;
    }
    assert KeyList(r) == KeyList(m);
  }

  lemma OverwriteMap<K, V>(m: OMap<K, V>, i: int, v: V)
    requires 0 <= i < |m| && DistinctKeys(m)
    ensures DistinctKeys(m[i := (m[i].0, v)]) && ToMap(m[i := (m[i].0, v)]) == ToMap(m)[m[i].0 := v]
  {
    var r := m[i := (m[i].0, v)];
    OverwriteKeys(m, i, v);
    OverwriteDistinct(m, i, v);
    var x, y := ToMap(r), ToMap(m)[m[i].0 := v];
    assert x.Keys == y.Keys;
    forall key | key in x.Keys ensures x[key] == y[key] {
      var j :| 0 <= j < |r| && r[j].0 == key;
      assert j == i || r[j] == m[j];
    }
  }

  lemma OverwriteDistinct<K, V>(m: OMap<K, V>, i: int, v: V)
    requires 0 <= i < |m| && DistinctKeys(m)
    ensures DistinctKeys(m[i := (m[i].0, v)])
  {
    var r := m[i := (m[i].0, v)];
    assert forall j :: 0 <= j < |m| ==> r[j].0 == m[j].0;
  }

  /** `delete m[k]` on a copy of `m`: the entry for `k` goes, the others keep their order. */
  function Delete<K(==), V>(m: OMap<K, V>, k: K): (r: OMap<K, V>)
    ensures k !in KeySet(m) ==> r == m
    ensures k in KeySet(m) ==> |r| == |m| - 1
    ensures DistinctKeys(m) ==> DistinctKeys(r) && KeySet(r) == KeySet(m) - {k} && ToMap(r) == ToMap(m) - {k}
  {
    var i := IndexOf(m, k);
    if i < 0 then m
    else
      RemoveKeepsDictionary(m, i);
      m[..i] + m[i + 1..]
  }

  /** Where `Delete` leaves the others: exactly the entry of `k` is cut out, the rest keep their order. */
  lemma DeleteOrder<K, V>(m: OMap<K, V>, k: K)
    ensures k in KeySet(m) ==>
      exists i :: 0 <= i < |m| && m[i].0 == k && Delete(m, k) == m[..i] + m[i + 1..]
  {
    if k in KeySet(m) {
      var i := IndexOf(m, k);
      assert m[i].0 == k && Delete(m, k) == m[..i] + m[i + 1..];
    }
  }

  lemma RemoveKeepsDictionary<K, V>(m: OMap<K, V>, i: int)
    requires 0 <= i < |m|
    ensures DistinctKeys(m) ==> var r := m[..i] + m[i + 1..];
      DistinctKeys(r) && KeySet(r) == KeySet(m) - {m[i].0} && ToMap(r) == ToMap(m) - {m[i].0}
  {
    if DistinctKeys(m) {
      RemoveKeepsDistinct(m, i);
      RemoveKeepsKeys(m, i);
      var r := m[..i] + m[i + 1..];
      var a, b := ToMap(r), ToMap(m) - {m[i].0};
      assert a.Keys == b.Keys;
      forall x | x in a.Keys ensures a[x] == b[x] {
        var j :| 0 <= j < |r| && r[j].0 == x;
        assert r[j] == m[if j < i then j else j + 1];
      }
    }
  }

  lemma RemoveKeepsDistinct<K, V>(m: OMap<K, V>, i: int)
    requires 0 <= i < |m| && DistinctKeys(m)
    ensures DistinctKeys(m[..i] + m[i + 1..])
  {
    var r := m[..i] + m[i + 1..];
    forall a, b | 0 <= a < b < |r| ensures r[a].0 != r[b].0 {
      var a', b' := if a < i then a else a + 1, if b < i then b else b + 1;
      assert r[a] == m[a'] && r[b] == m[b'] && a' < b';
    }
  }

  lemma RemoveKeepsKeys<K, V>(m: OMap<K, V>, i: int)
    requires 0 <= i < |m| && DistinctKeys(m)
    ensures KeySet(m[..i] + m[i + 1..]) == KeySet(m) - {m[i].0}
  {
    var r := m[..i] + m[i + 1..];
    var k := m[i].0;
    forall x | x in KeySet(m) && x != k ensures x in KeySet(r) {
      var j :| 0 <= j < |m| && m[j].0 == x;
      if j < i { assert r[j] == m[j]; } else { assert r[j - 1] == m[j]; }
    }
    forall x | x in KeySet(r) ensures x in KeySet(m) && x != k {
      var j :| 0 <= j < |r| && r[j].0 == x;
      if j < i { assert r[j] == m[j]; } else { assert r[j] == m[j + 1]; }
    }
  }
}
