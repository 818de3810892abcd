/**
 * Python dicts as insertion-ordered association lists: `d[k]` lookup,
 * `d[k] = v`, `a | b`, `del d[k]` / `d.pop(k)`. A dict never holds a key
 * twice, and every operation here keeps it so.
 */
module Dicts {
  import opened Wrappers
  import opened Seqs

  type Dict<K, V> = seq<(K, V)>

  function Keys<K, V>(d: Dict<K, V>): (ks: seq<K>)
    ensures |ks| == |d| && forall i :: 0 <= i < |d| ==> ks[i] == d[i].0
  {
    if d == [] then [] else [d[0].0] + Keys(d[1..])
  }

  predicate DistinctKeys<K(==), V(==)>(d: Dict<K, V>) {
    Distinct(Keys(d))
  }

  /** `d.get(k)`: the value of the first entry with key `k`. */
  function Get<K(==), V(==)>(d: Dict<K, V>, k: K): Option<V> {
    if d == [] then None
    else if d[0].0 == k then Some(d[0].1)
    else Get(d[1..], k)
  }

  /** `d.get(k)` finds a value exactly when `k` is a key, and that value is one of an entry for `k`. */
  lemma {:induction false} GetKeys<K, V>(d: Dict<K, V>, k: K)
    ensures Get(d, k).None? <==> k !in Keys(d)
    ensures Get(d, k).Some? ==> exists i :: 0 <= i < |d| && d[i] == (k, Get(d, k).value)
  {
    if d != [] {
      GetKeys(d[1..], k);
      assert Keys(d) == [d[0].0] + Keys(d[1..]);
      if d[0].0 != k && Get(d, k).Some? {
        var i :| 0 <= i < |d[1..]| && d[1..][i] == (k, Get(d, k).value);
        assert d[i + 1] == d[1..][i];
      }
    }
  }

  /** `d[k] = v`: replaces the value in place when `k` is a key, appends otherwise. */
  function Put<K(==), V(==)>(d: Dict<K, V>, k: K, v: V): (r: Dict<K, V>)
    ensures k in Keys(d) ==> Keys(r) == Keys(d)
    ensures k !in Keys(d) ==> r == d + [(k, v)]
  {
    if d == [] then [(k, v)]
    else if d[0].0 == k then [(k, v)] + d[1..]
    else [d[0]] + Put(d[1..], k, v)
  }

  /** With distinct keys, `d[k] = v` for the key at position `i` changes that entry only. */
  lemma {:induction false} PutAt<K, V>(d: Dict<K, V>, i: nat, v: V)
    requires i < |d| && DistinctKeys(d)
    ensures Put(d, d[i].0, v) == d[i := (d[i].0, v)]
  {
    var k, ks := d[i].0, Keys(d);
    if i == 0 {
      assert Put(d, k, v) == [(k, v)] + d[1..];
    } else {
      assert ks[0] != ks[i];
      assert Keys(d[1..]) == ks[1..];
      DistinctTail(ks);
      PutAt(d[1..], i - 1, v);
      assert Put(d, k, v) == [d[0]] + Put(d[1..], k, v);
    }
  }

  /** `a | b`: the entries of `b` put into `a` one after another. */
  function Union<K(==), V(==)>(a: Dict<K, V>, b: Dict<K, V>): Dict<K, V>
    decreases |b|
  {
    if b == [] then a else Union(Put(a, b[0].0, b[0].1), b[1..])
  }

  /** `a | b` has the keys of `a` and the keys of `b`, and no others. */
  lemma {:induction false} KeysUnion<K, V>(a: Dict<K, V>, b: Dict<K, V>, x: K)
    ensures x in Keys(Union(a, b)) <==> x in Keys(a) || x in Keys(b)
    decreases |b|
  {
    if b != [] {
      var a' := Put(a, b[0].0, b[0].1);
      KeysUnion(a', b[1..], x);
      if b[0].0 !in Keys(a) {
        KeysConcat(a, [(b[0].0, b[0].1)]);
      }
      assert Keys(b) == [b[0].0] + Keys(b[1..]);
    }
  }

  /** Union with keys all new appends `b` after `a`. */
  lemma {:induction false} UnionOfFreshKeys<K, V>(a: Dict<K, V>, b: Dict<K, V>)
    requires DistinctKeys(b)
    requires forall i :: 0 <= i < |b| ==> b[i].0 !in Keys(a)
    ensures Union(a, b) == a + b
    decreases |b|
  {
    if b != [] {
      var a', rest := a + [b[0]], b[1..];
      assert b[0].0 !in Keys(a);
      FreshAfterFirst(a, b);
      UnionOfFreshKeys(a', rest);
      assert [b[0]] + rest == b;
      AppendAssoc(a, [b[0]], rest);
    }
  }

  lemma FreshAfterFirst<K, V>(a: Dict<K, V>, b: Dict<K, V>)
    requires b != [] && DistinctKeys(b)
    requires forall i :: 0 <= i < |b| ==> b[i].0 !in Keys(a)
    ensures DistinctKeys(b[1..])
    ensures forall i :: 0 <= i < |b[1..]| ==> b[1..][i].0 !in Keys(a + [b[0]])
  {
    var rest, kb := b[1..], Keys(b);
    assert Keys(a + [b[0]]) == Keys(a) + [b[0].0];
    forall i | 0 <= i < |rest| ensures rest[i].0 != b[0].0 {
      assert kb[0] != kb[i + 1];
    }
    forall i, j | 0 <= i < j < |rest| ensures Keys(rest)[i] != Keys(rest)[j] {
      assert kb[i + 1] != kb[j + 1];
    }
  }

  /** `del d[k]`, and the removal half of `d.pop(k)`. */
  function Remove<K(==), V(==)>(d: Dict<K, V>, k: K): (r: Dict<K, V>)
    ensures k !in Keys(r)
  {
    if d == [] then []
    else if d[0].0 == k then Remove(d[1..], k)
    else [d[0]] + Remove(d[1..], k)
  }

  /** `del d[k]` keeps every other key. */
  lemma {:induction false} KeysRemove<K, V>(d: Dict<K, V>, k: K, x: K)
    ensures x in Keys(Remove(d, k)) <==> x in Keys(d) && x != k
  {
    if d != [] {
      KeysRemove(d[1..], k, x);
      assert Keys(d) == [d[0].0] + Keys(d[1..]);
      assert Keys([d[0]] + Remove(d[1..], k)) == [d[0].0] + Keys(Remove(d[1..], k));
    }
  }

  lemma {:induction false} RemoveAbsent<K, V>(d: Dict<K, V>, k: K)
    requires k !in Keys(d)
    ensures Remove(d, k) == d
  {
    if d != [] {
      assert Keys(d[1..]) == Keys(d)[1..];
      RemoveAbsent(d[1..], k);
    }
  }

  lemma {:induction false} RemoveFirst<K, V>(e: (K, V), d: Dict<K, V>)
    requires e.0 !in Keys(d)
    ensures Remove([e] + d, e.0) == d
  {
    assert ([e] + d)[1..] == d;
    RemoveAbsent(d, e.0);
  }

  lemma KeysConcat<K, V>(a: Dict<K, V>, b: Dict<K, V>)
    ensures Keys(a + b) == Keys(a) + Keys(b)
  {
    assert |Keys(a + b)| == |Keys(a) + Keys(b)|;
    forall i | 0 <= i < |a + b| ensures Keys(a + b)[i] == (Keys(a) + Keys(b))[i] {
      if i < |a| {
        assert (a + b)[i] == a[i];
      } else {
        assert (a + b)[i] == b[i - |a|];
      }
    }
  }

  /** With distinct keys, `d[k]` is the value at the position of `k`. */
  lemma {:induction false} GetAt<K, V>(d: Dict<K, V>, i: nat)
    requires i < |d| && DistinctKeys(d)
    ensures Get(d, d[i].0) == Some(d[i].1)
  {
    if i > 0 {
      var ks := Keys(d);
      assert ks[0] != ks[i];
      assert Keys(d[1..]) == ks[1..];
      DistinctTail(ks);
      GetAt(d[1..], i - 1);
    }
  }

  lemma RemoveHeadKey<K, V>(d: Dict<K, V>)
    requires d != [] && DistinctKeys(d)
    ensures Remove(d, d[0].0) == d[1..]
  {
    var k, ks := d[0].0, Keys(d);
    assert Keys(d[1..]) == ks[1..];
    forall j | 0 <= j < |ks| - 1 ensures ks[1..][j] != k {
      assert ks[0] != ks[j + 1];
    }
    RemoveAbsent(d[1..], k);
  }

  /** With distinct keys, `del d[k]` takes out the one entry of `k`. */
  lemma {:induction false} RemoveAt<K, V>(d: Dict<K, V>, i: nat)
    requires i < |d| && DistinctKeys(d)
    ensures Remove(d, d[i].0) == d[..i] + d[i + 1..]
  {
    if i == 0 {
      RemoveHeadKey(d);
    } else {
      var ks := Keys(d);
      assert ks[0] != ks[i];
      assert Keys(d[1..]) == ks[1..];
      DistinctTail(ks);
      RemoveAt(d[1..], i - 1);
      assert Remove(d, d[i].0) == [d[0]] + Remove(d[1..], d[i].0);
      assert d[1..][..i - 1] == d[1..i] && d[1..][i..] == d[i + 1..];
      AppendAssoc([d[0]], d[1..i], d[i + 1..]);
      assert [d[0]] + d[1..i] == d[..i];
    }
  }

  /** Removing positions keeps the keys distinct. */
  lemma DistinctKeysCut<K, V>(d: Dict<K, V>, i: nat)
    requires i < |d| && DistinctKeys(d)
    ensures DistinctKeys(d[..i] + d[i + 1..])
  {
    var e, ks := d[..i] + d[i + 1..], Keys(d);
    forall a, b | 0 <= a < b < |e| ensures Keys(e)[a] != Keys(e)[b] {
      var a', b' := if a < i then a else a + 1, if b < i then b else b + 1;
      assert e[a] == d[a'] && e[b] == d[b'];
      assert ks[a'] != ks[b'];
    }
  }

  lemma {:induction false} RemoveConcat<K, V>(a: Dict<K, V>, b: Dict<K, V>, k: K)
    requires k !in Keys(b)
    ensures Remove(a + b, k) == Remove(a, k) + b
  {
    if a == [] {
      assert a + b == b;
      RemoveAbsent(b, k);
    } else {
      assert (a + b)[1..] == a[1..] + b;
      RemoveConcat(a[1..], b, k);
    }
  }

  lemma {:induction false} GetConcat<K, V>(a: Dict<K, V>, b: Dict<K, V>, k: K)
    requires k in Keys(a)
    ensures Get(a + b, k) == Get(a, k)
  {
    if a[0].0 != k {
      assert (a + b)[1..] == a[1..] + b;
      assert Keys(a[1..]) == Keys(a)[1..];
      GetConcat(a[1..], b, k);
    }
  }

  /** Deleting one key leaves the lookup of every other key as it was. */
  lemma {:induction false} GetRemove<K, V>(d: Dict<K, V>, k: K, gone: K)
    requires k != gone
    ensures Get(Remove(d, gone), k) == Get(d, k)
  {
    if d != [] {
      GetRemove(d[1..], k, gone);
    }
  }

  /** `a | b` when no key repeats across the two: `b` is appended. */
  lemma UnionDisjoint<K, V>(a: Dict<K, V>, b: Dict<K, V>)
    requires DistinctKeys(a + b)
    ensures Union(a, b) == a + b
  {
    var ks := Keys(a + b);
    KeysConcat(a, b);
    assert Keys(b) == ks[|a|..];
    DistinctSuffix(ks, |a|);
    forall i | 0 <= i < |b| ensures b[i].0 !in Keys(a) {
      assert b[i].0 == ks[|a| + i];
      forall j | 0 <= j < |a| ensures ks[j] != ks[|a| + i] {}
    }
    UnionOfFreshKeys(a, b);
  }

  /** `d[k] = v` for a key of the front part `a` of `a + f` changes that entry only. */
  lemma PutAtConcat<K, V>(a: Dict<K, V>, f: Dict<K, V>, i: nat, v: V)
    requires i < |a| && DistinctKeys(a + f)
    ensures Put(a + f, a[i].0, v) == a[i := (a[i].0, v)] + f
  {
    UpdateConcat(a, f, i, (a[i].0, v));
    PutAt(a + f, i, v);
  }

  lemma UpdateConcat<T>(a: seq<T>, f: seq<T>, i: nat, x: T)
    requires i < |a|
    ensures (a + f)[i := x] == a[i := x] + f
    ensures (a + f)[i] == a[i]
  {
  }

  /** `del d[k]` for a key of the front part `a` of `a + f` takes out that entry only. */
  lemma RemoveAtConcat<K, V>(a: Dict<K, V>, f: Dict<K, V>, i: nat)
    requires i < |a| && DistinctKeys(a + f)
    ensures Remove(a + f, a[i].0) == (a[..i] + a[i + 1..]) + f
  {
    var x := a + f;
    assert x[i] == a[i];
    RemoveAt(x, i);
    assert x[..i] == a[..i];
    assert x[i + 1..] == a[i + 1..] + f;
    AppendAssoc(a[..i], a[i + 1..], f);
  }
}
