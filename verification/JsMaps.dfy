/** An insertion-ordered map: setting a present key keeps its place, deleting and setting moves it last. */
module JsMaps {
  import opened Identity
  import opened Ordered

  datatype JsMap<K(!new, ==), V> = JsMap(keys: seq<K>, at: map<K, V>)

  function Empty<K(!new, ==), V>(): JsMap<K, V> {
    JsMap([], map[])
  }

  ghost predicate Good<K(!new), V>(m: JsMap<K, V>) {
    Distinct(m.keys) && forall k :: k in m.keys <==> k in m.at
  }

  function Get<K(!new, ==), V>(m: JsMap<K, V>, k: K): Option<V> {
    Lookup(m.at, k)
  }

  function Put<K(!new, ==), V>(m: JsMap<K, V>, k: K, v: V): JsMap<K, V> {
    JsMap(if k in m.at then m.keys else m.keys + [k], m.at[k := v])
  }

  function Delete<K(!new, ==), V>(m: JsMap<K, V>, k: K): JsMap<K, V> {
    JsMap(Without(m.keys, k), m.at - {k})
  }

  /** Deleting and setting again: the key becomes the newest. */
  function Touch<K(!new, ==), V>(m: JsMap<K, V>, k: K, v: V): JsMap<K, V> {
    Put(Delete(m, k), k, v)
  }

  lemma PutGood<K(!new), V>(m: JsMap<K, V>, k: K, v: V)
    requires Good(m)
    ensures Good(Put(m, k, v)) && |Put(m, k, v).keys| == |m.keys| + if k in m.at then 0 else 1
  {
  }

  lemma DeleteGood<K(!new), V>(m: JsMap<K, V>, k: K)
    requires Good(m)
    ensures Good(Delete(m, k)) && |Delete(m, k).keys| == |m.keys| - if k in m.at then 1 else 0
  {
    WithoutDistinct(m.keys, k);
    WithoutSize(m.keys, k);
  }

  lemma {:induction false} WithoutSize<T(!new)>(xs: seq<T>, x: T)
    requires Distinct(xs)
    ensures |Without(xs, x)| == |xs| - if x in xs then 1 else 0
  {
    if xs != [] {
      assert xs == [xs[0]] + xs[1..];
      if xs[0] == x {
        WithoutAbsent(xs[1..], x);
        assert x !in xs[1..];
      } else {
        WithoutSize(xs[1..], x);
      }
    }
  }

  lemma TouchGood<K(!new), V>(m: JsMap<K, V>, k: K, v: V)
    requires Good(m)
    ensures Good(Touch(m, k, v)) && |Touch(m, k, v).keys| == |m.keys| + if k in m.at then 0 else 1
    ensures Touch(m, k, v).at == m.at[k := v] && Touch(m, k, v).keys == Without(m.keys, k) + [k]
  {
    DeleteGood(m, k);
    PutGood(Delete(m, k), k, v);
  }

  lemma {:induction false} WithoutFirst<T(!new)>(xs: seq<T>)
    requires Distinct(xs) && xs != []
    ensures Without(xs, xs[0]) == xs[1..]
  {
    assert xs[0] !in xs[1..];
    WithoutAbsent(xs[1..], xs[0]);
  }
}
