/**
  * A Python `dict` as the sequence of its items in insertion order. Assigning
  * to a key that is already present replaces its value and keeps its position;
  * a new key goes to the end.
  */
module PyDict {
  import opened Wrappers

  type Dict<K, V> = seq<(K, V)>

  /** Every key appears once, as in any Python dict. */
  ghost predicate DistinctKeys<K, V>(d: Dict<K, V>) {
    forall i, j :: 0 <= i < j < |d| ==> d[i].0 != d[j].0
  }

  function Keys<K, V>(d: Dict<K, V>): (ks: seq<K>)
    ensures |ks| == |d| && forall i :: 0 <= i < |d| ==> ks[i] == d[i].0
  {
    seq(|d|, i requires 0 <= i < |d| => d[i].0)
  }

  /** Position of key `k`, if present (the first one, should keys repeat). */
  function Find<K(==), V>(d: Dict<K, V>, k: K): (r: Option<nat>)
    ensures r.Some? ==> r.value < |d| && d[r.value].0 == k
    ensures r.Some? ==> forall j :: 0 <= j < r.value ==> d[j].0 != k
    ensures r.None? ==> forall j :: 0 <= j < |d| ==> d[j].0 != k
  {
    if |d| == 0 then None
    else if d[|d| - 1].0 == k && Find(d[..|d| - 1], k).None? then Some(|d| - 1)
    else Find(d[..|d| - 1], k)
  }

  /** `d.get(k)`. */
  function Get<K(==), V>(d: Dict<K, V>, k: K): Option<V> {
    match Find(d, k)
    case None => None
    case Some(i) => Some(d[i].1)
  }

  /** `d[k] = v`. */
  function Set<K(==), V>(d: Dict<K, V>, k: K, v: V): (r: Dict<K, V>)
    ensures Keys(r) == if k in Keys(d) then Keys(d) else Keys(d) + [k]
  {
    match Find(d, k)
    case Some(i) => d[i := (k, v)]
    case None => d + [(k, v)]
  }

  /** Find depends on the keys only. */
  lemma {:induction false} FindByKeys<K, V, W>(d: Dict<K, V>, e: Dict<K, W>, k: K)
    requires Keys(d) == Keys(e)
    ensures Find(d, k) == Find(e, k)
  {
    if |d| > 0 {
      assert Keys(d[..|d| - 1]) == Keys(d)[..|d| - 1];
      assert Keys(e[..|e| - 1]) == Keys(e)[..|e| - 1];
      FindByKeys(d[..|d| - 1], e[..|e| - 1], k);
      assert d[|d| - 1].0 == Keys(d)[|d| - 1] == e[|e| - 1].0;
    }
  }

  lemma FindAppend<K, V>(d: Dict<K, V>, k: K, v: V, k': K)
    ensures Find(d + [(k, v)], k') == if Find(d, k').Some? || k' != k then Find(d, k') else Some(|d|)
  {
    assert (d + [(k, v)])[..|d|] == d;
  }

  /** After `d[k] = v`, looking up `k` gives `v`. */
  lemma GetSetSame<K, V>(d: Dict<K, V>, k: K, v: V)
    ensures Get(Set(d, k, v), k) == Some(v)
  {
    match Find(d, k)
    case Some(i) => FindByKeys(d, d[i := (k, v)], k);
    case None => FindAppend(d, k, v, k);
  }

  /** After `d[k] = v`, looking up any other key gives what it gave before. */
  lemma GetSetOther<K, V>(d: Dict<K, V>, k: K, v: V, k': K)
    requires k' != k
    ensures Get(Set(d, k, v), k') == Get(d, k')
  {
    match Find(d, k)
    case Some(i) =>
      FindByKeys(d, d[i := (k, v)], k');
    case None => FindAppend(d, k, v, k');
  }

  /** In a dict, an item is present exactly when looking its key up gives its value. */
  lemma MemberIffGet<K, V>(d: Dict<K, V>, k: K, v: V)
    requires DistinctKeys(d)
    ensures (k, v) in d <==> Get(d, k) == Some(v)
  {
    if (k, v) in d {
      var i :| 0 <= i < |d| && d[i] == (k, v);
      assert Find(d, k) == Some(i);
    }
  }

  lemma DistinctKeysSet<K, V>(d: Dict<K, V>, k: K, v: V)
    requires DistinctKeys(d)
    ensures DistinctKeys(Set(d, k, v))
  {
    var r := Set(d, k, v);
    forall i, j | 0 <= i < j < |r| ensures r[i].0 != r[j].0 {
      assert Keys(r)[i] == r[i].0 && Keys(r)[j] == r[j].0;
    }
  }

  /** `d[k] = v` keeps a property every value has, when `v` has it too. */
  lemma SetKeepsValueProperty<K, V>(d: Dict<K, V>, k: K, v: V, P: V -> bool)
    requires forall i :: 0 <= i < |d| ==> P(d[i].1)
    requires P(v)
    ensures forall i :: 0 <= i < |Set(d, k, v)| ==> P(Set(d, k, v)[i].1)
  {
  }
}
