/** Python's insertion-ordered `dict`, as a sequence of (key, value) entries. */
module Dicts {
  import opened Wrappers

  type Dict<K, V> = seq<(K, V)>

  function Keys<K, V>(d: Dict<K, V>): (ks: seq<K>)
    ensures |ks| == |d|
    ensures forall i :: 0 <= i < |d| ==> ks[i] == d[i].0
  {
    if d == [] then [] else [d[0].0] + Keys(d[1..])
  }

  lemma KeysAppend<K, V>(a: Dict<K, V>, b: Dict<K, V>)
    ensures Keys(a + b) == Keys(a) + Keys(b)
  {
  }

  /** The keys of a dict are pairwise distinct. */
  predicate DistinctKeys<K(==), V>(d: Dict<K, V>) {
    forall i, j :: 0 <= i < j < |d| ==> d[i].0 != d[j].0
  }

  /** `d.get(k)`: the value stored under `k`, if any. */
  function Get<K(==), V>(d: Dict<K, V>, k: K): (r: Option<V>)
    ensures r.None? <==> k !in Keys(d)
    ensures forall i :: 0 <= i < |d| && d[i].0 == k && DistinctKeys(d) ==> r == Some(d[i].1)
  {
    if d == [] then None
    else if d[0].0 == k then Some(d[0].1)
    else
      assert Keys(d) == [d[0].0] + Keys(d[1..]);
      Get(d[1..], k)
  }

  /** Looking up in a dict with one more entry at the end. */
  lemma {:induction false} GetAppend<K, V>(d: Dict<K, V>, k: K, v: V, x: K)
    ensures Get(d + [(k, v)], x) == if x in Keys(d) then Get(d, x) else if x == k then Some(v) else None
  {
    if d != [] {
      assert (d + [(k, v)])[1..] == d[1..] + [(k, v)];
      assert Keys(d) == [d[0].0] + Keys(d[1..]);
      GetAppend(d[1..], k, v, x);
    }
  }

  /** `d[k] = v`: overwrite in place when `k` is present, otherwise append at the end. */
  function Put<K(==), V>(d: Dict<K, V>, k: K, v: V): (r: Dict<K, V>)
    ensures k !in Keys(d) ==> r == d + [(k, v)]
    ensures k in Keys(d) ==> |r| == |d| && forall i :: 0 <= i < |d| ==> r[i] == if d[i].0 == k then (k, v) else d[i]
    ensures Keys(r) == if k in Keys(d) then Keys(d) else Keys(d) + [k]
    ensures DistinctKeys(d) ==> DistinctKeys(r)
  {
    if k in Keys(d) then
      var r := seq(|d|, i requires 0 <= i < |d| => if d[i].0 == k then (k, v) else d[i]);
      assert Keys(r) == Keys(d);
      r
    else
      var r := d + [(k, v)];
      assert Keys(r) == Keys(d) + [k];
      r
  }

  /** `del d[k]`: drop the entries under `k`, keeping the order of the rest. */
  function Remove<K(==), V>(d: Dict<K, V>, k: K): (r: Dict<K, V>)
    ensures forall e :: e in r ==> e in d && e.0 != k
    ensures forall e :: e in d && e.0 != k ==> e in r
    ensures |r| <= |d|
  {
    if d == [] then []
    else
      var rest := Remove(d[1..], k);
      assert forall e :: e in d ==> e == d[0] || e in d[1..];
      if d[0].0 == k then rest else [d[0]] + rest
  }

  /** After `del d[k]` the keys are those of `d` other than `k`. */
  lemma RemoveKeys<K, V>(d: Dict<K, V>, k: K)
    ensures forall x :: x in Keys(Remove(d, k)) <==> x in Keys(d) && x != k
  {
    var r := Remove(d, k);
    forall x ensures x in Keys(r) <==> x in Keys(d) && x != k {
      if x in Keys(r) {
        var i :| 0 <= i < |r| && Keys(r)[i] == x;
        assert r[i] in r;
        var m :| 0 <= m < |d| && d[m] == r[i];
        assert Keys(d)[m] == x;
      }
      if x in Keys(d) && x != k {
        var m :| 0 <= m < |d| && Keys(d)[m] == x;
        assert d[m] in d;
        var i :| 0 <= i < |r| && r[i] == d[m];
        assert Keys(r)[i] == x;
      }
    }
  }

  /** `del d[k]` changes nothing when `k` is absent. */
  lemma {:induction false} RemoveAbsent<K, V>(d: Dict<K, V>, k: K)
    requires k !in Keys(d)
    ensures Remove(d, k) == d
  {
    if d != [] {
      assert Keys(d) == [d[0].0] + Keys(d[1..]);
      RemoveAbsent(d[1..], k);
    }
  }

  /** `del d[k]` keeps the order of the remaining entries: it distributes over concatenation. */
  lemma {:induction false} RemoveAppend<K, V>(a: Dict<K, V>, b: Dict<K, V>, k: K)
    ensures Remove(a + b, k) == Remove(a, k) + Remove(b, k)
  {
    if a == [] {
      assert a + b == b;
    } else {
      assert (a + b)[0] == a[0];
      assert (a + b)[1..] == a[1..] + b;
      RemoveAppend(a[1..], b, k);
    }
  }

  /** `del d[k]` keeps distinct keys distinct. */
  lemma {:induction false} RemoveDistinct<K, V>(d: Dict<K, V>, k: K)
    requires DistinctKeys(d)
    ensures DistinctKeys(Remove(d, k))
  {
    if d != [] {
      var rest := Remove(d[1..], k);
      RemoveDistinct(d[1..], k);
      if d[0].0 != k {
        forall j | 0 <= j < |rest| ensures rest[j].0 != d[0].0 {
          assert rest[j] in rest;
          var m :| 0 <= m < |d[1..]| && d[1..][m] == rest[j];
          assert d[m + 1] == rest[j];
        }
        var r := [d[0]] + rest;
        forall i, j | 0 <= i < j < |r| ensures r[i].0 != r[j].0 {
          assert r[j] == rest[j - 1];
          if i > 0 {
            assert r[i] == rest[i - 1];
          }
        }
      }
    }
  }
}
