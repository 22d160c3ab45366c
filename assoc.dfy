/**
 * A `Dictionary<V>` as enumerated by `foreach`: a list of (key, value)
 * pairs in insertion order, where writing an existing key replaces its value
 * in place and writing a new key appends it.
 */
module Assoc {
  import opened Wrappers

  type Dict<V> = seq<(string, V)>

  function Keys<V>(m: Dict<V>): (ks: seq<string>)
    ensures |ks| == |m|
    ensures forall i :: 0 <= i < |m| ==> ks[i] == m[i].0
  {
    seq(|m|, i requires 0 <= i < |m| => m[i].0)
  }

  /** No key occurs twice, as in every `Dictionary`. */
  predicate DistinctKeys<V>(m: Dict<V>)
  {
    forall i, j :: 0 <= i < j < |m| ==> m[i].0 != m[j].0
  }

  /** `m.TryGetValue(k)`: the value stored under `k`, if any. */
  function Get<V>(m: Dict<V>, k: string): Option<V>
  {
    if |m| == 0 then None
    else if m[0].0 == k then Some(m[0].1)
    else Get(m[1..], k)
  }

  /** A key that was never written is not found. */
  lemma {:induction false} GetMissing<V>(m: Dict<V>, k: string)
    requires k !in Keys(m)
    ensures Get(m, k) == None
    decreases |m|
  {
    if |m| > 0 {
      assert Keys(m[1..]) == Keys(m)[1..];
      GetMissing(m[1..], k);
    }
  }

  /** `m[k] = v`: a dictionary indexer write, in place when `k` is present. */
  function Put<V>(m: Dict<V>, k: string, v: V): Dict<V>
  {
    if |m| == 0 then [(k, v)]
    else if m[0].0 == k then [(k, v)] + m[1..]
    else [m[0]] + Put(m[1..], k, v)
  }

  lemma KeysCons<V>(e: (string, V), t: Dict<V>)
    ensures Keys([e] + t) == [e.0] + Keys(t)
  {
  }

  /** A write overwrites a present key in place and appends a new one. */
  lemma {:induction false} PutKeys<V>(m: Dict<V>, k: string, v: V)
    ensures Keys(Put(m, k, v)) == if k in Keys(m) then Keys(m) else Keys(m) + [k]
    decreases |m|
  {
    if |m| > 0 {
      KeysCons(m[0], m[1..]);
      assert m == [m[0]] + m[1..];
      if m[0].0 == k {
        KeysCons((k, v), m[1..]);
      } else {
        PutKeys(m[1..], k, v);
        KeysCons(m[0], Put(m[1..], k, v));
      }
    }
  }

  /** Distinctness depends on the keys alone. */
  lemma DistinctKeysOf<V>(m: Dict<V>, n: Dict<V>)
    requires Keys(m) == Keys(n) && DistinctKeys(m)
    ensures DistinctKeys(n)
  {
    forall i, j | 0 <= i < j < |n| ensures n[i].0 != n[j].0 {
      assert Keys(m)[i] == Keys(n)[i] && Keys(m)[j] == Keys(n)[j];
    }
  }

  /** A write keeps distinct keys distinct. */
  lemma PutDistinct<V>(m: Dict<V>, k: string, v: V)
    requires DistinctKeys(m)
    ensures DistinctKeys(Put(m, k, v))
  {
    PutKeys(m, k, v);
    var r := Put(m, k, v);
    if k in Keys(m) {
      DistinctKeysOf(m, r);
    } else {
      forall i, j | 0 <= i < j < |r| ensures r[i].0 != r[j].0 {
        assert Keys(r)[i] == r[i].0 && Keys(r)[j] == r[j].0;
        if j < |m| {
          assert Keys(m)[i] == m[i].0 && Keys(m)[j] == m[j].0;
        } else {
          assert Keys(m)[i] == r[i].0;
        }
      }
    }
  }

  /** After `m[k] = v`, looking `k` up yields `v`. */
  lemma {:induction false} PutGet<V>(m: Dict<V>, k: string, v: V)
    ensures Get(Put(m, k, v), k) == Some(v)
    decreases |m|
  {
    if |m| > 0 && m[0].0 != k {
      assert Put(m, k, v)[1..] == Put(m[1..], k, v);
      PutGet(m[1..], k, v);
    }
  }

  /** After `m[k] = v`, every other key maps to what it mapped to before. */
  lemma {:induction false} PutGetOther<V>(m: Dict<V>, k: string, v: V, k': string)
    requires k' != k
    ensures Get(Put(m, k, v), k') == Get(m, k')
    decreases |m|
  {
    var r := Put(m, k, v);
    if |m| == 0 {
      assert r[1..] == [];
    } else if m[0].0 == k {
      assert r[1..] == m[1..];
    } else if m[0].0 != k' {
      assert r[1..] == Put(m[1..], k, v);
      PutGetOther(m[1..], k, v, k');
    }
  }
}
