/**
 * The generator's replacement table: a JavaScript `Map<string, string>`,
 * which iterates its entries in insertion order.  It is modelled as a
 * sequence of (key, value) pairs; `Set` follows `Map.prototype.set`, which
 * updates an existing key where it stands and appends a new key at the end.
 */
module OrderedMap {
  import opened Wrappers

  type Entries = seq<(string, string)>

  /** The keys, in iteration order. */
  function Keys(m: Entries): seq<string>
  {
    seq(|m|, i requires 0 <= i < |m| => m[i].0)
  }

  /** No key appears twice, as in every JavaScript `Map`. */
  predicate DistinctKeys(m: Entries)
  {
    forall i, j :: 0 <= i < j < |m| ==> m[i].0 != m[j].0
  }

  /** `Map.prototype.get`: the value stored under the first occurrence of `k`, if any. */
  function Get(m: Entries, k: string): (r: Option<string>)
    ensures r.None? <==> k !in Keys(m)
  {
    if m == [] then None
    else
      assert Keys(m) == [m[0].0] + Keys(m[1..]);
      if m[0].0 == k then Some(m[0].1) else Get(m[1..], k)
  }

  /**
   * `Map.prototype.set`: overwrite the value of `k` where it stands, or
   * append `(k, v)` at the end.  (Keys are distinct in every `Map`, so
   * overwriting "every" entry with key `k` overwrites the one entry.)
   */
  function Set(m: Entries, k: string, v: string): Entries
  {
    if k in Keys(m) then seq(|m|, i requires 0 <= i < |m| => if m[i].0 == k then (k, v) else m[i])
    else m + [(k, v)]
  }

  lemma {:induction false} GetAt(m: Entries, k: string, i: nat)
    requires DistinctKeys(m)
    requires i < |m| && m[i].0 == k
    ensures Get(m, k) == Some(m[i].1)
    decreases i
  {
    if i > 0 {
      GetAt(m[1..], k, i - 1);
    }
  }

  lemma SetKeys(m: Entries, k: string, v: string)
    ensures Keys(Set(m, k, v)) == if k in Keys(m) then Keys(m) else Keys(m) + [k]
  {
  }

  lemma SetKeepsDistinct(m: Entries, k: string, v: string)
    requires DistinctKeys(m)
    ensures DistinctKeys(Set(m, k, v))
  {
    var r := Set(m, k, v);
    SetKeys(m, k, v);
    forall p, q | 0 <= p < q < |r|
      ensures r[p].0 != r[q].0
    {
      assert Keys(r)[p] == r[p].0 && Keys(r)[q] == r[q].0;
      if q < |m| {
        assert Keys(m)[p] == m[p].0 && Keys(m)[q] == m[q].0;
      } else {
        assert Keys(m)[p] == m[p].0;
      }
    }
  }

  lemma SetGetSame(m: Entries, k: string, v: string)
    requires DistinctKeys(m)
    ensures Get(Set(m, k, v), k) == Some(v)
  {
    SetKeepsDistinct(m, k, v);
    if k in Keys(m) {
      var i :| 0 <= i < |m| && Keys(m)[i] == k;
      GetAt(Set(m, k, v), k, i);
    } else {
      GetAt(Set(m, k, v), k, |m|);
    }
  }

  lemma SetGetOther(m: Entries, k: string, v: string, k': string)
    requires DistinctKeys(m)
    requires k' != k
    ensures Get(Set(m, k, v), k') == Get(m, k')
  {
    var r := Set(m, k, v);
    SetKeys(m, k, v);
    SetKeepsDistinct(m, k, v);
    if k' in Keys(m) {
      var j :| 0 <= j < |m| && Keys(m)[j] == k';
      assert r[j] == m[j];
      GetAt(r, k', j);
      GetAt(m, k', j);
    } else {
      assert k' !in Keys(r);
    }
  }

  /**
   * What `Set` does on a map with distinct keys, as `Map.prototype.set`
   * promises: the key order is kept and a new key goes last; `k` now maps to
   * `v`; every other key keeps its value; keys stay distinct.
   */
  lemma SetSemantics(m: Entries, k: string, v: string)
    requires DistinctKeys(m)
    ensures Keys(Set(m, k, v)) == if k in Keys(m) then Keys(m) else Keys(m) + [k]
    ensures DistinctKeys(Set(m, k, v))
    ensures Get(Set(m, k, v), k) == Some(v)
    ensures forall k' :: k' != k ==> Get(Set(m, k, v), k') == Get(m, k')
  {
    var r := Set(m, k, v);
    SetKeys(m, k, v);
    SetKeepsDistinct(m, k, v);
    SetGetSame(m, k, v);
    forall k' | k' != k
      ensures Get(r, k') == Get(m, k')
    {
      SetGetOther(m, k, v, k');
    }
  }

  /** Two maps with the same keys in the same order and the same lookups are equal. */
  lemma Extensionality(a: Entries, b: Entries)
    requires DistinctKeys(a)
    requires Keys(a) == Keys(b)
    requires forall k :: Get(a, k) == Get(b, k)
    ensures a == b
  {
    assert |a| == |Keys(a)| == |Keys(b)| == |b|;
    forall i | 0 <= i < |a|
      ensures a[i] == b[i]
    {
      assert Keys(a)[i] == a[i].0 && Keys(b)[i] == b[i].0;
      assert DistinctKeys(b) by {
        forall p, q | 0 <= p < q < |b| ensures b[p].0 != b[q].0 {
          assert Keys(a)[p] == b[p].0 && Keys(a)[q] == b[q].0;
        }
      }
      GetAt(a, a[i].0, i);
      GetAt(b, b[i].0, i);
    }
  }
}
