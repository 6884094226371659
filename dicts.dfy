/** A Python dict keeps its keys in insertion order, and assigning to an
    existing key keeps that key where it was. The monitor relies on that
    order (a study's detail columns, the order categories are fetched in),
    so a dict is modelled here as an association list with distinct keys. */
module Dicts {
  import opened Wrappers

  type Dict<K, V> = seq<(K, V)>

  function Keys<K, V>(d: Dict<K, V>): set<K> {
    if d == [] then {} else {d[0].0} + Keys(d[1..])
  }

  lemma KeysAt<K, V>(d: Dict<K, V>, i: int)
    requires 0 <= i < |d|
    ensures d[i].0 in Keys(d)
  {
    if i > 0 { KeysAt(d[1..], i - 1); }
  }

  /** No key occurs twice, as in every Python dict. */
  predicate DistinctKeys<K(==), V>(d: Dict<K, V>) {
    forall i, j :: 0 <= i < j < |d| ==> d[i].0 != d[j].0
  }

  /** `d.get(k)`: the value stored under k, or None */
  function Get<K(==), V>(d: Dict<K, V>, k: K): (r: Option<V>)
    ensures r.Some? <==> k in Keys(d)
  {
    if d == [] then None
    else if d[0].0 == k then Some(d[0].1)
    else Get(d[1..], k)
  }

  /** The first entry under a key is the one `Get` finds. */
  lemma {:induction false} GetAt<K, V>(d: Dict<K, V>, i: int)
    requires 0 <= i < |d|
    requires forall j :: 0 <= j < i ==> d[j].0 != d[i].0
    ensures Get(d, d[i].0) == Some(d[i].1)
  {
    if i > 0 {
      GetAt(d[1..], i - 1);
    }
  }

  /** Every key is the key of some entry. */
  lemma {:induction false} KeyIndex<K, V>(d: Dict<K, V>, x: K) returns (j: int)
    requires x in Keys(d)
    ensures 0 <= j < |d| && d[j].0 == x
  {
    if d[0].0 == x {
      j := 0;
    } else {
      j := KeyIndex(d[1..], x);
      j := j + 1;
    }
  }

  /** `d[k] = v`: k maps to v, an existing key keeps its position, and a
      new key goes to the end. */
  function Put<K(==,!new), V>(d: Dict<K, V>, k: K, v: V): (r: Dict<K, V>)
    ensures Keys(r) == Keys(d) + {k}
    ensures Get(r, k) == Some(v)
    ensures |r| == |d| + (if k in Keys(d) then 0 else 1)
    ensures k !in Keys(d) ==> r == d + [(k, v)]
    ensures DistinctKeys(d) ==> DistinctKeys(r)
  {
    if d == [] then [(k, v)]
    else if d[0].0 == k then
      var r := [(k, v)] + d[1..];
      assert r[1..] == d[1..];
      assert DistinctKeys(d) ==> DistinctKeys(r) by {
        assert forall i :: 0 <= i < |d| ==> r[i].0 == d[i].0;
      }
      r
    else
      var t := Put(d[1..], k, v);
      PutBehindHead(d, k, v, t);
      [d[0]] + t
  }

  lemma PutBehindHead<K(!new), V>(d: Dict<K, V>, k: K, v: V, t: Dict<K, V>)
    requires d != [] && d[0].0 != k
    requires Keys(t) == Keys(d[1..]) + {k} && Get(t, k) == Some(v)
    requires |t| == |d[1..]| + (if k in Keys(d[1..]) then 0 else 1)
    requires k !in Keys(d[1..]) ==> t == d[1..] + [(k, v)]
    requires DistinctKeys(d[1..]) ==> DistinctKeys(t)
    ensures Keys([d[0]] + t) == Keys(d) + {k} && Get([d[0]] + t, k) == Some(v)
    ensures |[d[0]] + t| == |d| + (if k in Keys(d) then 0 else 1)
    ensures k !in Keys(d) ==> [d[0]] + t == d + [(k, v)]
    ensures DistinctKeys(d) ==> DistinctKeys([d[0]] + t)
  {
    var r := [d[0]] + t;
    assert r[1..] == t;
    assert k in Keys(d) <==> k in Keys(d[1..]);
    if k !in Keys(d) {
      assert d == [d[0]] + d[1..];
    }
    if DistinctKeys(d) {
      assert DistinctKeys(d[1..]);
      ConsDistinct(d, k, t);
    }
  }

  lemma ConsDistinct<K, V>(d: Dict<K, V>, k: K, t: Dict<K, V>)
    requires d != [] && d[0].0 != k && DistinctKeys(d)
    requires Keys(t) == Keys(d[1..]) + {k} && DistinctKeys(t)
    ensures DistinctKeys([d[0]] + t)
  {
    var r := [d[0]] + t;
    forall i, j | 0 <= i < j < |r| ensures r[i].0 != r[j].0 {
      if i == 0 {
        KeysAt(t, j - 1);
        if r[j].0 != k {
          var m := KeyIndex(d[1..], r[j].0);
          assert d[m + 1].0 == r[j].0;
        }
      } else {
        assert r[i].0 == t[i - 1].0 && r[j].0 == t[j - 1].0;
      }
    }
  }

  /** `d[k] = v` leaves every other key's value alone. */
  lemma {:induction false} PutOther<K(!new), V>(d: Dict<K, V>, k: K, v: V, other: K)
    requires other != k
    ensures Get(Put(d, k, v), other) == Get(d, other)
  {
    if d != [] && d[0].0 != k {
      PutOther(d[1..], k, v, other);
      assert Put(d, k, v)[1..] == Put(d[1..], k, v);
    }
  }

  /** The keys of a concatenation are the keys of its parts. */
  lemma {:induction false} KeysAppend<K, V>(a: Dict<K, V>, b: Dict<K, V>)
    ensures Keys(a + b) == Keys(a) + Keys(b)
  {
    if a == [] {
      assert a + b == b;
    } else {
      assert (a + b)[1..] == a[1..] + b;
      KeysAppend(a[1..], b);
    }
  }
}
