/** Python dictionaries keep insertion order, and the program iterates over them;
    they are modelled as association lists with distinct keys. `Put` is Python's
    `d[k] = v`: it replaces the value of an existing key in place and appends a
    new key at the end. */
module Dicts {

  datatype Option<T> = None | Some(value: T)

  predicate DistinctKeys<K(==), V>(d: seq<(K, V)>)
  {
    forall i, j :: 0 <= i < j < |d| ==> d[i].0 != d[j].0
  }

  type Dict<K(==), V> = d: seq<(K, V)> | DistinctKeys(d) witness []

  function Keys<K, V>(d: seq<(K, V)>): set<K>
  {
    if d == [] then {} else {d[0].0} + Keys(d[1..])
  }

  lemma {:induction false} KeysIndex<K, V>(d: seq<(K, V)>, k: K)
    ensures k in Keys(d) <==> exists i :: 0 <= i < |d| && d[i].0 == k
  {
    if d != [] {
      KeysIndex(d[1..], k);
      if k in Keys(d[1..]) {
        var i :| 0 <= i < |d[1..]| && d[1..][i].0 == k;
        assert d[i + 1].0 == k;
      }
      if exists i :: 0 <= i < |d| && d[i].0 == k {
        var i :| 0 <= i < |d| && d[i].0 == k;
        if i > 0 {
          assert d[1..][i - 1].0 == k;
        }
      }
    }
  }

  /** `d[k]` for a key that is present (the first entry if keys repeat). */
  function Get<K(==), V>(d: seq<(K, V)>, k: K): V
    requires k in Keys(d)
  {
    if d[0].0 == k then d[0].1 else Get(d[1..], k)
  }

  /** `d.get(k, default)`. */
  function GetOr<K(==), V>(d: seq<(K, V)>, k: K, default: V): V
  {
    if k in Keys(d) then Get(d, k) else default
  }

  lemma {:induction false} GetIndex<K, V>(d: seq<(K, V)>, i: nat)
    requires DistinctKeys(d) && i < |d|
    ensures d[i].0 in Keys(d) && Get(d, d[i].0) == d[i].1
  {
    KeysIndex(d, d[i].0);
    if i > 0 {
      assert d[1..][i - 1] == d[i];
      GetIndex(d[1..], i - 1);
    }
  }

  /** `d[k] = v`. */
  function Put<K(==), V>(d: seq<(K, V)>, k: K, v: V): (r: seq<(K, V)>)
    ensures Keys(r) == Keys(d) + {k}
    ensures |r| == if k in Keys(d) then |d| else |d| + 1
    ensures Get(r, k) == v
    ensures forall k' :: k' in Keys(d) && k' != k ==> Get(r, k') == Get(d, k')
    ensures DistinctKeys(d) ==> DistinctKeys(r)
    ensures k !in Keys(d) ==> r == d + [(k, v)]
  {
    if d == [] then [(k, v)]
    else if d[0].0 == k then
      PutHeadDistinct(d, k, v);
      [(k, v)] + d[1..]
    else
      var t := Put(d[1..], k, v);
      PutTailDistinct(d, k, t);
      [d[0]] + t
  }

  /** The distinctness part of `Put`'s contract when the key is at the head. */
  lemma PutHeadDistinct<K, V>(d: seq<(K, V)>, k: K, v: V)
    requires d != [] && d[0].0 == k
    ensures DistinctKeys(d) ==> DistinctKeys([(k, v)] + d[1..])
  {
    if DistinctKeys(d) {
      forall i, j | 0 <= i < j < |d| ensures ([(k, v)] + d[1..])[i].0 != ([(k, v)] + d[1..])[j].0 {
        assert ([(k, v)] + d[1..])[i].0 == d[i].0;
        assert ([(k, v)] + d[1..])[j].0 == d[j].0;
      }
    }
  }

  /** The distinctness part of `Put`'s contract when the key is further down. */
  lemma PutTailDistinct<K, V>(d: seq<(K, V)>, k: K, t: seq<(K, V)>)
    requires d != [] && d[0].0 != k
    requires Keys(t) == Keys(d[1..]) + {k}
    requires DistinctKeys(d[1..]) ==> DistinctKeys(t)
    ensures DistinctKeys(d) ==> DistinctKeys([d[0]] + t)
  {
    if DistinctKeys(d) {
      assert DistinctKeys(d[1..]) by {
        forall i, j | 0 <= i < j < |d[1..]| ensures d[1..][i].0 != d[1..][j].0 {
          assert d[1..][i] == d[i + 1] && d[1..][j] == d[j + 1];
        }
      }
      KeysIndex(d[1..], d[0].0);
      forall i | 0 <= i < |d[1..]| ensures d[1..][i].0 != d[0].0 {
        assert d[1..][i] == d[i + 1];
      }
      ConsDistinct(d[0], t);
    }
  }

  /** A present key's value is the value of one of the entries. */
  lemma {:induction false} GetMember<K, V>(d: seq<(K, V)>, k: K)
    requires k in Keys(d)
    ensures (k, Get(d, k)) in d
  {
    if d[0].0 != k {
      GetMember(d[1..], k);
    }
  }

  /** A second assignment to the same key overrides the first and keeps its position. */
  lemma {:induction false} PutTwice<K, V>(d: seq<(K, V)>, k: K, a: V, b: V)
    ensures Put(Put(d, k, a), k, b) == Put(d, k, b)
  {
    if d != [] && d[0].0 != k {
      PutTwice(d[1..], k, a, b);
    }
  }

  /** Keys are distinct as soon as a list's head is new to its (distinct) tail. */
  lemma ConsDistinct<K, V>(x: (K, V), t: seq<(K, V)>)
    requires DistinctKeys(t) && x.0 !in Keys(t)
    ensures DistinctKeys([x] + t)
  {
    forall j | 0 <= j < |t| ensures t[j].0 != x.0 {
      KeysIndex(t, t[j].0);
    }
  }

  /** The keys of `d` in insertion order (`list(d.keys())`). */
  function KeySeq<K(==), V>(d: seq<(K, V)>): (r: seq<K>)
    ensures |r| == |d| && forall i :: 0 <= i < |d| ==> r[i] == d[i].0
  {
    seq(|d|, i requires 0 <= i < |d| => d[i].0)
  }

  /** The values of `d` in insertion order (`list(d.values())`). */
  function ValueSeq<K(==), V>(d: seq<(K, V)>): (r: seq<V>)
    ensures |r| == |d| && forall i :: 0 <= i < |d| ==> r[i] == d[i].1
  {
    seq(|d|, i requires 0 <= i < |d| => d[i].1)
  }

  // --------------------------------------------------------------- ZipDict

  /** `f` applied to every element, in order. */
  function MapSeq<A, B>(xs: seq<A>, f: A -> B): (r: seq<B>)
    ensures |r| == |xs| && forall i :: 0 <= i < |xs| ==> r[i] == f(xs[i])
  {
    seq(|xs|, i requires 0 <= i < |xs| => f(xs[i]))
  }

  /** The dictionary obtained by storing each value under its key, in order, starting from
      the empty dictionary. */
  function ZipDict<K(==), V>(keys: seq<K>, vals: seq<V>): (r: Dict<K, V>)
    requires |keys| == |vals|
    ensures Keys(r) == set k | k in keys
  {
    if keys == [] then []
    else
      var n := |keys| - 1;
      var r := ZipDict(keys[..n], vals[..n]);
      assert keys == keys[..n] + [keys[n]];
      Put(r, keys[n], vals[n])
  }

  /** One more step of the assignment loop. */
  lemma ZipDictStep<K, V>(keys: seq<K>, vals: seq<V>, i: nat)
    requires |keys| == |vals| && i < |keys|
    ensures ZipDict(keys[..i + 1], vals[..i + 1]) == Put(ZipDict(keys[..i], vals[..i]), keys[i], vals[i])
  {
    assert keys[..i + 1][..i] == keys[..i];
    assert vals[..i + 1][..i] == vals[..i];
  }

  /** `i` is the last position at which `k` occurs in `keys`. */
  predicate IsLastIndex<K(==)>(keys: seq<K>, k: K, i: int)
  {
    0 <= i < |keys| && keys[i] == k && forall j :: i < j < |keys| ==> keys[j] != k
  }

  /** Later assignments to the same key win. */
  lemma {:induction false} ZipDictGet<K, V>(keys: seq<K>, vals: seq<V>, i: int)
    requires |keys| == |vals| && 0 <= i < |keys| && IsLastIndex(keys, keys[i], i)
    ensures keys[i] in Keys(ZipDict(keys, vals)) && Get(ZipDict(keys, vals), keys[i]) == vals[i]
  {
    var n := |keys| - 1;
    var r := ZipDict(keys[..n], vals[..n]);
    assert ZipDict(keys, vals) == Put(r, keys[n], vals[n]);
    if i < n {
      assert keys[..n][i] == keys[i] && vals[..n][i] == vals[i];
      assert IsLastIndex(keys[..n], keys[i], i);
      ZipDictGet(keys[..n], vals[..n], i);
      assert keys[n] != keys[i];
    }
  }

  /** No element of `xs` occurs twice. */
  predicate Distinct<K(==)>(xs: seq<K>)
  {
    forall i, j :: 0 <= i < j < |xs| ==> xs[i] != xs[j]
  }

  /** `keys` appended to `acc` in order, skipping the ones already there. */
  function AddNew<K(==,!new)>(acc: seq<K>, keys: seq<K>): (r: seq<K>)
    ensures forall f: K :: f in r <==> f in acc || f in keys
    ensures Distinct(acc) ==> Distinct(r)
    ensures |acc| <= |r| && r[..|acc|] == acc
  {
    if keys == [] then acc
    else
      var n := |keys| - 1;
      var a := AddNew(acc, keys[..n]);
      assert forall f :: f in keys <==> f in keys[..n] || f == keys[n] by {
        assert keys == keys[..n] + [keys[n]];
      }
      if keys[n] in a then a else a + [keys[n]]
  }

  /** One more key for `AddNew`. */
  lemma AddNewStep<K(!new)>(acc: seq<K>, keys: seq<K>, j: nat)
    requires j < |keys|
    ensures AddNew(acc, keys[..j + 1])
         == if keys[j] in AddNew(acc, keys[..j]) then AddNew(acc, keys[..j])
            else AddNew(acc, keys[..j]) + [keys[j]]
  {
    assert keys[..j + 1][..j] == keys[..j];
  }

  /** A key not seen before is appended at the end. */
  lemma ZipDictSnoc<K, V>(keys: seq<K>, vals: seq<V>)
    requires |keys| == |vals| && keys != [] && Distinct(keys)
    ensures ZipDict(keys, vals)
         == ZipDict(keys[..|keys| - 1], vals[..|keys| - 1]) + [(keys[|keys| - 1], vals[|keys| - 1])]
  {
    var n := |keys| - 1;
    assert keys[n] !in keys[..n];
  }

  /** With distinct keys, `ZipDict` lists the pairs in their original order. */
  lemma {:induction false} ZipDictDistinct<K, V>(keys: seq<K>, vals: seq<V>)
    requires |keys| == |vals| && Distinct(keys)
    ensures ZipDict(keys, vals) == seq(|keys|, i requires 0 <= i < |keys| => (keys[i], vals[i]))
  {
    if keys != [] {
      var n := |keys| - 1;
      assert Distinct(keys[..n]) by {
        forall i, j | 0 <= i < j < n ensures keys[..n][i] != keys[..n][j] {
          assert keys[..n][i] == keys[i] && keys[..n][j] == keys[j];
        }
      }
      ZipDictDistinct(keys[..n], vals[..n]);
      ZipDictSnoc(keys, vals);
    }
  }

  // ----------------------------------------------------------------- sums

  function Sum(xs: seq<real>): real
  {
    if xs == [] then 0.0 else xs[0] + Sum(xs[1..])
  }

  lemma {:induction false} SumAppend(xs: seq<real>, x: real)
    ensures Sum(xs + [x]) == Sum(xs) + x
  {
    if xs != [] {
      assert (xs + [x])[1..] == xs[1..] + [x];
      SumAppend(xs[1..], x);
    }
  }
}
