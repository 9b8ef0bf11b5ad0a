/** Python's `sorted` on `(item, value)` pairs, keyed by the value, in reverse order:
    a stable sort by descending value. Stability is stated by values: for every value,
    the pairs carrying it come out in the order they went in. */
module StableSort {

  /** Values never increase from left to right. */
  predicate SortedDesc<T>(s: seq<(T, real)>)
  {
    forall i, j :: 0 <= i < j < |s| ==> s[i].1 >= s[j].1
  }

  /** The pairs of `s` whose value is `k`, in their order in `s`. */
  function WithValue<T>(s: seq<(T, real)>, k: real): seq<(T, real)>
  {
    if s == [] then [] else (if s[0].1 == k then [s[0]] else []) + WithValue(s[1..], k)
  }

  /** Places `x` after every pair with a larger value and before the rest. */
  function Insert<T>(x: (T, real), s: seq<(T, real)>): seq<(T, real)>
  {
    if s == [] || s[0].1 <= x.1 then [x] + s else [s[0]] + Insert(x, s[1..])
  }

  /** The pairs in descending order of their value, ties in input order (Python's stable sort
      with `reverse=True`). */
  function SortDesc<T>(s: seq<(T, real)>): seq<(T, real)>
  {
    if s == [] then [] else Insert(s[0], SortDesc(s[1..]))
  }

  lemma {:induction false} InsertLength<T>(x: (T, real), s: seq<(T, real)>)
    ensures |Insert(x, s)| == |s| + 1
  {
    if s != [] && s[0].1 > x.1 {
      InsertLength(x, s[1..]);
    }
  }

  lemma {:induction false} InsertMultiset<T>(x: (T, real), s: seq<(T, real)>)
    ensures multiset(Insert(x, s)) == multiset{x} + multiset(s)
  {
    if s != [] && s[0].1 > x.1 {
      InsertMultiset(x, s[1..]);
      assert s == [s[0]] + s[1..];
    }
  }

  /** The first value of an insertion is the larger of `x`'s and the old first value. */
  lemma InsertHead<T>(x: (T, real), s: seq<(T, real)>)
    ensures Insert(x, s) != []
    ensures Insert(x, s)[0].1 == if s == [] || s[0].1 <= x.1 then x.1 else s[0].1
  {
  }

  lemma {:induction false} InsertSorted<T>(x: (T, real), s: seq<(T, real)>)
    requires SortedDesc(s)
    ensures SortedDesc(Insert(x, s))
  {
    if s != [] && s[0].1 > x.1 {
      assert SortedDesc(s[1..]) by {
        forall i, j | 0 <= i < j < |s[1..]| ensures s[1..][i].1 >= s[1..][j].1 {
          assert s[1..][i] == s[i + 1] && s[1..][j] == s[j + 1];
        }
      }
      InsertSorted(x, s[1..]);
      var t := Insert(x, s[1..]);
      InsertHead(x, s[1..]);
      forall j | 0 < j < |[s[0]] + t| ensures s[0].1 >= ([s[0]] + t)[j].1 {
        assert ([s[0]] + t)[j] == t[j - 1];
        assert t[0].1 <= s[0].1 by {
          if s[1..] != [] {
            assert s[1..][0] == s[1];
          }
        }
      }
    }
  }

  /** Inserting `x` adds it in front of the pairs sharing its value and leaves the others. */
  lemma {:induction false} InsertWithValue<T>(x: (T, real), s: seq<(T, real)>, k: real)
    ensures WithValue(Insert(x, s), k) == (if x.1 == k then [x] else []) + WithValue(s, k)
  {
    if s == [] || s[0].1 <= x.1 {
      WithValueCons(x, s, k);
    } else {
      InsertWithValue(x, s[1..], k);
      WithValueCons(s[0], Insert(x, s[1..]), k);
      WithValueCons(s[0], s[1..], k);
      assert [s[0]] + s[1..] == s;
    }
  }

  /** The pairs with value `k` of a sequence with one more pair in front. */
  lemma WithValueCons<T>(y: (T, real), t: seq<(T, real)>, k: real)
    ensures WithValue([y] + t, k) == (if y.1 == k then [y] else []) + WithValue(t, k)
  {
    assert ([y] + t)[0] == y && ([y] + t)[1..] == t;
  }

  /** `SortDesc` returns a permutation of its input, sorted by descending value, that keeps
      the input order among pairs of equal value. */
  lemma {:induction false} SortDescSpec<T>(s: seq<(T, real)>)
    ensures |SortDesc(s)| == |s|
    ensures SortedDesc(SortDesc(s))
    ensures multiset(SortDesc(s)) == multiset(s)
    ensures forall k :: WithValue(SortDesc(s), k) == WithValue(s, k)
  {
    if s != [] {
      SortDescSpec(s[1..]);
      InsertLength(s[0], SortDesc(s[1..]));
      InsertSorted(s[0], SortDesc(s[1..]));
      InsertMultiset(s[0], SortDesc(s[1..]));
      assert s == [s[0]] + s[1..];
      forall k ensures WithValue(SortDesc(s), k) == WithValue(s, k) {
        InsertWithValue(s[0], SortDesc(s[1..]), k);
      }
    }
  }

  /** The items of the pairs, in order. */
  function Firsts<T>(s: seq<(T, real)>): (r: seq<T>)
    ensures |r| == |s| && forall i :: 0 <= i < |s| ==> r[i] == s[i].0
  {
    if s == [] then [] else [s[0].0] + Firsts(s[1..])
  }

  lemma {:induction false} InsertFirsts<T>(x: (T, real), s: seq<(T, real)>)
    ensures multiset(Firsts(Insert(x, s))) == multiset{x.0} + multiset(Firsts(s))
  {
    if s != [] && s[0].1 > x.1 {
      InsertFirsts(x, s[1..]);
      assert ([s[0]] + Insert(x, s[1..]))[1..] == Insert(x, s[1..]);
    } else {
      assert ([x] + s)[1..] == s;
    }
  }

  /** Sorting moves the items around without adding or losing any. */
  lemma {:induction false} SortDescFirsts<T>(s: seq<(T, real)>)
    ensures multiset(Firsts(SortDesc(s))) == multiset(Firsts(s))
  {
    if s != [] {
      SortDescFirsts(s[1..]);
      InsertFirsts(s[0], SortDesc(s[1..]));
    }
  }

  /** `s[:n]` with Python's slicing rules: a negative `n` drops that many from the end. */
  function Take<T>(s: seq<T>, n: int): (r: seq<T>)
    ensures |r| == if n >= 0 then (if n <= |s| then n else |s|) else (if |s| + n >= 0 then |s| + n else 0)
    ensures r == s[..|r|]
  {
    if n >= 0 then (if n <= |s| then s[..n] else s)
    else if |s| + n >= 0 then s[..|s| + n] else []
  }

  /** A prefix of a sorted sequence is sorted. */
  lemma SortedPrefix<T>(s: seq<(T, real)>, n: nat)
    requires SortedDesc(s) && n <= |s|
    ensures SortedDesc(s[..n])
  {
    forall i, j | 0 <= i < j < n ensures s[..n][i].1 >= s[..n][j].1 {
      assert s[..n][i] == s[i] && s[..n][j] == s[j];
    }
  }
}
