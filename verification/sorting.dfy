/**
 * Python's `sorted(xs, key=k, reverse=True)`: a stable sort into
 * non-increasing key order. Stability is stated key by key: the elements
 * sharing a key appear in the output in the same order as in the input.
 */
module Sorting {
  predicate SortedDesc<T>(s: seq<T>, key: T -> int) {
    forall i, j :: 0 <= i < j < |s| ==> key(s[i]) >= key(s[j])
  }

  /** The elements of `s` whose key is `k`, in their order in `s`. */
  function WithKey<T>(s: seq<T>, key: T -> int, k: int): seq<T> {
    if s == [] then []
    else WithKey(s[..|s| - 1], key, k) + (if key(s[|s| - 1]) == k then [s[|s| - 1]] else [])
  }

  /** Places `x` after every element whose key is at least `key(x)`. */
  function Insert<T>(s: seq<T>, x: T, key: T -> int): (r: seq<T>)
    ensures |r| == |s| + 1
  {
    if s == [] then [x]
    else if key(s[|s| - 1]) >= key(x) then s + [x]
    else Insert(s[..|s| - 1], x, key) + [s[|s| - 1]]
  }

  function SortDesc<T>(s: seq<T>, key: T -> int): (r: seq<T>)
    ensures |r| == |s|
  {
    if s == [] then [] else Insert(SortDesc(s[..|s| - 1], key), s[|s| - 1], key)
  }

  /** `s[:n]` */
  function Take<T>(s: seq<T>, n: nat): (r: seq<T>)
    ensures |r| == if n < |s| then n else |s|
    ensures r <= s
  {
    if n < |s| then s[..n] else s
  }

  lemma {:induction false} InsertPermutes<T>(s: seq<T>, x: T, key: T -> int)
    ensures multiset(Insert(s, x, key)) == multiset(s) + multiset{x}
  {
    if s != [] && key(s[|s| - 1]) < key(x) {
      InsertPermutes(s[..|s| - 1], x, key);
      assert s == s[..|s| - 1] + [s[|s| - 1]];
    }
  }

  lemma {:induction false} InsertLowerBound<T>(s: seq<T>, x: T, key: T -> int, b: int)
    requires forall i :: 0 <= i < |s| ==> key(s[i]) >= b
    requires key(x) >= b
    ensures forall i :: 0 <= i < |Insert(s, x, key)| ==> key(Insert(s, x, key)[i]) >= b
  {
    if s != [] && key(s[|s| - 1]) < key(x) {
      var init := s[..|s| - 1];
      InsertLowerBound(init, x, key, b);
      assert Insert(s, x, key) == Insert(init, x, key) + [s[|s| - 1]];
    }
  }

  lemma {:induction false} InsertSorted<T>(s: seq<T>, x: T, key: T -> int)
    requires SortedDesc(s, key)
    ensures SortedDesc(Insert(s, x, key), key)
  {
    if s != [] && key(s[|s| - 1]) < key(x) {
      var init, last := s[..|s| - 1], s[|s| - 1];
      InsertSorted(init, x, key);
      InsertLowerBound(init, x, key, key(last));
      assert Insert(s, x, key) == Insert(init, x, key) + [last];
    }
  }

  lemma {:induction false} WithKeyAppend<T>(a: seq<T>, b: seq<T>, key: T -> int, k: int)
    ensures WithKey(a + b, key, k) == WithKey(a, key, k) + WithKey(b, key, k)
    decreases |b|
  {
    if b == [] {
      assert a + b == a;
    } else {
      assert (a + b)[..|a + b| - 1] == a + b[..|b| - 1];
      WithKeyAppend(a, b[..|b| - 1], key, k);
    }
  }

  lemma {:induction false} InsertWithKey<T>(s: seq<T>, x: T, key: T -> int, k: int)
    ensures WithKey(Insert(s, x, key), key, k) == WithKey(s, key, k) + WithKey([x], key, k)
  {
    if s == [] {
      assert WithKey([x], key, k) == WithKey([], key, k) + WithKey([x], key, k);
    } else if key(s[|s| - 1]) >= key(x) {
      WithKeyAppend(s, [x], key, k);
    } else {
      var init, last := s[..|s| - 1], s[|s| - 1];
      InsertWithKey(init, x, key, k);
      WithKeyAppend(Insert(init, x, key), [last], key, k);
      WithKeyAppend(init, [last], key, k);
      assert init + [last] == s;
      assert [x][..0] == [] && [last][..0] == [];
    }
  }

  /** The sort is a permutation of its input. */
  lemma {:induction false} SortDescPermutes<T>(s: seq<T>, key: T -> int)
    ensures multiset(SortDesc(s, key)) == multiset(s)
  {
    if s != [] {
      SortDescPermutes(s[..|s| - 1], key);
      InsertPermutes(SortDesc(s[..|s| - 1], key), s[|s| - 1], key);
      assert s == s[..|s| - 1] + [s[|s| - 1]];
    }
  }

  /** The output is in non-increasing key order. */
  lemma {:induction false} SortDescSorted<T>(s: seq<T>, key: T -> int)
    ensures SortedDesc(SortDesc(s, key), key)
  {
    if s != [] {
      SortDescSorted(s[..|s| - 1], key);
      InsertSorted(SortDesc(s[..|s| - 1], key), s[|s| - 1], key);
    }
  }

  /** Stability: the elements sharing any one key keep their input order. */
  lemma {:induction false} SortDescStable<T>(s: seq<T>, key: T -> int, k: int)
    ensures WithKey(SortDesc(s, key), key, k) == WithKey(s, key, k)
  {
    if s != [] {
      var init, last := s[..|s| - 1], s[|s| - 1];
      SortDescStable(init, key, k);
      InsertWithKey(SortDesc(init, key), last, key, k);
      WithKeyAppend(init, [last], key, k);
      assert init + [last] == s;
      assert [last][..0] == [];
    }
  }


  /**
   * `sorted(s, key=key, reverse=True)[:n]`: the n largest elements, in
   * non-increasing order, and every element left out has a key no larger
   * than any element kept.
   */
  lemma TopK<T>(s: seq<T>, key: T -> int, n: nat)
    ensures |Take(SortDesc(s, key), n)| == (if n < |s| then n else |s|)
    ensures SortedDesc(Take(SortDesc(s, key), n), key)
    ensures multiset(Take(SortDesc(s, key), n)) + multiset(SortDesc(s, key)[|Take(SortDesc(s, key), n)|..]) == multiset(s)
    ensures forall i, j :: 0 <= i < |Take(SortDesc(s, key), n)| <= j < |s| ==> key(Take(SortDesc(s, key), n)[i]) >= key(SortDesc(s, key)[j])
  {
    var sorted := SortDesc(s, key);
    SortDescSorted(s, key);
    SortDescPermutes(s, key);
    var top := Take(sorted, n);
    assert sorted == top + sorted[|top|..];
  }

  lemma {:induction false} WithKeyNone<T>(s: seq<T>, key: T -> int, k: int)
    ensures WithKey(s, key, k) == [] <==> forall j :: 0 <= j < |s| ==> key(s[j]) != k
  {
    if s != [] {
      WithKeyNone(s[..|s| - 1], key, k);
      assert forall j :: 0 <= j < |s| - 1 ==> s[..|s| - 1][j] == s[j];
    }
  }

  lemma {:induction false} WithKeyFirst<T>(s: seq<T>, key: T -> int, k: int)
    requires WithKey(s, key, k) != []
    ensures exists i :: 0 <= i < |s| && s[i] == WithKey(s, key, k)[0] && key(s[i]) == k &&
              (forall j :: 0 <= j < i ==> key(s[j]) != k)
  {
    var init := s[..|s| - 1];
    if WithKey(init, key, k) != [] {
      WithKeyFirst(init, key, k);
      var i :| 0 <= i < |init| && init[i] == WithKey(init, key, k)[0] && key(init[i]) == k &&
               (forall j :: 0 <= j < i ==> key(init[j]) != k);
      assert s[i] == init[i];
      assert forall j :: 0 <= j < i ==> s[j] == init[j];
    } else {
      WithKeyNone(init, key, k);
      assert forall j :: 0 <= j < |s| - 1 ==> s[j] == init[j];
    }
  }

  lemma {:induction false} WithKeyHead<T>(s: seq<T>, key: T -> int)
    requires s != []
    ensures WithKey(s, key, key(s[0])) != [] && WithKey(s, key, key(s[0]))[0] == s[0]
  {
    if |s| > 1 {
      WithKeyHead(s[..|s| - 1], key);
    }
  }

  /**
   * `sorted(s, key=key, reverse=True)[0]` is an element of largest key,
   * and the first such element of `s`.
   */
  lemma SortDescHead<T>(s: seq<T>, key: T -> int)
    requires s != []
    ensures forall j :: 0 <= j < |s| ==> key(s[j]) <= key(SortDesc(s, key)[0])
    ensures exists i :: 0 <= i < |s| && s[i] == SortDesc(s, key)[0] &&
              (forall j :: 0 <= j < i ==> key(s[j]) < key(s[i]))
  {
    var sorted := SortDesc(s, key);
    SortDescSorted(s, key);
    SortDescPermutes(s, key);
    var h := sorted[0];
    var k := key(h);
    forall j | 0 <= j < |s| ensures key(s[j]) <= k {
      assert s[j] in multiset(sorted);
      var m :| 0 <= m < |sorted| && sorted[m] == s[j];
    }
    WithKeyHead(sorted, key);
    SortDescStable(s, key, k);
    WithKeyFirst(s, key, k);
  }
}
