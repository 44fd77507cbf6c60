/** Keeping the elements of a list that have a given key, in list order: the
    shape of a `forEach` that pushes each element into the list of its key. */
module Lists {

  /** The elements `x` of `s` with `key(x) == k`, in their order in `s`. */
  function KeyFilter<T(!new), K(==)>(s: seq<T>, key: T -> K, k: K): (r: seq<T>)
    ensures forall x :: x in r <==> x in s && key(x) == k
    ensures |r| <= |s|
  {
    if s == [] then []
    else
      var last := s[|s| - 1];
      assert s == s[..|s| - 1] + [last];
      KeyFilter(s[..|s| - 1], key, k) + (if key(last) == k then [last] else [])
  }

  /** Pushing one more element extends exactly the list of its key. */
  lemma KeyFilterSnoc<T(!new), K>(s: seq<T>, x: T, key: T -> K, k: K)
    ensures KeyFilter(s + [x], key, k) == KeyFilter(s, key, k) + (if key(x) == k then [x] else [])
  {
    assert (s + [x])[..|s|] == s;
  }

  /** Each element with the key is kept as many times as it occurs; the others never. */
  lemma {:induction false} KeyFilterCounts<T(!new), K>(s: seq<T>, key: T -> K, k: K)
    ensures forall x :: multiset(KeyFilter(s, key, k))[x] == if key(x) == k then multiset(s)[x] else 0
  {
    if s != [] {
      var init, last := s[..|s| - 1], s[|s| - 1];
      assert s == init + [last];
      KeyFilterCounts(init, key, k);
    }
  }

  /** Filters with keys that agree everywhere keep the same elements. */
  lemma {:induction false} KeyFilterSameKeys<T(!new), K>(s: seq<T>, key1: T -> K, key2: T -> K, k: K)
    requires forall x :: key1(x) == key2(x)
    ensures KeyFilter(s, key1, k) == KeyFilter(s, key2, k)
  {
    if s != [] {
      KeyFilterSameKeys(s[..|s| - 1], key1, key2, k);
    }
  }

  /** When every element has the key, nothing is dropped. */
  lemma {:induction false} KeyFilterAll<T(!new), K>(s: seq<T>, key: T -> K, k: K)
    requires forall x :: x in s ==> key(x) == k
    ensures KeyFilter(s, key, k) == s
  {
    if s != [] {
      KeyFilterAll(s[..|s| - 1], key, k);
      assert s == s[..|s| - 1] + [s[|s| - 1]];
    }
  }

  /** `r` can be obtained from `s` by deleting elements, keeping the order of the rest. */
  predicate IsSubsequence<T(==)>(r: seq<T>, s: seq<T>)
    decreases |s|
  {
    if r == [] then true
    else if s == [] then false
    else
      || (r[|r| - 1] == s[|s| - 1] && IsSubsequence(r[..|r| - 1], s[..|s| - 1]))
      || IsSubsequence(r, s[..|s| - 1])
  }

  lemma {:induction false} IsSubsequenceReflexive<T>(s: seq<T>)
    ensures IsSubsequence(s, s)
  {
    if s != [] {
      IsSubsequenceReflexive(s[..|s| - 1]);
    }
  }

  /** Filtering deletes elements and keeps the order of those it keeps. */
  lemma {:induction false} KeyFilterIsSubsequence<T(!new), K>(s: seq<T>, key: T -> K, k: K)
    ensures IsSubsequence(KeyFilter(s, key, k), s)
  {
    if s != [] {
      var init := s[..|s| - 1];
      KeyFilterIsSubsequence(init, key, k);
      var r := KeyFilter(s, key, k);
      if key(s[|s| - 1]) == k {
        assert r[..|r| - 1] == KeyFilter(init, key, k);
      } else {
        assert r == KeyFilter(init, key, k);
      }
    }
  }

  /** When every key is one of three distinct values, the three lists together
      are a permutation of the input. */
  lemma {:induction false} KeyFilterPartition3<T(!new), K>(s: seq<T>, key: T -> K, a: K, b: K, c: K)
    requires a != b && b != c && a != c
    requires forall x :: key(x) == a || key(x) == b || key(x) == c
    ensures multiset(KeyFilter(s, key, a)) + multiset(KeyFilter(s, key, b)) + multiset(KeyFilter(s, key, c))
         == multiset(s)
  {
    if s != [] {
      var init := s[..|s| - 1];
      var last := s[|s| - 1];
      assert s == init + [last];
      KeyFilterPartition3(init, key, a, b, c);
      KeyFilterSnoc(init, last, key, a);
      KeyFilterSnoc(init, last, key, b);
      KeyFilterSnoc(init, last, key, c);
    }
  }

  /** Every ordered pair of positions satisfies `P`. */
  predicate Pairwise<T>(s: seq<T>, P: (T, T) -> bool) {
    forall i, j :: 0 <= i < j < |s| ==> P(s[i], s[j])
  }

  lemma ConcatPairwise<T>(a: seq<T>, b: seq<T>, P: (T, T) -> bool)
    requires Pairwise(a, P) && Pairwise(b, P)
    requires forall x, y :: x in a && y in b ==> P(x, y)
    ensures Pairwise(a + b, P)
  {
    var r := a + b;
    forall i, j | 0 <= i < j < |r| ensures P(r[i], r[j]) {
      if j < |a| {
        assert r[i] == a[i] && r[j] == a[j];
      } else if i >= |a| {
        assert r[i] == b[i - |a|] && r[j] == b[j - |a|];
      } else {
        assert r[i] == a[i] && r[j] == b[j - |a|];
      }
    }
  }

  /** Dropping the last element of a pairwise list keeps it pairwise, and the
      last element is related to every earlier one. */
  lemma PairwiseSnoc<T>(s: seq<T>, P: (T, T) -> bool)
    requires Pairwise(s, P) && s != []
    ensures Pairwise(s[..|s| - 1], P)
    ensures var init := s[..|s| - 1]; forall x :: x in init ==> P(x, s[|s| - 1])
  {
    var init, last := s[..|s| - 1], s[|s| - 1];
    forall i, j | 0 <= i < j < |init| ensures P(init[i], init[j]) {
      assert init[i] == s[i] && init[j] == s[j];
    }
    forall x | x in init ensures P(x, last) {
      var i :| 0 <= i < |init| && init[i] == x;
      assert s[i] == x;
    }
  }

  /** Keeping some elements keeps every pairwise relation among them. */
  lemma {:induction false} KeyFilterPairwise<T(!new), K>(s: seq<T>, key: T -> K, k: K, P: (T, T) -> bool)
    requires Pairwise(s, P)
    ensures Pairwise(KeyFilter(s, key, k), P)
  {
    if s != [] {
      var init, last := s[..|s| - 1], s[|s| - 1];
      PairwiseSnoc(s, P);
      KeyFilterPairwise(init, key, k, P);
      var f, tail := KeyFilter(init, key, k), if key(last) == k then [last] else [];
      assert KeyFilter(s, key, k) == f + tail;
      assert forall x :: x in f ==> x in init;
      ConcatPairwise(f, tail, P);
    }
  }
}
