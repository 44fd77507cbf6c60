/** `Array.prototype.sort` with a comparator, as the components call it on
    fetched lists. Since ES2019 that sort is stable: elements the comparator
    calls equal keep their original relative order. `le(a, b)` stands for
    "the comparator of (a, b) is <= 0"; it is a total preorder for every
    comparator the components pass. The model is an insertion sort on values,
    specified by the three facts that determine a stable sort's output:
    sorted, a permutation, and stable. */
module Sorting {
  import opened Lists
  import JsStrings

  ghost predicate TotalPreorder<T(!new)>(le: (T, T) -> bool) {
    && (forall a, b :: le(a, b) || le(b, a))
    && (forall a, b, c :: le(a, b) && le(b, c) ==> le(a, c))
  }

  /** Puts `x` in front of the first element it is `le` to. */
  function Insert<T>(x: T, s: seq<T>, le: (T, T) -> bool): (r: seq<T>)
    ensures multiset(r) == multiset(s) + multiset{x}
    ensures |r| == |s| + 1
  {
    if s == [] || le(x, s[0]) then [x] + s
    else
      assert s == [s[0]] + s[1..];
      [s[0]] + Insert(x, s[1..], le)
  }

  /** The sorted list: a permutation of the input. */
  function SortBy<T>(s: seq<T>, le: (T, T) -> bool): (r: seq<T>)
    ensures multiset(r) == multiset(s)
    ensures |r| == |s|
  {
    if s == [] then []
    else
      assert s == [s[0]] + s[1..];
      Insert(s[0], SortBy(s[1..], le), le)
  }

  /** Sorting neither adds nor drops an element. */
  lemma SortByMembers<T>(s: seq<T>, le: (T, T) -> bool, x: T)
    ensures x in SortBy(s, le) <==> x in s
  {
    var r := SortBy(s, le);
    assert x in r <==> x in multiset(r);
    assert x in s <==> x in multiset(s);
  }

  lemma {:induction false} InsertSorted<T(!new)>(x: T, s: seq<T>, le: (T, T) -> bool)
    requires TotalPreorder(le) && Pairwise(s, le)
    ensures Pairwise(Insert(x, s, le), le)
  {
    if s == [] || le(x, s[0]) {
    } else {
      var rest := Insert(x, s[1..], le);
      InsertSorted(x, s[1..], le);
      forall y | y in rest ensures le(s[0], y) {
        assert y in multiset(rest);
        if y != x {
          assert y in multiset(s[1..]);
        }
      }
    }
  }

  /** The output is ordered by `le`. */
  lemma {:induction false} SortBySorted<T(!new)>(s: seq<T>, le: (T, T) -> bool)
    requires TotalPreorder(le)
    ensures Pairwise(SortBy(s, le), le)
  {
    if s != [] {
      SortBySorted(s[1..], le);
      InsertSorted(s[0], SortBy(s[1..], le), le);
    }
  }

  /** The elements of `s` that `le` ranks equal to `k`, in their order in `s`. */
  function EqualRun<T>(s: seq<T>, k: T, le: (T, T) -> bool): (r: seq<T>)
    ensures |r| <= |s|
  {
    if s == [] then []
    else (if le(k, s[0]) && le(s[0], k) then [s[0]] else []) + EqualRun(s[1..], k, le)
  }

  /** Equality is transitive: an element ranked strictly after `y` is not
      ranked equal to `k` when `y` is. */
  lemma EqualToBoth<T(!new)>(x: T, y: T, k: T, le: (T, T) -> bool)
    requires TotalPreorder(le) && !le(x, y)
    ensures !(le(k, x) && le(x, k)) || !(le(k, y) && le(y, k))
  {
  }

  lemma {:induction false} InsertEqualRun<T(!new)>(x: T, s: seq<T>, k: T, le: (T, T) -> bool)
    requires TotalPreorder(le)
    ensures EqualRun(Insert(x, s, le), k, le)
         == (if le(k, x) && le(x, k) then [x] else []) + EqualRun(s, k, le)
  {
    if s == [] || le(x, s[0]) {
      assert ([x] + s)[1..] == s;
    } else {
      var rest := Insert(x, s[1..], le);
      assert ([s[0]] + rest)[1..] == rest;
      InsertEqualRun(x, s[1..], k, le);
      EqualToBoth(x, s[0], k, le);
      var tail := EqualRun(s[1..], k, le);
      var c0 := if le(k, s[0]) && le(s[0], k) then [s[0]] else [];
      assert EqualRun(Insert(x, s, le), k, le) == c0 + EqualRun(rest, k, le);
      assert EqualRun(s, k, le) == c0 + tail;
      if le(k, x) && le(x, k) {
        assert c0 == [] && EqualRun(rest, k, le) == [x] + tail;
      } else {
        assert EqualRun(rest, k, le) == tail;
      }
    }
  }

  /** The sort is stable: each run of mutually equal elements keeps its order. */
  lemma {:induction false} SortByStable<T(!new)>(s: seq<T>, k: T, le: (T, T) -> bool)
    requires TotalPreorder(le)
    ensures EqualRun(SortBy(s, le), k, le) == EqualRun(s, k, le)
  {
    if s != [] {
      SortByStable(s[1..], k, le);
      InsertEqualRun(s[0], SortBy(s[1..], le), k, le);
    }
  }

  /** A list whose elements are all ranked equal is left as it is. */
  lemma {:induction false} SortAllEqualIsIdentity<T(!new)>(s: seq<T>, le: (T, T) -> bool)
    requires TotalPreorder(le)
    requires forall i, j :: 0 <= i < |s| && 0 <= j < |s| ==> le(s[i], s[j])
    ensures SortBy(s, le) == s
  {
    if s != [] {
      SortAllEqualIsIdentity(s[1..], le);
      assert s == [s[0]] + s[1..];
      if |s| > 1 {
        assert le(s[0], s[1]);
      }
    }
  }

  /** The comparator `(a, b) => a.name.localeCompare(b.name)`, as "a may come
      before b": code-point order of the names (see the README on collation). */
  function NameLe<T>(name: T -> string): (T, T) -> bool {
    (a, b) => JsStrings.LexLe(name(a), name(b))
  }

  lemma NameLeIsPreorder<T(!new)>(name: T -> string)
    ensures TotalPreorder(NameLe(name))
  {
    forall a, b ensures NameLe(name)(a, b) || NameLe(name)(b, a) {
      JsStrings.LexLeTotal(name(a), name(b));
    }
    forall a, b, c | NameLe(name)(a, b) && NameLe(name)(b, c) ensures NameLe(name)(a, c) {
      JsStrings.LexLeTransitive(name(a), name(b), name(c));
    }
  }

  /** A list sorted by name: a permutation of the input, alphabetical, and
      stable for equal names. */
  function SortByName<T(!new)>(s: seq<T>, name: T -> string): (r: seq<T>)
    ensures multiset(r) == multiset(s)
    ensures forall i, j :: 0 <= i < j < |r| ==> JsStrings.LexLe(name(r[i]), name(r[j]))
    ensures forall k :: EqualRun(r, k, NameLe(name)) == EqualRun(s, k, NameLe(name))
  {
    NameLeIsPreorder(name);
    SortBySorted(s, NameLe(name));
    forall k ensures EqualRun(SortBy(s, NameLe(name)), k, NameLe(name)) == EqualRun(s, k, NameLe(name)) {
      SortByStable(s, k, NameLe(name));
    }
    SortBy(s, NameLe(name))
  }
}
