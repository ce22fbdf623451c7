/** Stable insertion sort over any comparison, and sorting of strikes by a key. */
module Sorting {
  import opened Sequences

  /** x goes behind every element that it does not have to precede. */
  function Insert<T(==)>(before: (T, T) -> bool, x: T, s: seq<T>): seq<T>
  {
    if s == [] || !before(x, s[|s| - 1]) then s + [x]
    else Insert(before, x, s[..|s| - 1]) + [s[|s| - 1]]
  }

  function Sort<T(==)>(before: (T, T) -> bool, s: seq<T>): seq<T>
  {
    if s == [] then [] else Insert(before, s[|s| - 1], Sort(before, s[..|s| - 1]))
  }

  predicate Sorted<T>(before: (T, T) -> bool, s: seq<T>)
  {
    forall i, j :: 0 <= i < j < |s| ==> !before(s[j], s[i])
  }

  /** On these three the comparison is asymmetric, and not preceding is transitive. */
  predicate Coherent<T>(before: (T, T) -> bool, a: T, b: T, c: T)
  {
    && (before(a, b) ==> !before(b, a))
    && (!before(b, a) && !before(c, b) ==> !before(c, a))
  }

  /** The comparison orders everything up to ties. */
  ghost predicate WeakOrder<T(!new)>(before: (T, T) -> bool) { forall a, b, c :: Coherent(before, a, b, c) }

  lemma {:induction false} InsertContent<T>(before: (T, T) -> bool, x: T, s: seq<T>)
    ensures |Insert(before, x, s)| == |s| + 1
    ensures multiset(Insert(before, x, s)) == multiset(s) + multiset{x}
  {
    if s != [] && before(x, s[|s| - 1]) {
      InsertContent(before, x, s[..|s| - 1]);
      MultisetLast(s);
    }
  }

  lemma InsertMember<T>(before: (T, T) -> bool, x: T, s: seq<T>, y: T)
    ensures y in Insert(before, x, s) <==> y == x || y in s
  {
    InsertContent(before, x, s);
    assert y in Insert(before, x, s) <==> y in multiset(Insert(before, x, s));
    assert y in s <==> y in multiset(s);
  }

  lemma {:induction false} InsertSorted<T(!new)>(before: (T, T) -> bool, x: T, s: seq<T>)
    requires WeakOrder(before) && Sorted(before, s)
    ensures Sorted(before, Insert(before, x, s))
  {
    var n := |s| - 1;
    if s == [] {
    } else if before(x, s[n]) {
      var r := Insert(before, x, s[..n]);
      InsertSorted(before, x, s[..n]);
      assert Coherent(before, x, s[n], x);
      forall i | 0 <= i < |r| ensures !before(s[n], r[i]) {
        assert r[i] in r;
        InsertMember(before, x, s[..n], r[i]);
      }
    } else {
      forall i | 0 <= i < n ensures !before(x, s[i]) {
        assert Coherent(before, s[i], s[n], x);
      }
    }
  }

  /** Sorting keeps every element as often as it was there. */
  lemma {:induction false} SortContent<T>(before: (T, T) -> bool, s: seq<T>)
    ensures |Sort(before, s)| == |s| && multiset(Sort(before, s)) == multiset(s)
  {
    if s != [] {
      SortContent(before, s[..|s| - 1]);
      InsertContent(before, s[|s| - 1], Sort(before, s[..|s| - 1]));
      MultisetLast(s);
    }
  }

  lemma {:induction false} SortSorted<T(!new)>(before: (T, T) -> bool, s: seq<T>)
    requires WeakOrder(before)
    ensures Sorted(before, Sort(before, s))
  {
    if s != [] {
      SortSorted(before, s[..|s| - 1]);
      InsertSorted(before, s[|s| - 1], Sort(before, s[..|s| - 1]));
    }
  }

  // ----- Stability -----

  predicate Tied<T>(before: (T, T) -> bool, a: T, b: T) { !before(a, b) && !before(b, a) }

  function IfTied<T>(before: (T, T) -> bool, x: T, c: T): seq<T> { if Tied(before, x, c) then [x] else [] }

  /** The elements of s tied with c, in their order. */
  function TiedWith<T>(before: (T, T) -> bool, s: seq<T>, c: T): seq<T>
  {
    if s == [] then [] else TiedWith(before, s[..|s| - 1], c) + IfTied(before, s[|s| - 1], c)
  }

  lemma TiedAppend<T>(before: (T, T) -> bool, s: seq<T>, x: T, c: T)
    ensures TiedWith(before, s + [x], c) == TiedWith(before, s, c) + IfTied(before, x, c)
  {
    assert (s + [x])[..|s|] == s;
  }

  /** Two elements of which one goes first are not both tied with a third. */
  lemma NotBothTied<T(!new)>(before: (T, T) -> bool, x: T, y: T, c: T)
    requires WeakOrder(before) && before(x, y)
    ensures IfTied(before, y, c) + IfTied(before, x, c) == IfTied(before, x, c) + IfTied(before, y, c)
  {
    assert Coherent(before, y, c, x);
  }

  lemma {:induction false} InsertStable<T(!new)>(before: (T, T) -> bool, x: T, s: seq<T>, c: T)
    requires WeakOrder(before)
    ensures TiedWith(before, Insert(before, x, s), c) == TiedWith(before, s, c) + IfTied(before, x, c)
  {
    if s != [] && before(x, s[|s| - 1]) {
      var n := |s| - 1;
      var front, last, own := TiedWith(before, s[..n], c), IfTied(before, s[n], c), IfTied(before, x, c);
      TiedAppend(before, Insert(before, x, s[..n]), s[n], c);
      InsertStable(before, x, s[..n], c);
      NotBothTied(before, x, s[n], c);
      JoinAssociates(front, own, last);
      JoinAssociates(front, last, own);
    } else {
      TiedAppend(before, s, x, c);
    }
  }

  /** Sorting moves no element past one it is tied with. */
  lemma {:induction false} SortStable<T(!new)>(before: (T, T) -> bool, s: seq<T>, c: T)
    requires WeakOrder(before)
    ensures TiedWith(before, Sort(before, s), c) == TiedWith(before, s, c)
  {
    if s != [] {
      SortStable(before, s[..|s| - 1], c);
      InsertStable(before, s[|s| - 1], Sort(before, s[..|s| - 1]), c);
    }
  }

  // ----- Strikes by a key -----

  function ByKey(key: real -> real): (real, real) -> bool { (a: real, b: real) => key(a) < key(b) }

  lemma ByKeyOrders(key: real -> real)
    ensures WeakOrder(ByKey(key))
  {
    forall a, b, c ensures Coherent(ByKey(key), a, b, c) {
    }
  }

  function SortBy(key: real -> real, s: seq<real>): seq<real> { Sort(ByKey(key), s) }

  predicate SortedBy(key: real -> real, s: seq<real>)
  {
    forall i, j :: 0 <= i < j < |s| ==> key(s[i]) <= key(s[j])
  }

  predicate StrictlyAscending(s: seq<real>)
  {
    forall i, j :: 0 <= i < j < |s| ==> s[i] < s[j]
  }

  lemma SortByContent(key: real -> real, s: seq<real>)
    ensures SortedBy(key, SortBy(key, s))
    ensures multiset(SortBy(key, s)) == multiset(s)
    ensures |SortBy(key, s)| == |s|
  {
    ByKeyOrders(key);
    SortContent(ByKey(key), s);
    SortSorted(ByKey(key), s);
    var r := SortBy(key, s);
    forall i, j | 0 <= i < j < |r| ensures key(r[i]) <= key(r[j]) {
      assert !ByKey(key)(r[j], r[i]);
    }
  }

  /** Sorting keeps exactly the elements. */
  lemma SortByMembers(key: real -> real, s: seq<real>)
    ensures forall x :: x in SortBy(key, s) <==> x in s
  {
    SortByContent(key, s);
    forall x ensures x in SortBy(key, s) <==> x in s {
      assert x in SortBy(key, s) <==> x in multiset(SortBy(key, s));
      assert x in s <==> x in multiset(s);
    }
  }

  /** a comes before b: a smaller key, or the same key and a smaller value. */
  predicate Before(key: real -> real, a: real, b: real)
  {
    key(a) < key(b) || (key(a) == key(b) && a < b)
  }

  predicate Ordered(key: real -> real, s: seq<real>)
  {
    forall i, j :: 0 <= i < j < |s| ==> Before(key, s[i], s[j])
  }

  lemma {:induction false} InsertOrdered(key: real -> real, x: real, s: seq<real>)
    requires Ordered(key, s) && forall i :: 0 <= i < |s| ==> s[i] < x
    ensures Ordered(key, Insert(ByKey(key), x, s))
  {
    if s != [] && key(s[|s| - 1]) > key(x) {
      var n := |s| - 1;
      InsertOrdered(key, x, s[..n]);
      var r := Insert(ByKey(key), x, s[..n]);
      forall i | 0 <= i < |r| ensures Before(key, r[i], s[n]) {
        assert r[i] in r;
        InsertMember(ByKey(key), x, s[..n], r[i]);
      }
    }
  }

  /** Stability: sorting ascending values breaks ties by value, so the result is determined. */
  lemma {:induction false} SortByOrdered(key: real -> real, s: seq<real>)
    requires StrictlyAscending(s)
    ensures Ordered(key, SortBy(key, s))
  {
    if s != [] {
      var n := |s| - 1;
      SortByOrdered(key, s[..n]);
      SortByMembers(key, s[..n]);
      var r := SortBy(key, s[..n]);
      forall i | 0 <= i < |r| ensures r[i] < s[n] {
        assert r[i] in r;
        assert r[i] in s[..n];
      }
      InsertOrdered(key, s[n], r);
    }
  }

  function Identity(): real -> real { (x: real) => x }

  /** Sorting distinct values gives them in strictly ascending order. */
  lemma SortDistinct(s: seq<real>)
    requires Distinct(s)
    ensures StrictlyAscending(SortBy(Identity(), s))
  {
    var r := SortBy(Identity(), s);
    SortByContent(Identity(), s);
    DistinctPermutation(s, r);
  }

  lemma DistinctPermutation(s: seq<real>, r: seq<real>)
    requires Distinct(s) && multiset(r) == multiset(s)
    ensures Distinct(r)
  {
    DistinctMultiplicity(s);
    DistinctMultiplicity(r);
    forall x | x in r ensures multiset(r)[x] == 1 {
      assert x in multiset(s);
    }
  }
}
