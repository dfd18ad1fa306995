/** Stable insertion sort: the order `sort.SliceStable` gives. */
module Sorting {

  /** x goes in front of the first element that must not stay in front of it. */
  function Insert<T>(x: T, s: seq<T>, less: (T, T) -> bool): (r: seq<T>)
    ensures |r| == |s| + 1
  {
    if s != [] && less(s[0], x) then [s[0]] + Insert(x, s[1..], less) else [x] + s
  }

  function SortBy<T>(s: seq<T>, less: (T, T) -> bool): (r: seq<T>)
    ensures |r| == |s|
  {
    if s == [] then [] else Insert(s[0], SortBy(s[1..], less), less)
  }

  /** No element comes before one that is strictly smaller. */
  ghost predicate Sorted<T>(s: seq<T>, less: (T, T) -> bool) {
    forall i, j :: 0 <= i < j < |s| ==> !less(s[j], s[i])
  }

  /** A strict weak order: "not less" is transitive. */
  ghost predicate WeakOrder<T(!new)>(less: (T, T) -> bool) {
    && (forall a, b :: less(a, b) ==> !less(b, a))
    && (forall a, b, c :: !less(b, a) && !less(c, b) ==> !less(c, a))
  }

  lemma {:induction false} InsertKeeps<T>(x: T, s: seq<T>, less: (T, T) -> bool)
    ensures multiset(Insert(x, s, less)) == multiset(s) + multiset{x}
  {
    if s != [] && less(s[0], x) {
      InsertKeeps(x, s[1..], less);
      assert s == [s[0]] + s[1..];
    }
  }

  lemma {:induction false} SortKeeps<T>(s: seq<T>, less: (T, T) -> bool)
    ensures multiset(SortBy(s, less)) == multiset(s)
  {
    if s != [] {
      SortKeeps(s[1..], less);
      InsertKeeps(s[0], SortBy(s[1..], less), less);
      assert s == [s[0]] + s[1..];
    }
  }

  lemma InMultiset<T>(x: T, s: seq<T>, t: seq<T>)
    requires multiset(s) == multiset(t)
    ensures x in s <==> x in t
  {
    assert x in s <==> x in multiset(s);
    assert x in t <==> x in multiset(t);
  }

  lemma {:induction false} InsertSorted<T(!new)>(x: T, s: seq<T>, less: (T, T) -> bool)
    requires WeakOrder(less) && Sorted(s, less)
    ensures Sorted(Insert(x, s, less), less)
  {
    if s != [] && less(s[0], x) {
      var rest := Insert(x, s[1..], less);
      InsertSorted(x, s[1..], less);
      InsertKeeps(x, s[1..], less);
      forall j | 0 <= j < |rest|
        ensures !less(rest[j], s[0])
      {
        assert rest[j] in multiset(rest);
        if rest[j] != x {
          assert rest[j] in s[1..];
        }
      }
    } else if s != [] {
      forall j | 0 <= j < |s|
        ensures !less(s[j], x)
      {
        assert j > 0 ==> !less(s[j], s[0]);
      }
    }
  }

  lemma {:induction false} SortSorted<T(!new)>(s: seq<T>, less: (T, T) -> bool)
    requires WeakOrder(less)
    ensures Sorted(SortBy(s, less), less)
  {
    if s != [] {
      SortSorted(s[1..], less);
      InsertSorted(s[0], SortBy(s[1..], less), less);
    }
  }

  /** The elements of s that satisfy p, in order. */
  function Filter<T>(s: seq<T>, p: T -> bool): (r: seq<T>)
    ensures |r| <= |s|
  {
    if s == [] then []
    else Filter(s[..|s| - 1], p) + if p(s[|s| - 1]) then [s[|s| - 1]] else []
  }

  lemma {:induction false} FilterMembers<T>(s: seq<T>, p: T -> bool, x: T)
    ensures x in Filter(s, p) <==> x in s && p(x)
  {
    if s != [] {
      FilterMembers(s[..|s| - 1], p, x);
      assert s == s[..|s| - 1] + [s[|s| - 1]];
    }
  }

  lemma FilterSnoc<T>(s: seq<T>, x: T, p: T -> bool)
    ensures Filter(s + [x], p) == Filter(s, p) + if p(x) then [x] else []
  {
    assert (s + [x])[..|s|] == s;
  }

  lemma {:induction false} FilterConcat<T>(s: seq<T>, t: seq<T>, p: T -> bool)
    ensures Filter(s + t, p) == Filter(s, p) + Filter(t, p)
  {
    if t == [] {
      assert s + t == s;
    } else {
      var u, x := t[..|t| - 1], t[|t| - 1];
      FilterConcat(s, u, p);
      assert t == u + [x] && s + t == (s + u) + [x];
      FilterSnoc(s + u, x, p);
      FilterSnoc(u, x, p);
    }
  }

  lemma {:induction false} FilterSorted<T(!new)>(s: seq<T>, p: T -> bool, less: (T, T) -> bool)
    requires Sorted(s, less)
    ensures Sorted(Filter(s, p), less)
  {
    if s != [] {
      var u, last := s[..|s| - 1], s[|s| - 1];
      FilterSorted(u, p, less);
      forall x | x in Filter(u, p)
        ensures !less(last, x)
      {
        FilterMembers(u, p, x);
        var i :| 0 <= i < |u| && u[i] == x;
        assert s[i] == x;
      }
    }
  }
}
