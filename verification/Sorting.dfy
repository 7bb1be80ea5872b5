/** Sorting by insertion under a comparison that may order only some pairs of values. */
module Sorting {

  function Place<T>(before: (T, T) -> bool, s: seq<T>, x: T): seq<T> {
    if s == [] || before(s[|s| - 1], x) then s + [x] else Place(before, s[..|s| - 1], x) + [s[|s| - 1]]
  }

  function Sort<T>(before: (T, T) -> bool, s: seq<T>): seq<T> {
    if s == [] then [] else Place(before, Sort(before, s[..|s| - 1]), s[|s| - 1])
  }

  ghost predicate AllBefore<T>(before: (T, T) -> bool, s: seq<T>, x: T) {
    forall q | q in s :: before(q, x)
  }

  ghost predicate Sorted<T>(before: (T, T) -> bool, s: seq<T>) {
    s == [] || (Sorted(before, s[..|s| - 1]) && AllBefore(before, s[..|s| - 1], s[|s| - 1]))
  }

  ghost predicate Transitive<T(!new)>(before: (T, T) -> bool) {
    forall a, b, c :: before(a, b) && before(b, c) ==> before(a, c)
  }

  /** Every two members of the list are ordered, one way or the other. */
  ghost predicate Comparable<T>(before: (T, T) -> bool, s: seq<T>) {
    s == [] || (Comparable(before, s[..|s| - 1]) && ComparableWith(before, s[..|s| - 1], s[|s| - 1]))
  }

  ghost predicate ComparableWith<T>(before: (T, T) -> bool, s: seq<T>, x: T) {
    forall q | q in s :: before(q, x) || before(x, q)
  }

  lemma {:induction false} SortedAt<T>(before: (T, T) -> bool, s: seq<T>, j: nat, k: nat)
    requires Sorted(before, s) && j < k < |s|
    ensures before(s[j], s[k])
  {
    var n := |s| - 1;
    if k == n {
      assert s[..n][j] in s[..n];
    } else {
      SortedAt(before, s[..n], j, k);
    }
  }

  lemma {:induction false} PlaceHolds<T>(before: (T, T) -> bool, s: seq<T>, x: T)
    ensures |Place(before, s, x)| == |s| + 1 && forall q :: q in Place(before, s, x) <==> q == x || q in s
  {
    if s != [] {
      PlaceHolds(before, s[..|s| - 1], x);
      assert s == s[..|s| - 1] + [s[|s| - 1]];
    }
  }

  lemma {:induction false} PlaceSorts<T(!new)>(before: (T, T) -> bool, s: seq<T>, x: T)
    requires Transitive(before) && Sorted(before, s) && ComparableWith(before, s, x)
    ensures Sorted(before, Place(before, s, x))
  {
    if s == [] || before(s[|s| - 1], x) {
      assert (s + [x])[..|s|] == s;
      assert s == [] || s == s[..|s| - 1] + [s[|s| - 1]];
    } else {
      var rest, last := s[..|s| - 1], s[|s| - 1];
      assert last in s && forall q | q in rest :: q in s;
      PlaceSorts(before, rest, x);
      PlaceHolds(before, rest, x);
      assert (Place(before, rest, x) + [last])[..|rest| + 1] == Place(before, rest, x);
    }
  }

  /** The sorted list holds the same values, and is sorted when they are comparable. */
  lemma {:induction false} SortHolds<T>(before: (T, T) -> bool, s: seq<T>)
    ensures |Sort(before, s)| == |s| && forall q :: q in Sort(before, s) <==> q in s
  {
    if s != [] {
      var rest, last := s[..|s| - 1], s[|s| - 1];
      SortHolds(before, rest);
      PlaceHolds(before, Sort(before, rest), last);
      assert s == rest + [last];
    }
  }

  lemma {:induction false} SortSorts<T(!new)>(before: (T, T) -> bool, s: seq<T>)
    requires Transitive(before) && Comparable(before, s)
    ensures Sorted(before, Sort(before, s))
  {
    if s != [] {
      var rest, last := s[..|s| - 1], s[|s| - 1];
      SortSorts(before, rest);
      SortHolds(before, rest);
      PlaceSorts(before, Sort(before, rest), last);
    }
  }
}
