/** Comprehensions over lists: selection, first occurrences, and joined text. */
module Lists {

  function Select<T(!new)>(s: seq<T>, p: T -> bool): (r: seq<T>)
    ensures forall x :: x in r <==> x in s && p(x)
  {
    if s == [] then []
    else Select(s[..|s| - 1], p) + if p(s[|s| - 1]) then [s[|s| - 1]] else []
  }

  lemma SelectOne<T(!new)>(x: T)
    ensures forall p :: Select([x], p) == if p(x) then [x] else []
  {
    assert [x][..0] == [];
  }

  /** Where the selected elements are, in order. */
  function Places<T(!new)>(s: seq<T>, p: T -> bool): (r: seq<nat>)
    ensures forall i: nat :: i in r <==> i < |s| && p(s[i])
    ensures forall j, k | 0 <= j < k < |r| :: r[j] < r[k]
  {
    if s == [] then []
    else
      var n := |s| - 1;
      var before := Places(s[..n], p);
      assert forall i: nat | i in before :: s[..n][i] == s[i];
      assert forall i: nat | i < n && p(s[i]) :: s[..n][i] == s[i] && i in before;
      assert forall j | 0 <= j < |before| :: before[j] in before;
      before + if p(s[n]) then [n] else []
  }

  /** The elements at these places. */
  function At<T>(s: seq<T>, places: seq<nat>): seq<T>
    requires forall i | i in places :: i < |s|
  {
    seq(|places|, k requires 0 <= k < |places| => assert places[k] in places; s[places[k]])
  }

  lemma {:induction false} SelectIsAt<T(!new)>(s: seq<T>, p: T -> bool)
    ensures Select(s, p) == At(s, Places(s, p))
  {
    if s != [] {
      var n := |s| - 1;
      SelectIsAt(s[..n], p);
      var before := Places(s[..n], p);
      assert forall k | 0 <= k < |before| :: before[k] in before;
      assert At(s, Places(s, p)) == At(s[..n], before) + if p(s[n]) then [s[n]] else [];
    }
  }

  /** Selecting twice is selecting what both let through. */
  lemma {:induction false} SelectTwice<T(!new)>(s: seq<T>, p: T -> bool, q: T -> bool, both: T -> bool)
    requires forall i | 0 <= i < |s| :: both(s[i]) <==> p(s[i]) && q(s[i])
    ensures Select(Select(s, p), q) == Select(s, both)
  {
    if s == [] {
      return;
    }
    var before, x := s[..|s| - 1], s[|s| - 1];
    assert s == before + [x];
    assert both(x) <==> p(x) && q(x);
    SelectTwice(before, p, q, both);
    SelectMore(before, x, p);
    SelectMore(before, x, both);
    var kept := Select(before, p);
    SelectMore(kept, x, q);
    if p(x) {
      assert Select(s, p) == kept + [x];
    } else {
      assert Select(s, p) == kept;
    }
  }

  lemma {:induction false} SelectAgrees<T(!new)>(s: seq<T>, p: T -> bool, q: T -> bool)
    requires forall i | 0 <= i < |s| :: p(s[i]) <==> q(s[i])
    ensures Select(s, p) == Select(s, q)
  {
    if s != [] {
      SelectAgrees(s[..|s| - 1], p, q);
    }
  }

  lemma SelectMore<T(!new)>(s: seq<T>, x: T, p: T -> bool)
    ensures Select(s + [x], p) == Select(s, p) + if p(x) then [x] else []
  {
    assert (s + [x])[..|s|] == s;
  }

  /** First occurrences only, in order. */
  function Deduplicated<T(==)>(s: seq<T>): seq<T> {
    if s == [] then []
    else
      var before := Deduplicated(s[..|s| - 1]);
      if s[|s| - 1] in before then before else before + [s[|s| - 1]]
  }

  lemma {:induction false} DeduplicatedKeeps<T>(s: seq<T>)
    ensures forall x :: x in Deduplicated(s) <==> x in s
  {
    if s != [] {
      DeduplicatedKeeps(s[..|s| - 1]);
      assert s == s[..|s| - 1] + [s[|s| - 1]];
    }
  }

  ghost predicate NoTwoEqual<T>(s: seq<T>) {
    s == [] || (s[|s| - 1] !in s[..|s| - 1] && NoTwoEqual(s[..|s| - 1]))
  }

  lemma {:induction false} DeduplicatedHasNoTwo<T>(s: seq<T>)
    ensures NoTwoEqual(Deduplicated(s))
  {
    if s != [] {
      DeduplicatedHasNoTwo(s[..|s| - 1]);
      var before := Deduplicated(s[..|s| - 1]);
      assert (before + [s[|s| - 1]])[..|before|] == before;
    }
  }

  function LastEight<T>(s: seq<T>): seq<T> {
    if |s| > 8 then s[|s| - 8..] else s
  }

  function Join(separator: string, parts: seq<string>): string {
    if parts == [] then "" else if |parts| == 1 then parts[0]
    else parts[0] + separator + Join(separator, parts[1..])
  }
}
