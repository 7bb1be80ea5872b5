/**
 Code-point order on strings, the order Python's `sorted` and SQLite's `ORDER BY` use for
 text, and the one strictly sorted listing every finite set of strings has.
 */
module Ordering {

  predicate Below(a: string, b: string) {
    if b == "" then false
    else if a == "" then true
    else if a[0] != b[0] then a[0] < b[0]
    else Below(a[1..], b[1..])
  }

  lemma {:induction false} BelowIsTotal(a: string, b: string)
    ensures Below(a, b) || a == b || Below(b, a)
  {
    if a != "" && b != "" && a[0] == b[0] {
      BelowIsTotal(a[1..], b[1..]);
      assert a == [a[0]] + a[1..] && b == [b[0]] + b[1..];
    }
  }

  lemma {:induction false} BelowIsIrreflexive(a: string)
    ensures !Below(a, a)
  {
    if a != "" {
      BelowIsIrreflexive(a[1..]);
    }
  }

  lemma {:induction false} BelowIsTransitive(a: string, b: string, c: string)
    requires Below(a, b) && Below(b, c)
    ensures Below(a, c)
  {
    if a != "" && a[0] == b[0] && b[0] == c[0] {
      BelowIsTransitive(a[1..], b[1..], c[1..]);
    }
  }

  ghost predicate StrictlySorted(s: seq<string>) {
    forall i, j :: 0 <= i < j < |s| ==> Below(s[i], s[j])
  }

  function Elements<T>(s: seq<T>): set<T> {
    set x | x in s
  }

  predicate IsLeast(x: string, s: set<string>) {
    x in s && forall y | y in s :: y != x ==> Below(x, y)
  }

  lemma {:induction false} LeastExists(s: set<string>) returns (x: string)
    requires s != {}
    ensures IsLeast(x, s)
    decreases |s|
  {
    var y :| y in s;
    if s == {y} {
      x := y;
    } else {
      assert s == (s - {y}) + {y};
      var z := LeastExists(s - {y});
      BelowIsTotal(y, z);
      if Below(y, z) {
        x := y;
        forall w | w in s && w != y ensures Below(y, w) {
          if w != z {
            BelowIsTransitive(y, z, w);
          }
        }
      } else {
        x := z;
      }
    }
  }

  lemma LeastIsUnique(x: string, y: string, s: set<string>)
    requires IsLeast(x, s) && IsLeast(y, s)
    ensures x == y
  {
    if x != y {
      BelowIsTransitive(x, y, x);
      BelowIsIrreflexive(x);
    }
  }

  function Least(s: set<string>): (x: string)
    requires s != {}
    ensures IsLeast(x, s)
  {
    ghost var w := LeastWitness(s);
    assert forall a, b :: IsLeast(a, s) && IsLeast(b, s) ==> a == b by {
      forall a, b | IsLeast(a, s) && IsLeast(b, s) ensures a == b {
        LeastIsUnique(a, b, s);
      }
    }
    assert IsLeast(w, s);
    var x :| x in s && IsLeast(x, s);
    x
  }

  ghost function LeastWitness(s: set<string>): (x: string)
    requires s != {}
    ensures IsLeast(x, s)
  {
    assert exists x :: IsLeast(x, s) by {
      var x := LeastExists(s);
    }
    var x :| IsLeast(x, s);
    x
  }

  /** The elements of a set, in increasing order: what `sorted(...)` returns. */
  function Listing(s: set<string>): (r: seq<string>)
    ensures Elements(r) == s
    ensures StrictlySorted(r)
    ensures |r| == |s|
    decreases |s|
  {
    if s == {} then []
    else
      var x := Least(s);
      hide Below;
      var rest := Listing(s - {x});
      assert forall y :: y in rest <==> y in Elements(rest);
      [x] + rest
  }

  lemma ListedIsMember(s: set<string>, i: nat)
    requires i < |Listing(s)|
    ensures Listing(s)[i] in s
  {
    assert Listing(s)[i] in Elements(Listing(s));
  }

  lemma {:induction false} SortedListsOfOneSetAreEqual(a: seq<string>, b: seq<string>)
    requires StrictlySorted(a) && StrictlySorted(b)
    requires Elements(a) == Elements(b)
    ensures a == b
  {
    assert a != [] ==> a[0] in Elements(b);
    assert b != [] ==> b[0] in Elements(a);
    if a != [] && b != [] {
      HeadIsLeast(a);
      HeadIsLeast(b);
      LeastIsUnique(a[0], b[0], Elements(a));
      TailDropsHead(a);
      TailDropsHead(b);
      SortedListsOfOneSetAreEqual(a[1..], b[1..]);
      assert a == [a[0]] + a[1..] && b == [b[0]] + b[1..];
    }
  }

  lemma HeadIsLeast(a: seq<string>)
    requires StrictlySorted(a) && a != []
    ensures IsLeast(a[0], Elements(a))
  {
    forall y | y in Elements(a) && y != a[0] ensures Below(a[0], y) {
      var i :| 0 <= i < |a| && a[i] == y;
    }
  }

  lemma TailDropsHead(a: seq<string>)
    requires StrictlySorted(a) && a != []
    ensures Elements(a[1..]) == Elements(a) - {a[0]}
  {
    assert a == [a[0]] + a[1..];
    SortedHasNoDuplicates(a);
  }

  lemma SortedHasNoDuplicates(a: seq<string>)
    requires StrictlySorted(a)
    ensures forall i, j :: 0 <= i < j < |a| ==> a[i] != a[j]
  {
    forall i, j | 0 <= i < j < |a| ensures a[i] != a[j] {
      BelowIsIrreflexive(a[i]);
    }
  }
}
