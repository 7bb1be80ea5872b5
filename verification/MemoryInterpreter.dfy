/**
 Reconstruction of the conversational state: the best interpretation records are summarised and
 the turns behind them quoted, each within a character budget, and the size of the result is
 estimated in tokens. Tokenising is a parameter.
 */
module MemoryInterpreter {
  import opened Lists
  import opened Wrappers
  import opened Dialogue
  import opened Sorting

  datatype Concept = Concept(name: string, meaning: string)

  datatype Record = Record(
    id: string,
    turnId: Option<string>,
    supersedes: Option<string>,
    createdAt: int,
    speechAct: string,
    primaryIntent: string,
    userMeaning: string,
    objective: Option<string>,
    request: Option<string>,
    entities: seq<string>,
    hasTargets: bool,
    needsClarification: bool,
    ambiguities: seq<string>,
    concepts: seq<Concept>,
    reflection: seq<string>)

  datatype Limits = Limits(maxRecords: int, maxCharacters: int, maxVerbatim: int)

  type Terms = string -> set<string>

  /** Case folding of names. */
  type Fold = string -> string

  function Marker(): string {
    " …[answer truncated by retrieval budget]"
  }

  function NoState(): string {
    "No relevant semantic state."
  }

  function Reversed<T>(s: seq<T>): (r: seq<T>)
    ensures |r| == |s| && forall k | 0 <= k < |s| :: r[k] == s[|s| - 1 - k]
  {
    seq(|s|, k requires 0 <= k < |s| => s[|s| - 1 - k])
  }

  function Larger(a: int, b: int): int {
    if a > b then a else b
  }

  // ----- choosing records -----

  function SupersededRecords(records: seq<Record>): set<string> {
    set r | r in records && Given(r.supersedes) :: r.supersedes.value
  }

  function Without(records: seq<Record>, ids: set<string>): seq<Record> {
    Select(records, (r: Record) => r.id !in ids)
  }

  function OrEmpty(text: Option<string>): string {
    if text.Some? then text.value else ""
  }

  function NonEmpty(parts: seq<string>): seq<string> {
    Select(parts, (part: string) => part != "")
  }

  function MeaningText(r: Record): string {
    Join(" ", NonEmpty([r.userMeaning, OrEmpty(r.objective), OrEmpty(r.request), Join(" ", r.entities)]))
  }

  function Score(terms: Terms, records: seq<Record>, message: string, i: nat): real {
    if i >= |records| then 0.0
    else
      3.0 * |terms(message) * terms(MeaningText(records[i]))| as real
      + (i + 1) as real / |records| as real + if records[i].hasTargets then 0.5 else 0.0
  }

  predicate Better(terms: Terms, records: seq<Record>, message: string, i: nat, j: nat) {
    var a, b := Score(terms, records, message, i), Score(terms, records, message, j);
    a > b || (a == b && i > j)
  }

  function ByScore(terms: Terms, records: seq<Record>, message: string): (nat, nat) -> bool {
    (i: nat, j: nat) => Better(terms, records, message, i, j)
  }

  /** Oldest first; records of one instant stay in the order of their scores. */
  function ByTime(terms: Terms, records: seq<Record>, message: string): (nat, nat) -> bool {
    (i: nat, j: nat) =>
      i < |records| && j < |records|
      && (records[i].createdAt < records[j].createdAt
          || (records[i].createdAt == records[j].createdAt && Better(terms, records, message, i, j)))
  }

  function UpTo(n: nat): seq<nat> {
    seq(n, i requires 0 <= i < n => i)
  }

  /** A slice up to `n`; a negative `n` counts from the end. */
  function Head<T>(s: seq<T>, n: int): seq<T> {
    if n >= |s| then s else if n >= 0 then s[..n] else if |s| + n >= 0 then s[..|s| + n] else []
  }

  function Chosen(terms: Terms, records: seq<Record>, message: string, n: int): seq<nat> {
    Head(Sort(ByScore(terms, records, message), UpTo(|records|)), n)
  }

  function Selected(terms: Terms, records: seq<Record>, message: string, n: int): seq<nat> {
    Sort(ByTime(terms, records, message), Chosen(terms, records, message, n))
  }

  lemma UpToIsComparable(terms: Terms, records: seq<Record>, message: string, n: nat)
    requires n <= |records|
    ensures Comparable<nat>(ByScore(terms, records, message), UpTo(n)) && forall i: nat :: i in UpTo(n) <==> i < n
  {
    forall i: nat ensures i in UpTo(n) <==> i < n {
      assert i < n ==> UpTo(n)[i] == i;
    }
    if n > 0 {
      var m: nat := n - 1;
      UpToIsComparable(terms, records, message, m);
      assert UpTo(n)[..m] == UpTo(m);
      assert forall q | q in UpTo(m) :: q < m;
    }
  }

  /** The head of a sorted list: what is left out comes after all of it. */
  lemma HeadIsBefore(before: (nat, nat) -> bool, ranked: seq<nat>, n: int, i: nat)
    requires Sorted<nat>(before, ranked) && i in ranked
    ensures var head := Head(ranked, n);
            && (forall a | a in head :: a in ranked)
            && (i !in head ==> |head| < |ranked| && forall a | a in head :: before(a, i))
  {
    var head := Head(ranked, n);
    var k :| 0 <= k < |ranked| && ranked[k] == i;
    assert forall j | 0 <= j < |head| :: head[j] == ranked[j];
    assert k < |head| ==> head[k] in head;
    forall a | a in head && i !in head ensures before(a, i) {
      var j :| 0 <= j < |head| && head[j] == a;
      SortedAt<nat>(before, ranked, j, k);
    }
  }

  lemma RankedRecords(terms: Terms, records: seq<Record>, message: string)
    ensures var before, ranked := ByScore(terms, records, message),
                                  Sort(ByScore(terms, records, message), UpTo(|records|));
            Sorted<nat>(before, ranked) && |ranked| == |records| && forall i: nat :: i in ranked <==> i < |records|
  {
    var before := ByScore(terms, records, message);
    UpToIsComparable(terms, records, message, |records|);
    SortHolds<nat>(before, UpTo(|records|));
    assert Transitive<nat>(before);
    hide Sort, Score, Sorted, Comparable, Better, ByScore;
    SortSorts<nat>(before, UpTo(|records|));
  }

  /** How many of `count` values a slice up to `n` takes. */
  function HeadLength(count: nat, n: int): nat {
    if n >= count then count else if n >= 0 then n else Larger(0, count + n)
  }

  lemma SelectedHoldsChosen(terms: Terms, records: seq<Record>, message: string, n: int)
    ensures var chosen, selected := Chosen(terms, records, message, n), Selected(terms, records, message, n);
            |selected| == |chosen| == HeadLength(|records|, n) && forall a: nat :: a in selected <==> a in chosen
  {
    RankedRecords(terms, records, message);
    hide Sort, ByScore, ByTime, Sorted;
    SortHolds<nat>(ByTime(terms, records, message), Chosen(terms, records, message, n));
  }

  /** A record left out is worse than every selected one, and only left out because the limit is reached. */
  lemma SelectedAreBest(terms: Terms, records: seq<Record>, message: string, n: int, i: nat)
    requires i < |records|
    ensures var selected := Selected(terms, records, message, n);
            && |selected| == HeadLength(|records|, n)
            && (forall a | a in selected :: a < |records|)
            && (i !in selected ==>
                |selected| < |records| && forall a | a in selected :: Better(terms, records, message, a, i))
  {
    hide Sort, Selected, Score, Better, ByScore, Head, HeadLength, Sorted;
    SelectedHoldsChosen(terms, records, message, n);
    ChosenAreBest(terms, records, message, n, i);
  }

  lemma ChosenAreBest(terms: Terms, records: seq<Record>, message: string, n: int, i: nat)
    requires i < |records|
    ensures var chosen := Chosen(terms, records, message, n);
            && (forall a | a in chosen :: a < |records|)
            && (i !in chosen ==>
                |chosen| < |records| && forall a | a in chosen :: Better(terms, records, message, a, i))
  {
    var before := ByScore(terms, records, message);
    var ranked := Sort(before, UpTo(|records|));
    RankedRecords(terms, records, message);
    BeforeIsBetter(terms, records, message, i);
    hide Sort, Score, Sorted, Better, ByScore, Head;
    HeadIsBefore(before, ranked, n, i);
  }

  lemma BeforeIsBetter(terms: Terms, records: seq<Record>, message: string, i: nat)
    ensures forall a: nat :: ByScore(terms, records, message)(a, i) <==> Better(terms, records, message, a, i)
  {
  }

  // ----- what the score weighs -----

  lemma {:induction false} JoinHolds(separator: string, parts: seq<string>, part: string) returns (a: string, b: string)
    requires part in parts
    ensures Join(separator, parts) == a + part + b
  {
    if part == parts[0] {
      a, b := "", if |parts| == 1 then "" else separator + Join(separator, parts[1..]);
      assert parts[0] + separator + Join(separator, parts[1..]) == a + part + (separator + Join(separator, parts[1..]));
    } else {
      a, b := JoinHolds(separator, parts[1..], part);
      assert parts[0] + separator + (a + part + b) == (parts[0] + separator + a) + part + b;
      a := parts[0] + separator + a;
    }
  }

  /** What a record means is read from its meaning, its objective, its request and its entities. */
  lemma MeaningHolds(r: Record, part: string) returns (a: string, b: string)
    requires |part| > 0
    requires part == r.userMeaning || r.objective == Some(part) || r.request == Some(part)
             || part == Join(" ", r.entities)
    ensures MeaningText(r) == a + part + b
  {
    var parts := [r.userMeaning, OrEmpty(r.objective), OrEmpty(r.request), Join(" ", r.entities)];
    assert part == parts[0] || part == parts[1] || part == parts[2] || part == parts[3];
    assert part in NonEmpty(parts);
    hide Join, NonEmpty;
    a, b := JoinHolds(" ", NonEmpty(parts), part);
  }

  /** How many terms the message shares with what the record means. */
  function Shared(terms: Terms, records: seq<Record>, message: string, i: nat): nat
    requires i < |records|
  {
    |terms(message) * terms(MeaningText(records[i]))|
  }

  /** Where it stands, one half of the list further on if it names targets. */
  function Standing(records: seq<Record>, i: nat): nat
    requires i < |records|
  {
    2 * (i + 1) + if records[i].hasTargets then |records| else 0
  }

  function Weight(n: nat, shared: nat, standing: nat): nat {
    6 * n * shared + standing
  }

  lemma ScaledScore(n: nat, shared: nat, i: nat, targets: bool)
    requires i < n
    ensures (3.0 * shared as real + (i + 1) as real / n as real + if targets then 0.5 else 0.0) * (2 * n) as real ==
              Weight(n, shared, 2 * (i + 1) + if targets then n else 0) as real
  {
    var recency := (i + 1) as real / n as real;
    assert recency * n as real == (i + 1) as real;
    var bonus := if targets then 0.5 else 0.0;
    calc {
      (3.0 * shared as real + recency + bonus) * (2 * n) as real;
      6.0 * (shared as real * n as real) + 2.0 * (recency * n as real) + bonus * (2 * n) as real;
      Weight(n, shared, 2 * (i + 1) + if targets then n else 0) as real;
    }
  }

  lemma SharedDecides(n: nat, a: nat, b: nat, v: nat, w: nat)
    requires 0 < v <= 3 * n && 0 < w <= 3 * n
    ensures Weight(n, a, v) > Weight(n, b, w) <==> a > b || (a == b && v > w)
    ensures Weight(n, a, v) == Weight(n, b, w) <==> a == b && v == w
  {
    if a > b {
      assert 6 * n * a >= 6 * n * (b + 1) == 6 * n * b + 6 * n;
    } else if a < b {
      assert 6 * n * b >= 6 * n * (a + 1) == 6 * n * a + 6 * n;
    }
  }

  lemma ScoreIsWeight(terms: Terms, records: seq<Record>, message: string, i: nat)
    requires i < |records|
    ensures Score(terms, records, message, i) * (2 * |records|) as real ==
              Weight(|records|, Shared(terms, records, message, i), Standing(records, i)) as real
  {
    hide MeaningText, Weight;
    ScaledScore(|records|, Shared(terms, records, message, i), i, records[i].hasTargets);
  }

  lemma CompareScaled(x: real, y: real, scale: real, a: real, b: real)
    requires scale > 0.0 && x * scale == a && y * scale == b
    ensures (x > y <==> a > b) && (x == y <==> a == b)
  {
    assert (x - y) * scale == a - b;
  }

  lemma ScoresCompare(terms: Terms, records: seq<Record>, message: string, i: nat, j: nat)
    requires i < |records| && j < |records|
    ensures var x, y := Score(terms, records, message, i), Score(terms, records, message, j);
            var a, b := Weight(|records|, Shared(terms, records, message, i), Standing(records, i)),
                        Weight(|records|, Shared(terms, records, message, j), Standing(records, j));
            (x > y <==> a > b) && (x == y <==> a == b)
  {
    hide Score, Weight, Shared, Standing;
    ScoreIsWeight(terms, records, message, i);
    ScoreIsWeight(terms, records, message, j);
    CompareScaled(Score(terms, records, message, i), Score(terms, records, message, j), (2 * |records|) as real,
                  Weight(|records|, Shared(terms, records, message, i), Standing(records, i)) as real,
                  Weight(|records|, Shared(terms, records, message, j), Standing(records, j)) as real);
  }

  /** More shared terms always win; among equally many the one that stands further on, or the later one. */
  lemma BetterExactly(terms: Terms, records: seq<Record>, message: string, i: nat, j: nat)
    requires i < |records| && j < |records|
    ensures Better(terms, records, message, i, j) <==>
              var a, b := Shared(terms, records, message, i), Shared(terms, records, message, j);
              var v, w := Standing(records, i), Standing(records, j);
              a > b || (a == b && (v > w || (v == w && i > j)))
  {
    StandingIsSmall(records, i);
    StandingIsSmall(records, j);
    hide Score, Weight, Shared, Standing;
    ScoresCompare(terms, records, message, i, j);
    SharedDecides(|records|, Shared(terms, records, message, i), Shared(terms, records, message, j),
                  Standing(records, i), Standing(records, j));
  }

  lemma StandingIsSmall(records: seq<Record>, i: nat)
    requires i < |records|
    ensures 0 < Standing(records, i) <= 3 * |records|
  {
  }

  // ----- the order of the selection -----

  lemma {:induction false} TimeIsComparable(terms: Terms, records: seq<Record>, message: string, chosen: seq<nat>)
    requires Sorted<nat>(ByScore(terms, records, message), chosen) && forall a | a in chosen :: a < |records|
    ensures Comparable<nat>(ByTime(terms, records, message), chosen)
  {
    hide Better;
    if chosen != [] {
      var rest, last := chosen[..|chosen| - 1], chosen[|chosen| - 1];
      assert last in chosen && forall a | a in rest :: a in chosen;
      TimeIsComparable(terms, records, message, rest);
      forall q | q in rest ensures Better(terms, records, message, q, last) {
        assert ByScore(terms, records, message)(q, last);
      }
    }
  }

  lemma {:induction false} HeadIsSorted(before: (nat, nat) -> bool, ranked: seq<nat>, m: nat)
    requires Sorted<nat>(before, ranked) && m <= |ranked|
    ensures Sorted<nat>(before, ranked[..m])
  {
    if m == |ranked| {
      assert ranked[..m] == ranked;
    } else {
      assert ranked[..|ranked| - 1][..m] == ranked[..m];
      HeadIsSorted(before, ranked[..|ranked| - 1], m);
    }
  }

  lemma HeadIsPrefix(s: seq<nat>, n: int) returns (m: nat)
    ensures m <= |s| && Head(s, n) == s[..m]
  {
    m := if n >= |s| then |s| else if n >= 0 then n else if |s| + n >= 0 then |s| + n else 0;
    assert s[..|s|] == s;
  }

  lemma TimeIsTransitive(terms: Terms, records: seq<Record>, message: string)
    ensures Transitive<nat>(ByTime(terms, records, message))
  {
    hide Score;
  }

  /** Oldest first; of two selected records of one instant the better comes first. */
  lemma SelectedAreOldestFirst(terms: Terms, records: seq<Record>, message: string, n: int, j: nat, k: nat)
    requires j < k < |Selected(terms, records, message, n)|
    ensures var selected := Selected(terms, records, message, n);
            var a, b := selected[j], selected[k];
            && a < |records| && b < |records|
            && (records[a].createdAt < records[b].createdAt
                || (records[a].createdAt == records[b].createdAt && Better(terms, records, message, a, b)))
  {
    var before := ByTime(terms, records, message);
    var ranked := Sort(ByScore(terms, records, message), UpTo(|records|));
    RankedRecords(terms, records, message);
    var m := HeadIsPrefix(ranked, n);
    HeadIsSorted(ByScore(terms, records, message), ranked, m);
    var chosen := Chosen(terms, records, message, n);
    assert forall a | a in chosen :: a in ranked;
    hide Sort, Sorted, Comparable, Score, Better, Head;
    TimeIsComparable(terms, records, message, chosen);
    TimeIsTransitive(terms, records, message);
    SortSorts<nat>(before, chosen);
    SortedAt<nat>(before, Selected(terms, records, message, n), j, k);
  }

  // ----- summaries -----

  function Summary(r: Record): string {
    r.speechAct + "/" + r.primaryIntent + ": " + r.userMeaning
  }

  function Length(kept: seq<Record>): nat {
    if kept == [] then 0 else Length(kept[..|kept| - 1]) + |Summary(kept[|kept| - 1])|
  }

  /** The records whose summaries fit, taken greedily from the newest on. */
  function Kept(records: seq<Record>, max: int): seq<Record> {
    if records == [] then []
    else
      var before, r := Kept(records[..|records| - 1], max), records[|records| - 1];
      if Length(before) + |Summary(r)| > max then before else before + [r]
  }

  lemma {:induction false} KeptFits(records: seq<Record>, max: int)
    ensures var kept := Kept(records, max);
            |kept| <= |records| && Length(kept) <= (if max > 0 then max else 0) && forall r | r in kept :: r in records
  {
    if records != [] {
      KeptFits(records[..|records| - 1], max);
      var before, r := Kept(records[..|records| - 1], max), records[|records| - 1];
      assert (before + [r])[..|before|] == before;
    }
  }

  lemma LengthOfMore(kept: seq<Record>, r: Record)
    ensures Length(kept + [r]) == Length(kept) + |Summary(r)|
  {
    assert (kept + [r])[..|kept|] == kept;
  }

  /** A record left out has a summary longer than what the kept summaries leave. */
  lemma {:induction false} KeptIsMaximal(records: seq<Record>, max: int, r: Record)
    requires r in records
    ensures var kept := Kept(records, max);
            r in kept || |Summary(r)| > max - Length(kept)
  {
    var n := |records| - 1;
    var before, last, kept := Kept(records[..n], max), records[n], Kept(records, max);
    LengthOfMore(before, last);
    hide Summary, Length;
    assert kept == if Length(before) + |Summary(last)| > max then before else before + [last];
    assert records == records[..n] + [last];
    if r in records[..n] {
      KeptIsMaximal(records[..n], max, r);
    }
    hide Kept;
  }

  function Summaries(kept: seq<Record>): seq<string> {
    seq(|kept|, k requires 0 <= k < |kept| => Summary(kept[k]))
  }

  function SummaryText(kept: seq<Record>): string {
    var text := Join("\n", Reversed(Summaries(kept)));
    if text == "" then NoState() else text
  }

  function Total(parts: seq<string>): nat {
    if parts == [] then 0 else Total(parts[..|parts| - 1]) + |parts[|parts| - 1]|
  }

  lemma {:induction false} TotalFromFront(parts: seq<string>)
    requires parts != []
    ensures Total(parts) == |parts[0]| + Total(parts[1..])
  {
    if |parts| == 1 {
      assert parts[..0] == [] && parts[1..] == [];
    } else {
      TotalFromFront(parts[..|parts| - 1]);
      assert parts[1..][..|parts| - 2] == parts[..|parts| - 1][1..];
    }
  }

  /** The characters of `k` separators of length `n`. */
  function Separators(n: nat, k: int): int {
    n * k
  }

  lemma OneMoreSeparator(n: nat, k: int)
    ensures Separators(n, k) == Separators(n, k - 1) + n && Separators(n, 0) == 0
  {
  }

  lemma {:induction false} JoinLength(separator: string, parts: seq<string>)
    ensures |Join(separator, parts)| == Total(parts) + if parts == [] then 0 else Separators(|separator|, |parts| - 1)
  {
    hide Separators;
    if parts != [] {
      JoinLength(separator, parts[1..]);
      TotalFromFront(parts);
      OneMoreSeparator(|separator|, |parts| - 1);
      JoinFromFront(separator, parts);
      hide Total, Join;
    }
  }

  lemma JoinFromFront(separator: string, parts: seq<string>)
    requires parts != []
    ensures |Join(separator, parts)| ==
              |parts[0]| + if |parts| == 1 then 0 else |separator| + |Join(separator, parts[1..])|
  {
  }

  lemma {:induction false} TotalOfSummaries(kept: seq<Record>)
    ensures Total(Reversed(Summaries(kept))) == Length(kept)
  {
    var parts := Reversed(Summaries(kept));
    if kept != [] {
      var before := kept[..|kept| - 1];
      TotalOfSummaries(before);
      TotalFromFront(parts);
      assert parts[1..] == Reversed(Summaries(before));
    }
  }

  /** The summaries' characters, one separator between two of them, or the default text. */
  lemma SummaryTextLength(kept: seq<Record>)
    ensures |SummaryText(kept)| == if kept == [] then |NoState()| else Length(kept) + |kept| - 1
  {
    var parts := Reversed(Summaries(kept));
    JoinLength("\n", parts);
    TotalOfSummaries(kept);
    if kept != [] {
      assert Length(kept) >= |Summary(kept[|kept| - 1])| >= 3;
    }
  }

  /** An older kept record's summary comes before those of the newer ones. */
  lemma OlderSummaryComesFirst(kept: seq<Record>, older: Record)
    ensures SummaryText(kept + [older]) ==
              if kept == [] then Summary(older) else Summary(older) + "\n" + SummaryText(kept)
  {
    var parts := Reversed(Summaries(kept));
    assert Reversed(Summaries(kept + [older])) == [Summary(older)] + parts;
    assert ([Summary(older)] + parts)[1..] == parts;
    SummaryTextIsNotEmpty(kept);
  }

  lemma SummaryTextIsNotEmpty(kept: seq<Record>)
    ensures kept != [] ==> Join("\n", Reversed(Summaries(kept))) != ""
  {
    var parts := Reversed(Summaries(kept));
    if kept != [] {
      JoinLength("\n", parts);
      TotalFromFront(parts);
      hide Join, Total, Separators;
      assert parts[0] == Summary(kept[|kept| - 1]) && |parts[0]| > 0;
    }
  }

  // ----- who gets the room -----

  ghost predicate AreIn(places: seq<nat>, n: nat) {
    forall k | 0 <= k < |places| :: places[k] < n
  }

  /** The characters taken by those of these places that come before `i`. */
  ghost function RoomTaken(order: seq<Record>, places: seq<nat>, i: nat): nat
    requires AreIn(places, |order|)
  {
    if places == [] then 0
    else
      var n := |places| - 1;
      RoomTaken(order, places[..n], i) + if places[n] < i then |Summary(order[places[n]])| else 0
  }

  /** The kept records are those at these places of the order. */
  ghost predicate AreAt(order: seq<Record>, kept: seq<Record>, places: seq<nat>) {
    && AreIn(places, |order|) && (forall j, k | 0 <= j < k < |places| :: places[j] < places[k])
    && |kept| == |places| && (forall k | 0 <= k < |kept| :: kept[k] == order[places[k]])
  }

  /** Its summary fits beside those kept before it. */
  ghost predicate HasRoom(order: seq<Record>, places: seq<nat>, max: int, i: nat)
    requires AreIn(places, |order|) && i < |order|
  {
    RoomTaken(order, places, i) + |Summary(order[i])| <= max
  }

  /** A record is kept exactly when its summary fits beside those kept before it. */
  ghost predicate IsGreedy(order: seq<Record>, kept: seq<Record>, places: seq<nat>, max: int) {
    && AreAt(order, kept, places)
    && forall i: nat | i < |order| :: i in places <==> HasRoom(order, places, max, i)
  }

  lemma {:induction false} RoomIsLocal(order: seq<Record>, places: seq<nat>, i: nat, m: nat)
    requires m <= |order| && AreIn(places, m)
    ensures RoomTaken(order[..m], places, i) == RoomTaken(order, places, i)
  {
    if places != [] {
      RoomIsLocal(order, places[..|places| - 1], i, m);
    }
  }

  lemma {:induction false} RoomIsLength(order: seq<Record>, kept: seq<Record>, places: seq<nat>, i: nat)
    requires i <= |order| && AreIn(places, i) && |kept| == |places|
    requires forall k | 0 <= k < |kept| :: kept[k] == order[places[k]]
    ensures RoomTaken(order, places, i) == Length(kept)
  {
    if places != [] {
      var n := |places| - 1;
      RoomIsLength(order, kept[..n], places[..n], i);
    }
  }

  lemma RoomOfMore(order: seq<Record>, places: seq<nat>, n: nat, i: nat)
    requires AreIn(places, |order|) && i <= n < |order|
    ensures RoomTaken(order, places + [n], i) == RoomTaken(order, places, i)
  {
    assert (places + [n])[..|places|] == places;
  }

  /** Records are kept greedily in the given order, which is that from the newest to the oldest. */
  lemma {:induction false} KeptIsGreedy(order: seq<Record>, max: int) returns (places: seq<nat>)
    ensures IsGreedy(order, Kept(order, max), places, max)
  {
    places := [];
    if order != [] {
      var n := |order| - 1;
      var before := Kept(order[..n], max);
      places := KeptIsGreedy(order[..n], max);
      hide IsGreedy, Length, Summary;
      GreedyOneMore(order, before, places, max);
      places := if Length(before) + |Summary(order[n])| > max then places else places + [n];
    }
  }

  lemma GreedyOneMore(order: seq<Record>, before: seq<Record>, places: seq<nat>, max: int)
    requires order != [] && IsGreedy(order[..|order| - 1], before, places, max)
    ensures var n := |order| - 1;
            if Length(before) + |Summary(order[n])| > max then IsGreedy(order, before, places, max)
            else IsGreedy(order, before + [order[n]], places + [n], max)
  {
    hide Length, Summary, RoomTaken, HasRoom;
    var n := |order| - 1;
    AtOneMore(order, before, places);
    TakenIsLength(order, before, places);
    var more := if Length(before) + |Summary(order[n])| > max then places else places + [n];
    hide AreAt;
    forall i: nat | i < |order| ensures AreIn(more, |order|) && (i in more <==> HasRoom(order, more, max, i)) {
      GreedyAt(order, before, places, max, more, i);
    }
  }

  lemma TakenIsLength(order: seq<Record>, before: seq<Record>, places: seq<nat>)
    requires order != [] && AreAt(order[..|order| - 1], before, places)
    ensures AreIn(places, |order| - 1) && RoomTaken(order, places, |order| - 1) == Length(before)
  {
    assert forall k | 0 <= k < |before| :: before[k] == order[..|order| - 1][places[k]] == order[places[k]];
    RoomIsLength(order, before, places, |order| - 1);
  }

  lemma AtOneMore(order: seq<Record>, before: seq<Record>, places: seq<nat>)
    requires order != [] && AreAt(order[..|order| - 1], before, places)
    ensures AreAt(order, before, places)
    ensures AreAt(order, before + [order[|order| - 1]], places + [|order| - 1])
  {
    var n: nat := |order| - 1;
    var more, kept := places + [n], before + [order[n]];
    assert forall k | 0 <= k < |places| :: more[k] == places[k] && before[k] == order[..n][places[k]];
  }

  lemma GreedyAt(order: seq<Record>, before: seq<Record>, places: seq<nat>, max: int, more: seq<nat>, i: nat)
    requires order != [] && AreIn(places, |order| - 1) && i < |order|
    requires i < |order| - 1 ==> (i in places <==> HasRoom(order[..|order| - 1], places, max, i))
    requires RoomTaken(order, places, |order| - 1) == Length(before)
    requires more == if Length(before) + |Summary(order[|order| - 1])| > max then places else places + [|order| - 1]
    ensures AreIn(more, |order|) && (i in more <==> HasRoom(order, more, max, i))
  {
    hide Summary, Length;
    var n: nat := |order| - 1;
    RoomOfMore(order, places, n, i);
    RoomIsLocal(order, places, i, n);
    assert n !in places && (i in more <==> i in places || (i == n && more != places));
    hide RoomTaken;
    assert i < n ==> order[..n][i] == order[i];
  }

  // ----- verbatim excerpts -----

  function Chars(excerpts: seq<Excerpt>): nat {
    if excerpts == [] then 0 else Chars(excerpts[..|excerpts| - 1]) + Size(excerpts[|excerpts| - 1])
  }

  function Ids(excerpts: seq<Excerpt>): set<string> {
    set e | e in excerpts :: e.turnId
  }

  function OfSession(turns: seq<ChatTurn>, session: string): seq<ChatTurn> {
    Select(turns, (t: ChatTurn) => t.sessionId == session)
  }

  /** The session's last two turns, the latest first. */
  function Recent(turns: seq<ChatTurn>, session: string): seq<ChatTurn> {
    var own := OfSession(turns, session);
    Reversed(if |own| > 2 then own[|own| - 2..] else own)
  }

  function ByTurn(turns: seq<ChatTurn>): (r: map<string, ChatTurn>)
    ensures forall id | id in r :: r[id] in turns && r[id].id == id
  {
    if turns == [] then map[] else ByTurn(turns[..|turns| - 1])[turns[|turns| - 1].id := turns[|turns| - 1]]
  }

  /** A recent turn: its answer is shortened without a mark. */
  function QuoteRecent(excerpts: seq<Excerpt>, turn: ChatTurn, limit: int): seq<Excerpt> {
    var remaining := limit - Chars(excerpts);
    if |turn.userMessage| > remaining then excerpts
    else excerpts + [Quote(turn, Shortened(turn.answer, remaining - |turn.userMessage|))]
  }

  function QuoteAllRecent(turns: seq<ChatTurn>, limit: int): seq<Excerpt> {
    if turns == [] then [] else QuoteRecent(QuoteAllRecent(turns[..|turns| - 1], limit), turns[|turns| - 1], limit)
  }

  /** A remembered turn: its answer is shortened with a mark, which the budget does not count beforehand. */
  function QuoteRemembered(excerpts: seq<Excerpt>, turn: ChatTurn, limit: int): seq<Excerpt> {
    var remaining := limit - Chars(excerpts);
    if turn.id in Ids(excerpts) || |turn.userMessage| > remaining then excerpts
    else
      var room: nat := remaining - |turn.userMessage|;
      excerpts + [Quote(turn, if room < |turn.answer| then turn.answer[..room] + Marker() else turn.answer)]
  }

  function QuoteRecord(excerpts: seq<Excerpt>, byTurn: map<string, ChatTurn>, r: Record, limit: int): seq<Excerpt> {
    if Given(r.turnId) && r.turnId.value in byTurn then QuoteRemembered(excerpts, byTurn[r.turnId.value], limit)
    else excerpts
  }

  function QuoteRecords(start: seq<Excerpt>, byTurn: map<string, ChatTurn>, kept: seq<Record>,
                        limit: int): seq<Excerpt> {
    if kept == [] then start
    else QuoteRecord(QuoteRecords(start, byTurn, kept[..|kept| - 1], limit), byTurn, kept[|kept| - 1], limit)
  }

  // ----- what the excerpts keep -----

  predicate IsQuote(turn: ChatTurn, e: Excerpt) {
    && e.turnId == turn.id && e.userMessage == turn.userMessage && e.interpretationId == turn.interpretationId
    && e.assistantAnswer <= turn.answer
  }

  predicate IsMarkedQuote(turn: ChatTurn, e: Excerpt) {
    && |e.assistantAnswer| >= |Marker()| && e.assistantAnswer[|e.assistantAnswer| - |Marker()|..] == Marker()
    && IsQuote(turn, e.(assistantAnswer := e.assistantAnswer[..|e.assistantAnswer| - |Marker()|]))
  }

  ghost predicate Quoted(turns: seq<ChatTurn>, e: Excerpt) {
    exists t :: t in turns && IsQuote(t, e)
  }

  ghost predicate AllQuoted(turns: seq<ChatTurn>, excerpts: seq<Excerpt>) {
    forall e | e in excerpts :: Quoted(turns, e)
  }

  ghost predicate DifferentTurns(excerpts: seq<Excerpt>) {
    excerpts == []
    || (excerpts[|excerpts| - 1].turnId !in Ids(excerpts[..|excerpts| - 1])
        && DifferentTurns(excerpts[..|excerpts| - 1]))
  }

  /**
   Either every answer is a prefix of the turn's answer and the budget holds, or the last answer
   alone carries the mark and the budget is exceeded by exactly its length.
   */
  ghost predicate Budgeted(turns: seq<ChatTurn>, excerpts: seq<Excerpt>, limit: int) {
    || (AllQuoted(turns, excerpts) && Chars(excerpts) <= if limit > 0 then limit else 0)
    || (excerpts != [] && limit >= 0 && Chars(excerpts) == limit + |Marker()|
        && AllQuoted(turns, excerpts[..|excerpts| - 1])
        && exists t :: t in turns && IsMarkedQuote(t, excerpts[|excerpts| - 1]))
  }

  lemma OneMore(excerpts: seq<Excerpt>, e: Excerpt)
    ensures Chars(excerpts + [e]) == Chars(excerpts) + Size(e)
    ensures Ids(excerpts + [e]) == Ids(excerpts) + {e.turnId}
    ensures e.turnId !in Ids(excerpts) && DifferentTurns(excerpts) ==> DifferentTurns(excerpts + [e])
  {
    assert (excerpts + [e])[..|excerpts|] == excerpts;
    assert forall x :: x in excerpts + [e] <==> x in excerpts || x == e;
  }

  lemma AllQuotedOneMore(turns: seq<ChatTurn>, excerpts: seq<Excerpt>, e: Excerpt, turn: ChatTurn)
    requires AllQuoted(turns, excerpts) && turn in turns && IsQuote(turn, e)
    ensures AllQuoted(turns, excerpts + [e])
  {
    hide IsQuote;
    assert Quoted(turns, e);
  }

  lemma {:induction false} RecentAreBudgeted(turns: seq<ChatTurn>, recent: seq<ChatTurn>, limit: int)
    requires forall t | t in recent :: t in turns
    ensures var es := QuoteAllRecent(recent, limit);
            AllQuoted(turns, es) && Chars(es) <= if limit > 0 then limit else 0
  {
    if recent != [] {
      var n := |recent| - 1;
      RecentAreBudgeted(turns, recent[..n], limit);
      var before, turn := QuoteAllRecent(recent[..n], limit), recent[n];
      var remaining := limit - Chars(before);
      if |turn.userMessage| <= remaining {
        var e := Quote(turn, Shortened(turn.answer, remaining - |turn.userMessage|));
        OneMore(before, e);
        AllQuotedOneMore(turns, before, e, turn);
      }
      hide AllQuoted, Chars;
    }
  }

  lemma CutIsMarked(turn: ChatTurn, room: nat)
    requires room < |turn.answer|
    ensures IsMarkedQuote(turn, Quote(turn, turn.answer[..room] + Marker()))
  {
    var answer := turn.answer[..room] + Marker();
    assert answer[..|answer| - |Marker()|] == turn.answer[..room];
  }

  lemma RememberedKeepsBudget(turns: seq<ChatTurn>, excerpts: seq<Excerpt>, turn: ChatTurn, limit: int)
    requires Budgeted(turns, excerpts, limit) && turn in turns
    ensures Budgeted(turns, QuoteRemembered(excerpts, turn, limit), limit)
  {
    var remaining := limit - Chars(excerpts);
    if turn.id !in Ids(excerpts) && |turn.userMessage| <= remaining {
      assert AllQuoted(turns, excerpts) && limit >= 0;
      var room: nat := remaining - |turn.userMessage|;
      var e := Quote(turn, if room < |turn.answer| then turn.answer[..room] + Marker() else turn.answer);
      OneMore(excerpts, e);
      assert (excerpts + [e])[..|excerpts|] == excerpts;
      hide AllQuoted, Chars, IsMarkedQuote, Marker;
      if room < |turn.answer| {
        CutIsMarked(turn, room);
      } else {
        AllQuotedOneMore(turns, excerpts, e, turn);
      }
    }
  }

  lemma RememberedKeepsDifferent(excerpts: seq<Excerpt>, turn: ChatTurn, limit: int)
    requires DifferentTurns(excerpts)
    ensures DifferentTurns(QuoteRemembered(excerpts, turn, limit))
  {
    var es := QuoteRemembered(excerpts, turn, limit);
    if es != excerpts {
      OneMore(excerpts, es[|excerpts|]);
    }
  }

  lemma {:induction false} RecordsKeep(turns: seq<ChatTurn>, start: seq<Excerpt>, kept: seq<Record>, limit: int)
    ensures var es := QuoteRecords(start, ByTurn(turns), kept, limit);
            && (Budgeted(turns, start, limit) ==> Budgeted(turns, es, limit))
            && (DifferentTurns(start) ==> DifferentTurns(es))
  {
    hide Budgeted, DifferentTurns, QuoteRemembered, ByTurn;
    if kept != [] {
      RecordsKeep(turns, start, kept[..|kept| - 1], limit);
      var es, r := QuoteRecords(start, ByTurn(turns), kept[..|kept| - 1], limit), kept[|kept| - 1];
      if Given(r.turnId) && r.turnId.value in ByTurn(turns) {
        var turn := ByTurn(turns)[r.turnId.value];
        if Budgeted(turns, es, limit) { RememberedKeepsBudget(turns, es, turn, limit); }
        if DifferentTurns(es) { RememberedKeepsDifferent(es, turn, limit); }
      }
    }
  }

  lemma {:induction false} DifferentAt(excerpts: seq<Excerpt>, j: nat, k: nat)
    requires DifferentTurns(excerpts) && j < k < |excerpts|
    ensures excerpts[j].turnId != excerpts[k].turnId
  {
    var n := |excerpts| - 1;
    if k == n {
      assert excerpts[..n][j] in excerpts[..n];
    } else {
      DifferentAt(excerpts[..n], j, k);
    }
  }

  // ----- the projection -----

  datatype Projection = Projection(
    summary: string,
    activeObjective: Option<string>,
    pendingRequest: Option<string>,
    turnIds: seq<string>,
    interpretationIds: seq<string>,
    claimIds: seq<string>,
    ambiguities: seq<string>,
    excerpts: seq<Excerpt>,
    concepts: seq<Concept>,
    reflection: seq<string>,
    tokenEstimate: nat)

  /** The first given value: of the newest kept record that has one. */
  function FirstGiven(values: seq<Option<string>>): Option<string> {
    if values == [] then None
    else
      var before := FirstGiven(values[..|values| - 1]);
      if before.Some? then before else if Given(values[|values| - 1]) then values[|values| - 1] else None
  }

  lemma {:induction false} FirstGivenIsFirst(values: seq<Option<string>>)
    ensures if FirstGiven(values).None? then forall v | v in values :: !Given(v)
            else exists k ::
                   0 <= k < |values| && values[k] == FirstGiven(values) && Given(values[k])
                   && forall v | v in values[..k] :: !Given(v)
  {
    if values != [] {
      var n := |values| - 1;
      FirstGivenIsFirst(values[..n]);
      if FirstGiven(values[..n]).Some? {
        var k :| 0 <= k < n && values[..n][k] == FirstGiven(values) && Given(values[k])
                 && forall v | v in values[..n][..k] :: !Given(v);
        assert values[..n][..k] == values[..k];
      } else {
        assert values == values[..n] + [values[n]];
      }
    }
  }

  function Objectives(kept: seq<Record>): seq<Option<string>> {
    seq(|kept|, k requires 0 <= k < |kept| => kept[k].objective)
  }

  function Requests(kept: seq<Record>): seq<Option<string>> {
    seq(|kept|, k requires 0 <= k < |kept| => kept[k].request)
  }

  function Current(records: seq<Record>): seq<Record> {
    Without(records, SupersededRecords(records))
  }

  /** The selected records, oldest first. */
  function SelectedRecords(terms: Terms, records: seq<Record>, message: string, n: int): (r: seq<Record>)
    ensures |r| == HeadLength(|records|, n)
  {
    var selected := Selected(terms, records, message, n);
    assert |selected| == HeadLength(|records|, n) && (forall k | 0 <= k < |selected| :: selected[k] < |records|) by {
      SelectedWithin(terms, records, message, n);
    }
    seq(|selected|, k requires 0 <= k < |selected| => records[selected[k]])
  }

  lemma SelectedWithin(terms: Terms, records: seq<Record>, message: string, n: int)
    ensures var selected := Selected(terms, records, message, n);
            |selected| == HeadLength(|records|, n) && (forall k | 0 <= k < |selected| :: selected[k] < |records|)
  {
    hide Selected, Better, HeadLength;
    var selected := Selected(terms, records, message, n);
    SelectedHoldsChosen(terms, records, message, n);
    forall k | 0 <= k < |selected| ensures selected[k] < |records| {
      SelectedAreBest(terms, records, message, n, 0);
      assert selected[k] in selected;
    }
  }

  /** Positions are read from the later record to the earlier one. */
  ghost predicate NewestFirst(kept: seq<Record>) {
    forall j, k | 0 <= j < k < |kept| :: kept[j].createdAt >= kept[k].createdAt
  }

  lemma SelectionIsOldestFirst(terms: Terms, records: seq<Record>, message: string, n: int)
    ensures NewestFirst(Reversed(SelectedRecords(terms, records, message, n)))
  {
    var selected := Selected(terms, records, message, n);
    var listed := SelectedRecords(terms, records, message, n);
    SelectedWithin(terms, records, message, n);
    hide Selected, Better, HeadLength;
    forall j, k | 0 <= j < k < |listed| ensures listed[j].createdAt <= listed[k].createdAt {
      SelectedAreOldestFirst(terms, records, message, n, j, k);
    }
    hide SelectedRecords;
  }

  lemma {:induction false} KeptNewestFirst(order: seq<Record>, max: int)
    requires NewestFirst(order)
    ensures NewestFirst(Kept(order, max))
    ensures forall r | r in Kept(order, max) :: r in order
  {
    if order != [] {
      var n := |order| - 1;
      var before := Kept(order[..n], max);
      KeptNewestFirst(order[..n], max);
      assert Kept(order, max) == before || Kept(order, max) == before + [order[n]];
      hide Kept;
      OlderComesLast(order, before);
    }
  }

  lemma OlderComesLast(order: seq<Record>, before: seq<Record>)
    requires NewestFirst(order) && order != [] && NewestFirst(before)
    requires forall r | r in before :: r in order[..|order| - 1]
    ensures NewestFirst(before + [order[|order| - 1]])
    ensures forall r | r in before :: r in order
  {
    var n := |order| - 1;
    forall r | r in before ensures r in order && r.createdAt >= order[n].createdAt {
      var j :| 0 <= j < n && order[..n][j] == r;
      assert order[j] == r;
    }
    assert forall k | 0 <= k < |before| :: before[k] in before;
  }

  /** What the projection is built from, the newest record first. */
  lemma KeptRecordsAreNewestFirst(terms: Terms, limits: Limits, message: string, records: seq<Record>)
    ensures NewestFirst(KeptRecords(terms, limits, message, records))
  {
    var selected := SelectedRecords(terms, Current(records), message, limits.maxRecords);
    SelectionIsOldestFirst(terms, Current(records), message, limits.maxRecords);
    hide SelectedRecords, Kept;
    KeptNewestFirst(Reversed(selected), limits.maxCharacters);
  }

  /** The value is given by a record than which no kept record that gives one is newer; none is given exactly when
      none can be. */
  ghost predicate IsLatest(value: Option<string>, kept: seq<Record>, gives: Record -> Option<string>) {
    if value.None? then forall r | r in kept :: !Given(gives(r))
    else
      && Given(value)
      && exists r ::
           r in kept && gives(r) == value && forall q | q in kept && Given(gives(q)) :: q.createdAt <= r.createdAt
  }

  lemma FirstIsLatest(kept: seq<Record>, gives: Record -> Option<string>, values: seq<Option<string>>)
    requires NewestFirst(kept) && |values| == |kept| && forall k | 0 <= k < |kept| :: values[k] == gives(kept[k])
    ensures IsLatest(FirstGiven(values), kept, gives)
  {
    FirstGivenIsFirst(values);
    if FirstGiven(values).None? {
      forall r | r in kept ensures !Given(gives(r)) {
        var k :| 0 <= k < |kept| && kept[k] == r;
        assert values[k] in values;
      }
    } else {
      var k :| 0 <= k < |values| && values[k] == FirstGiven(values) && Given(values[k])
               && forall v | v in values[..k] :: !Given(v);
      GivenLater(kept, gives, values, k);
    }
  }

  lemma GivenLater(kept: seq<Record>, gives: Record -> Option<string>, values: seq<Option<string>>, k: nat)
    requires NewestFirst(kept) && |values| == |kept| && forall j | 0 <= j < |kept| :: values[j] == gives(kept[j])
    requires k < |kept| && Given(values[k]) && forall v | v in values[..k] :: !Given(v)
    ensures IsLatest(values[k], kept, gives)
  {
    assert kept[k] in kept;
    forall j | 0 <= j < k ensures !Given(values[j]) {
      assert values[..k][j] in values[..k];
    }
    forall q | q in kept && Given(gives(q)) ensures q.createdAt <= kept[k].createdAt {
      var j :| 0 <= j < |kept| && kept[j] == q;
    }
  }

  function RecordIds(records: seq<Record>): seq<string> {
    seq(|records|, k requires 0 <= k < |records| => records[k].id)
  }

  function KeptRecords(terms: Terms, limits: Limits, message: string, records: seq<Record>): seq<Record> {
    Kept(Reversed(SelectedRecords(terms, Current(records), message, limits.maxRecords)), limits.maxCharacters)
  }

  /** The excerpts in the order in which they are taken, the latest dialogue first. */
  function Excerpts(terms: Terms, limits: Limits, session: string, message: string, turns: seq<ChatTurn>,
                    records: seq<Record>): seq<Excerpt> {
    QuoteRecords(QuoteAllRecent(Recent(turns, session), limits.maxVerbatim), ByTurn(turns),
                 KeptRecords(terms, limits, message, records), limits.maxVerbatim)
  }

  /** The two recent turns have one id, and both fit. */
  ghost predicate SameTurnTwice(recent: seq<ChatTurn>, limit: int) {
    && |recent| == 2 && recent[0].id == recent[1].id && |recent[0].userMessage| <= limit
    && |recent[1].userMessage| <=
      limit - |recent[0].userMessage| - |Shortened(recent[0].answer, limit - |recent[0].userMessage|)|
  }

  lemma RecentAreDifferent(recent: seq<ChatTurn>, limit: int)
    requires |recent| <= 2
    ensures var es := QuoteAllRecent(recent, limit);
            if SameTurnTwice(recent, limit) then |es| == 2 && es[0].turnId == es[1].turnId else DifferentTurns(es)
  {
    if |recent| == 0 {
      assert QuoteAllRecent(recent, limit) == [];
    } else if |recent| == 1 {
      assert recent == [recent[0]];
      OneRecent(recent[0], limit);
    } else {
      assert recent[..1] == [recent[0]];
      hide DifferentTurns, Chars;
      OneRecent(recent[0], limit);
      MoreRecent(QuoteAllRecent([recent[0]], limit), recent[1], limit);
      assert QuoteAllRecent(recent, limit) == QuoteRecent(QuoteAllRecent([recent[0]], limit), recent[1], limit);
    }
  }

  lemma MoreRecent(before: seq<Excerpt>, turn: ChatTurn, limit: int)
    requires DifferentTurns(before)
    ensures turn.id !in Ids(before) ==> DifferentTurns(QuoteRecent(before, turn, limit))
    ensures |QuoteRecent(before, turn, limit)| ==
              |before| + if |turn.userMessage| <= limit - Chars(before) then 1 else 0
    ensures |turn.userMessage| > limit - Chars(before) ==> DifferentTurns(QuoteRecent(before, turn, limit))
  {
    var after := QuoteRecent(before, turn, limit);
    if after != before {
      OneMore(before, after[|before|]);
    }
  }

  lemma OneRecent(turn: ChatTurn, limit: int)
    ensures var es := QuoteAllRecent([turn], limit);
            && es == (if |turn.userMessage| <= limit
                      then [Quote(turn, Shortened(turn.answer, limit - |turn.userMessage|))] else [])
            && DifferentTurns(es) && Ids(es) == (if |turn.userMessage| <= limit then {turn.id} else {})
            && Chars(es) == if es == [] then 0 else Size(es[0])
  {
    assert [turn][..0] == [] && QuoteAllRecent([], limit) == [];
    if |turn.userMessage| <= limit {
      OneMore([], Quote(turn, Shortened(turn.answer, limit - |turn.userMessage|)));
    }
  }

  /** A turn is quoted twice exactly when the session's last two turns share an id and both fit. */
  lemma NoTurnIsQuotedTwice(terms: Terms, limits: Limits, session: string, message: string, turns: seq<ChatTurn>,
                            records: seq<Record>)
    ensures var es := Excerpts(terms, limits, session, message, turns, records);
            SameTurnTwice(Recent(turns, session), limits.maxVerbatim) <==>
            exists j, k :: 0 <= j < k < |es| && es[j].turnId == es[k].turnId
  {
    hide SameTurnTwice, DifferentTurns, KeptRecords, ByTurn;
    var recent, kept, limit := Recent(turns, session), KeptRecords(terms, limits, message, records), limits.maxVerbatim;
    var start, es := QuoteAllRecent(recent, limit), Excerpts(terms, limits, session, message, turns, records);
    assert |recent| <= 2;
    RecentAreDifferent(recent, limit);
    RecordsKeep(turns, start, kept, limit);
    RecordsExtend(start, ByTurn(turns), kept, limit);
    hide Recent, QuoteAllRecent, Excerpts, QuoteRecords;
    if SameTurnTwice(recent, limit) {
      assert es[0] == start[0] && es[1] == start[1];
    } else {
      forall j, k | 0 <= j < k < |es| ensures es[j].turnId != es[k].turnId {
        DifferentAt(es, j, k);
      }
    }
  }

  lemma {:induction false} RecordsExtend(start: seq<Excerpt>, byTurn: map<string, ChatTurn>, kept: seq<Record>,
                                         limit: int)
    ensures start <= QuoteRecords(start, byTurn, kept, limit)
  {
    if kept != [] {
      RecordsExtend(start, byTurn, kept[..|kept| - 1], limit);
    }
  }

  // ----- exactly when the verbatim budget is exceeded -----

  /** The record's turn is not quoted yet, and its message fits what is left but not with its answer. */
  predicate IsCut(excerpts: seq<Excerpt>, byTurn: map<string, ChatTurn>, r: Record, limit: int) {
    && Given(r.turnId) && r.turnId.value in byTurn
    && var turn := byTurn[r.turnId.value];
    && turn.id !in Ids(excerpts)
    && |turn.userMessage| <= limit - Chars(excerpts) < |turn.userMessage| + |turn.answer|
  }

  ghost predicate SomeIsCut(start: seq<Excerpt>, byTurn: map<string, ChatTurn>, kept: seq<Record>, limit: int) {
    exists n :: 0 <= n < |kept| && IsCut(QuoteRecords(start, byTurn, kept[..n], limit), byTurn, kept[n], limit)
  }

  lemma OneRecordOver(excerpts: seq<Excerpt>, byTurn: map<string, ChatTurn>, r: Record, limit: int)
    ensures var after := QuoteRecord(excerpts, byTurn, r, limit);
            && (IsCut(excerpts, byTurn, r, limit) ==> Chars(excerpts) <= limit && Chars(after) == limit + |Marker()|)
            && (!IsCut(excerpts, byTurn, r, limit) && Chars(excerpts) <= Larger(0, limit) ==>
                Chars(after) <= Larger(0, limit))
            && (Chars(excerpts) > Larger(0, limit) ==> after == excerpts)
  {
    hide Marker;
    if Given(r.turnId) && r.turnId.value in byTurn {
      var turn := byTurn[r.turnId.value];
      var after := QuoteRemembered(excerpts, turn, limit);
      if after != excerpts {
        OneMore(excerpts, after[|excerpts|]);
      }
    }
  }

  lemma SomeIsCutMore(start: seq<Excerpt>, byTurn: map<string, ChatTurn>, kept: seq<Record>, limit: int)
    requires kept != []
    ensures var before, r := kept[..|kept| - 1], kept[|kept| - 1];
            SomeIsCut(start, byTurn, kept, limit) <==>
            SomeIsCut(start, byTurn, before, limit)
              || IsCut(QuoteRecords(start, byTurn, before, limit), byTurn, r, limit)
  {
    hide IsCut, QuoteRecords;
    var m := |kept| - 1;
    assert forall n | 0 <= n < m :: kept[..m][..n] == kept[..n];
  }

  lemma {:induction false} ExceededExactlyWhenCut(start: seq<Excerpt>, byTurn: map<string, ChatTurn>, kept: seq<Record>,
                                                  limit: int)
    requires Chars(start) <= Larger(0, limit)
    ensures var es := QuoteRecords(start, byTurn, kept, limit);
            && (Chars(es) > Larger(0, limit) <==> SomeIsCut(start, byTurn, kept, limit))
            && (Chars(es) > Larger(0, limit) ==> Chars(es) == limit + |Marker()|)
  {
    hide IsCut, SomeIsCut, Chars, QuoteRecord;
    if kept == [] {
      assert !SomeIsCut(start, byTurn, kept, limit) by { NothingIsCut(start, byTurn, limit); }
    } else {
      var before, r := kept[..|kept| - 1], kept[|kept| - 1];
      ExceededExactlyWhenCut(start, byTurn, before, limit);
      SomeIsCutMore(start, byTurn, kept, limit);
      OneRecordOver(QuoteRecords(start, byTurn, before, limit), byTurn, r, limit);
    }
  }

  lemma NothingIsCut(start: seq<Excerpt>, byTurn: map<string, ChatTurn>, limit: int)
    ensures !SomeIsCut(start, byTurn, [], limit)
  {
  }

  /**
   Verbatim text exceeds its budget exactly when some kept record's answer is cut, and then by
   exactly the length of the mark, which the last answer alone carries.
   */
  lemma ExcerptsAreBudgeted(terms: Terms, limits: Limits, session: string, message: string, turns: seq<ChatTurn>,
                            records: seq<Record>)
    ensures var es := Excerpts(terms, limits, session, message, turns, records);
            && Budgeted(turns, es, limits.maxVerbatim)
            && (Chars(es) > Larger(0, limits.maxVerbatim) <==>
                SomeIsCut(QuoteAllRecent(Recent(turns, session), limits.maxVerbatim), ByTurn(turns),
                          KeptRecords(terms, limits, message, records), limits.maxVerbatim))
  {
    hide SomeIsCut, Chars, AllQuoted, IsMarkedQuote, KeptRecords, ByTurn, QuoteAllRecent, Recent;
    var recent, kept := Recent(turns, session), KeptRecords(terms, limits, message, records);
    assert forall t | t in recent :: t in turns by { RecentAreTurns(turns, session); }
    RecentAreBudgeted(turns, recent, limits.maxVerbatim);
    RecordsKeep(turns, QuoteAllRecent(recent, limits.maxVerbatim), kept, limits.maxVerbatim);
    ExceededExactlyWhenCut(QuoteAllRecent(recent, limits.maxVerbatim), ByTurn(turns), kept, limits.maxVerbatim);
  }

  // ----- a session in which it is -----

  const ASKED := ChatTurn("t", "earlier", "why?", "because", None, None, None)
  const REMEMBERED := Record("r", Some("t"), None, 0, "QUESTION", "EXPLAIN", "asks why", None, None, [], false, false,
                             [], [], [])

  lemma OneRecordIsKept(terms: Terms, limits: Limits, message: string, r: Record)
    requires limits.maxRecords >= 1 && limits.maxCharacters >= |Summary(r)| && r.supersedes == None
    ensures KeptRecords(terms, limits, message, [r]) == [r]
  {
    hide Summary, Selected, Kept, Without;
    NothingIsSuperseded(r);
    SelectedWithin(terms, [r], message, limits.maxRecords);
    var selected := SelectedRecords(terms, [r], message, limits.maxRecords);
    assert selected == [r];
    assert Reversed(selected) == [r];
    ShortSummaryIsKept(r, limits.maxCharacters);
  }

  lemma NothingIsSuperseded(r: Record)
    requires r.supersedes == None
    ensures Current([r]) == [r]
  {
    assert SupersededRecords([r]) == {};
    SelectOne(r);
  }

  lemma ShortSummaryIsKept(r: Record, max: int)
    requires |Summary(r)| <= max
    ensures Kept([r], max) == [r]
  {
    assert [r][..0] == [] && Kept([], max) == [];
  }

  lemma OneTurn(turn: ChatTurn, session: string)
    requires turn.sessionId != session
    ensures Recent([turn], session) == [] && ByTurn([turn]) == map[turn.id := turn]
  {
    assert [turn][..0] == [] && ByTurn([]) == map[];
    SelectOne(turn);
  }

  lemma QuoteOneRecord(byTurn: map<string, ChatTurn>, r: Record, limit: int)
    ensures QuoteRecords([], byTurn, [r], limit) == QuoteRecord([], byTurn, r, limit)
  {
    assert [r][..0] == [];
  }

  /** A turn of another session fills the budget with its message; its answer leaves only the mark. */
  lemma VerbatimCanExceed(terms: Terms, message: string)
    ensures var excerpts := Excerpts(terms, Limits(8, 6000, 4), "now", message, [ASKED], [REMEMBERED]);
            excerpts == [Quote(ASKED, Marker())] && Chars(excerpts) == 4 + |Marker()|
  {
    var limits := Limits(8, 6000, 4);
    OneRecordIsKept(terms, limits, message, REMEMBERED);
    OneTurn(ASKED, "now");
    OneMore([], Quote(ASKED, Marker()));
    hide KeptRecords, Recent, ByTurn, Marker;
    QuoteOneRecord(map["t" := ASKED], REMEMBERED, 4);
    assert QuoteAllRecent([], 4) == [];
    assert ASKED.answer[..0] + Marker() == Marker();
  }

  lemma RecentAreTurns(turns: seq<ChatTurn>, session: string)
    ensures forall t | t in Recent(turns, session) :: t in turns && t.sessionId == session
  {
    var own, recent := OfSession(turns, session), Recent(turns, session);
    hide Select;
    forall k | 0 <= k < |recent| ensures recent[k] in own {
    }
  }

  function Estimate(terms: Terms, limits: Limits, session: string, message: string, turns: seq<ChatTurn>,
                    records: seq<Record>): nat {
    (|SummaryText(KeptRecords(terms, limits, message, records))|
     + Chars(Excerpts(terms, limits, session, message, turns, records)) + 3) / 4
  }

  /** The most records a record limit lets through; a negative one drops that many of the current records. */
  function RecordBound(limits: Limits, records: seq<Record>): nat {
    if limits.maxRecords >= 0 then limits.maxRecords else Larger(0, |Current(records)| + limits.maxRecords)
  }

  /** A token for every four characters of summary and quotations, the last one begun included. */
  lemma EstimateIsCeiling(terms: Terms, limits: Limits, session: string, message: string, turns: seq<ChatTurn>,
                          records: seq<Record>)
    ensures var characters := |SummaryText(KeptRecords(terms, limits, message, records))|
                              + Chars(Excerpts(terms, limits, session, message, turns, records));
            characters <= 4 * Estimate(terms, limits, session, message, turns, records) < characters + 4
  {
    hide SummaryText, KeptRecords, Excerpts, Chars;
  }

  /** The closed bound on the token estimate, in the three limits. */
  lemma EstimateIsBounded(terms: Terms, limits: Limits, session: string, message: string, turns: seq<ChatTurn>,
                          records: seq<Record>)
    ensures Estimate(terms, limits, session, message, turns, records) <=
            (Larger(|NoState()|, Larger(0, limits.maxCharacters) + Larger(0, RecordBound(limits, records) - 1))
             + Larger(0, limits.maxVerbatim) + |Marker()| + 3) / 4
  {
    SummaryIsBounded(terms, limits, message, records);
    VerbatimIsBounded(terms, limits, session, message, turns, records);
    hide KeptRecords, Excerpts, SummaryText, Chars, Marker, NoState, RecordBound;
  }

  lemma SummaryIsBounded(terms: Terms, limits: Limits, message: string, records: seq<Record>)
    ensures |SummaryText(KeptRecords(terms, limits, message, records))| <=
            Larger(|NoState()|, Larger(0, limits.maxCharacters) + Larger(0, RecordBound(limits, records) - 1))
  {
    hide SummaryText, Length, NoState, Kept, SelectedRecords, Current;
    KeptFits(Reversed(SelectedRecords(terms, Current(records), message, limits.maxRecords)), limits.maxCharacters);
    SummaryTextLength(KeptRecords(terms, limits, message, records));
  }

  lemma VerbatimIsBounded(terms: Terms, limits: Limits, session: string, message: string, turns: seq<ChatTurn>,
                          records: seq<Record>)
    ensures Chars(Excerpts(terms, limits, session, message, turns, records)) <=
              Larger(0, limits.maxVerbatim) + |Marker()|
  {
    ExcerptsAreBudgeted(terms, limits, session, message, turns, records);
    hide Excerpts, Chars, AllQuoted, IsMarkedQuote, Marker;
  }

  // ----- what else the projection lists -----

  /** The turns that the records name. */
  function NamedTurns(kept: seq<Record>): seq<string> {
    if kept == [] then []
    else NamedTurns(kept[..|kept| - 1]) + if Given(kept[|kept| - 1].turnId) then [kept[|kept| - 1].turnId.value] else []
  }

  function QuotedTurns(excerpts: seq<Excerpt>): seq<string> {
    seq(|excerpts|, k requires 0 <= k < |excerpts| => excerpts[k].turnId)
  }

  function ClaimOf(turn: ChatTurn): seq<string> {
    if Given(turn.claimId) then [turn.claimId.value] else []
  }

  /** The claims of the recent turns that are quoted. */
  function RecentClaims(recent: seq<ChatTurn>, limit: int): seq<string> {
    if recent == [] then []
    else
      var before, turn := recent[..|recent| - 1], recent[|recent| - 1];
      RecentClaims(before, limit)
        + if |turn.userMessage| > limit - Chars(QuoteAllRecent(before, limit)) then [] else ClaimOf(turn)
  }

  /** The claims of the records' known turns that were not quoted before, whether or not they fit. */
  function RecordClaims(start: seq<Excerpt>, byTurn: map<string, ChatTurn>, kept: seq<Record>,
                        limit: int): seq<string> {
    if kept == [] then []
    else
      var before, r := kept[..|kept| - 1], kept[|kept| - 1];
      RecordClaims(start, byTurn, before, limit)
      + if Given(r.turnId) && r.turnId.value in byTurn
        && byTurn[r.turnId.value].id !in Ids(QuoteRecords(start, byTurn, before, limit))
        then ClaimOf(byTurn[r.turnId.value]) else []
  }

  function Ambiguities(kept: seq<Record>): seq<string> {
    if kept == [] then []
    else Ambiguities(kept[..|kept| - 1])
         + if kept[|kept| - 1].needsClarification then kept[|kept| - 1].ambiguities else []
  }

  function Reflections(kept: seq<Record>): seq<string> {
    if kept == [] then [] else Reflections(kept[..|kept| - 1]) + kept[|kept| - 1].reflection
  }

  function Bindings(kept: seq<Record>): seq<Concept> {
    if kept == [] then [] else Bindings(kept[..|kept| - 1]) + kept[|kept| - 1].concepts
  }

  /** A binding whose name is bound already, letter case aside, is ignored. */
  function Bind(fold: Fold, known: seq<Concept>, c: Concept): seq<Concept> {
    if exists k | 0 <= k < |known| :: fold(known[k].name) == fold(c.name) then known else known + [c]
  }

  function Bound(fold: Fold, concepts: seq<Concept>): seq<Concept> {
    if concepts == [] then [] else Bind(fold, Bound(fold, concepts[..|concepts| - 1]), concepts[|concepts| - 1])
  }

  ghost predicate NameIsIn(fold: Fold, concepts: seq<Concept>, name: string) {
    exists c :: c in concepts && fold(c.name) == fold(name)
  }

  lemma NameAt(fold: Fold, concepts: seq<Concept>, name: string)
    ensures NameIsIn(fold, concepts, name) <==>
              exists k | 0 <= k < |concepts| :: fold(concepts[k].name) == fold(name)
  {
    if NameIsIn(fold, concepts, name) {
      var c :| c in concepts && fold(c.name) == fold(name);
      var k :| 0 <= k < |concepts| && concepts[k] == c;
      assert fold(concepts[k].name) == fold(name);
    }
    if exists k | 0 <= k < |concepts| :: fold(concepts[k].name) == fold(name) {
      var k :| 0 <= k < |concepts| && fold(concepts[k].name) == fold(name);
      assert concepts[k] in concepts;
    }
  }

  lemma BoundIsBind(fold: Fold, concepts: seq<Concept>)
    requires concepts != []
    ensures var before, last := Bound(fold, concepts[..|concepts| - 1]), concepts[|concepts| - 1];
            Bound(fold, concepts) == if NameIsIn(fold, before, last.name) then before else before + [last]
  {
    hide NameIsIn;
    NameAt(fold, Bound(fold, concepts[..|concepts| - 1]), concepts[|concepts| - 1].name);
  }

  /** Every name bound by a list is bound once, by the list's first binding of it. */
  lemma {:induction false} FirstBindingWins(fold: Fold, concepts: seq<Concept>, name: string)
    ensures var known := Bound(fold, concepts);
            && (NameIsIn(fold, known, name) <==> NameIsIn(fold, concepts, name))
            && (forall j, k | 0 <= j < k < |known| :: fold(known[j].name) != fold(known[k].name))
            && forall c | c in known :: IsFirstBinding(fold, concepts, c)
  {
    if concepts != [] {
      var n := |concepts| - 1;
      var before, last := Bound(fold, concepts[..n]), concepts[n];
      FirstBindingWins(fold, concepts[..n], name);
      assert concepts == concepts[..n] + [last];
      FirstBindingWins(fold, concepts[..n], last.name);
      NamesOfOneMore(fold, concepts[..n], last, name);
      NamesOfOneMore(fold, before, last, name);
      BoundIsBind(fold, concepts);
      hide Bound;
      forall c | c in Bound(fold, concepts) ensures IsFirstBinding(fold, concepts, c) {
        if c in before {
          FirstBindingStays(fold, concepts, c);
        } else {
          assert concepts[n] == c && !NameIsIn(fold, before, c.name);
        }
      }
    }
  }

  /** The list's first binding of this name. */
  ghost predicate IsFirstBinding(fold: Fold, concepts: seq<Concept>, c: Concept) {
    exists k :: 0 <= k < |concepts| && concepts[k] == c && !NameIsIn(fold, concepts[..k], c.name)
  }

  lemma FirstBindingStays(fold: Fold, concepts: seq<Concept>, c: Concept)
    requires concepts != [] && IsFirstBinding(fold, concepts[..|concepts| - 1], c)
    ensures IsFirstBinding(fold, concepts, c)
  {
    var n := |concepts| - 1;
    var k :| 0 <= k < n && concepts[..n][k] == c && !NameIsIn(fold, concepts[..n][..k], c.name);
    assert concepts[..n][..k] == concepts[..k];
  }

  lemma NamesOfOneMore(fold: Fold, concepts: seq<Concept>, c: Concept, name: string)
    ensures NameIsIn(fold, concepts + [c], name) <==> NameIsIn(fold, concepts, name) || fold(c.name) == fold(name)
  {
    if NameIsIn(fold, concepts, name) {
      var other :| other in concepts && fold(other.name) == fold(name);
      assert other in concepts + [c];
    }
    assert c in concepts + [c];
  }

  // ----- the latest binding of a name -----

  ghost predicate Binds(fold: Fold, r: Record, name: string) {
    exists c :: c in r.concepts && fold(c.name) == fold(name)
  }

  /** A latest kept record among those that bind the name binds it first to this. */
  ghost predicate IsLatestBinding(fold: Fold, kept: seq<Record>, c: Concept) {
    exists r :: r in kept && IsFirstBinding(fold, r.concepts, c)
                && forall q | q in kept && Binds(fold, q, c.name) :: q.createdAt <= r.createdAt
  }

  lemma {:induction false} BindingsExactly(kept: seq<Record>, c: Concept)
    ensures c in Bindings(kept) <==> exists r :: r in kept && c in r.concepts
  {
    if kept != [] {
      var before, last := kept[..|kept| - 1], kept[|kept| - 1];
      BindingsExactly(before, c);
      assert kept == before + [last];
    }
  }

  lemma NameIsBound(fold: Fold, kept: seq<Record>, name: string)
    ensures NameIsIn(fold, Bindings(kept), name) <==> exists r :: r in kept && Binds(fold, r, name)
  {
    forall c ensures c in Bindings(kept) <==> exists r :: r in kept && c in r.concepts {
      BindingsExactly(kept, c);
    }
  }

  lemma BindingPlace(fold: Fold, concepts: seq<Concept>, c: Concept) returns (k: nat)
    requires IsFirstBinding(fold, concepts, c)
    ensures k < |concepts| && concepts[k] == c && !NameIsIn(fold, concepts[..k], c.name)
  {
    hide NameIsIn;
    k :| 0 <= k < |concepts| && concepts[k] == c && !NameIsIn(fold, concepts[..k], c.name);
  }

  lemma BindingsOfMore(kept: seq<Record>)
    requires kept != []
    ensures Bindings(kept) == Bindings(kept[..|kept| - 1]) + kept[|kept| - 1].concepts
    ensures kept == kept[..|kept| - 1] + [kept[|kept| - 1]]
  {
  }

  lemma {:induction false} FirstBindingIsLatest(fold: Fold, kept: seq<Record>, c: Concept)
    requires NewestFirst(kept) && IsFirstBinding(fold, Bindings(kept), c)
    ensures IsLatestBinding(fold, kept, c)
  {
    var k := BindingPlace(fold, Bindings(kept), c);
    var before, last := kept[..|kept| - 1], kept[|kept| - 1];
    BindingsOfMore(kept);
    hide Bindings, NameIsIn, IsLatestBinding;
    var n := |Bindings(before)|;
    if k < n {
      assert Bindings(before)[..k] == Bindings(kept)[..k] && Bindings(before)[k] == c;
      assert IsFirstBinding(fold, Bindings(before), c);
      hide IsFirstBinding;
      FirstBindingIsLatest(fold, before, c);
      BoundEarlier(fold, before, last, c);
    } else {
      hide IsFirstBinding;
      BoundByLast(fold, before, last, c, k - n);
    }
  }

  lemma BoundEarlier(fold: Fold, before: seq<Record>, last: Record, c: Concept)
    requires NewestFirst(before + [last]) && IsLatestBinding(fold, before, c)
    ensures IsLatestBinding(fold, before + [last], c)
  {
    hide Binds, IsFirstBinding;
    var r :| r in before && IsFirstBinding(fold, r.concepts, c)
             && forall q | q in before && Binds(fold, q, c.name) :: q.createdAt <= r.createdAt;
    var j :| 0 <= j < |before| && before[j] == r;
    assert (before + [last])[j] == r && (before + [last])[|before|] == last;
    assert r in before + [last];
  }

  lemma BoundByLast(fold: Fold, before: seq<Record>, last: Record, c: Concept, k: nat)
    requires k < |last.concepts| && last.concepts[k] == c
    requires !NameIsIn(fold, (Bindings(before) + last.concepts)[..|Bindings(before)| + k], c.name)
    ensures IsLatestBinding(fold, before + [last], c)
  {
    var all, n := Bindings(before) + last.concepts, |Bindings(before)|;
    assert all[..n + k] == Bindings(before) + last.concepts[..k];
    assert !NameIsIn(fold, last.concepts[..k], c.name);
    assert !NameIsIn(fold, Bindings(before), c.name);
    NameIsBound(fold, before, c.name);
    assert last in before + [last];
    hide Bindings, NameIsIn, Binds;
    forall q | q in before + [last] && Binds(fold, q, c.name) ensures q == last {
      assert q in before ==> !Binds(fold, q, c.name);
    }
  }

  /** Each name that a kept record binds is remembered once, as a latest such record binds it. */
  ghost predicate AreLatestBindings(fold: Fold, kept: seq<Record>, concepts: seq<Concept>) {
    && (forall c | c in concepts :: IsLatestBinding(fold, kept, c))
    && (forall j, k | 0 <= j < k < |concepts| :: fold(concepts[j].name) != fold(concepts[k].name))
    && (forall r, c | r in kept && c in r.concepts :: NameIsIn(fold, concepts, c.name))
  }

  lemma BoundAreLatest(fold: Fold, kept: seq<Record>)
    requires NewestFirst(kept)
    ensures AreLatestBindings(fold, kept, Reversed(Bound(fold, Bindings(kept))))
  {
    hide Bound, Bindings, IsLatestBinding, IsFirstBinding, NewestFirst;
    var known, concepts := Bound(fold, Bindings(kept)), Reversed(Bound(fold, Bindings(kept)));
    FirstBindingWins(fold, Bindings(kept), "");
    forall c | c in concepts ensures IsLatestBinding(fold, kept, c) {
      var k :| 0 <= k < |concepts| && concepts[k] == c;
      assert known[|known| - 1 - k] == c && c in known;
      FirstBindingIsLatest(fold, kept, c);
    }
    forall r, c | r in kept && c in r.concepts ensures NameIsIn(fold, concepts, c.name) {
      BindingsExactly(kept, c);
      FirstBindingWins(fold, Bindings(kept), c.name);
      var d :| d in known && fold(d.name) == fold(c.name);
      var k :| 0 <= k < |known| && known[k] == d;
      assert concepts[|known| - 1 - k] == d;
    }
  }

  /** A turn is relevant exactly when it is quoted or a kept record names it. */
  lemma RelevantTurns(fold: Fold, recent: seq<ChatTurn>, turns: seq<ChatTurn>, kept: seq<Record>, limit: int,
                      id: string)
    ensures var g := GatheredFrom(fold, recent, ByTurn(turns), kept, limit);
            && NoTwoEqual(Relevant(g.turnIds))
            && (id in Relevant(g.turnIds) <==>
                id in Ids(g.excerpts) || exists r :: r in kept && r.turnId == Some(id) && id != "")
  {
    var start, byTurn := QuoteAllRecent(recent, limit), ByTurn(turns);
    var ids := QuotedTurns(start) + NamedTurns(kept);
    DeduplicatedKeeps(Reversed(ids));
    DeduplicatedHasNoTwo(Reversed(ids));
    NamedExactly(kept, id);
    QuotedByRecords(start, byTurn, kept, limit);
    RecordsExtend(start, byTurn, kept, limit);
    ReversedHolds(ids, id);
    QuotedExactly(start, id);
    hide QuoteAllRecent, QuoteRecords, NamedTurns, Deduplicated, Reversed, QuotedTurns, ByTurn;
    if id in Ids(start) {
      var e :| e in start && e.turnId == id;
      assert e in QuoteRecords(start, byTurn, kept, limit);
    }
  }

  lemma ReversedHolds(s: seq<string>, x: string)
    ensures x in Reversed(s) <==> x in s
  {
    if x in s {
      var k :| 0 <= k < |s| && s[k] == x;
      assert Reversed(s)[|s| - 1 - k] == x;
    }
  }

  lemma QuotedExactly(excerpts: seq<Excerpt>, id: string)
    ensures id in QuotedTurns(excerpts) <==> id in Ids(excerpts)
  {
    if id in Ids(excerpts) {
      var e :| e in excerpts && e.turnId == id;
      var k :| 0 <= k < |excerpts| && excerpts[k] == e;
      assert QuotedTurns(excerpts)[k] == id;
    }
  }

  lemma {:induction false} NamedExactly(kept: seq<Record>, id: string)
    ensures id in NamedTurns(kept) <==> exists r :: r in kept && r.turnId == Some(id) && id != ""
  {
    if kept != [] {
      var before, last := kept[..|kept| - 1], kept[|kept| - 1];
      NamedExactly(before, id);
      assert kept == before + [last];
    }
  }

  /** Excerpts beyond the first are of turns that the records name. */
  lemma {:induction false} QuotedByRecords(start: seq<Excerpt>, byTurn: map<string, ChatTurn>, kept: seq<Record>,
                                           limit: int)
    requires forall t | t in byTurn :: byTurn[t].id == t
    ensures forall id | id in Ids(QuoteRecords(start, byTurn, kept, limit)) ::
              id in Ids(start) || id in NamedTurns(kept)
  {
    if kept != [] {
      QuotedByRecords(start, byTurn, kept[..|kept| - 1], limit);
    }
  }

  // ----- the two loops -----

  method QuoteLatest(turns: seq<ChatTurn>, session: string, limit: int)
    returns (excerpts: seq<Excerpt>, turnIds: seq<string>, claimIds: seq<string>, verbatim: nat)
    ensures excerpts == QuoteAllRecent(Recent(turns, session), limit) && verbatim == Chars(excerpts)
    ensures turnIds == QuotedTurns(excerpts) && claimIds == RecentClaims(Recent(turns, session), limit)
  {
    hide QuoteAllRecent, RecentClaims, Chars, Recent, QuotedTurns, QuoteRecent, ClaimOf;
    var recent := Recent(turns, session);
    excerpts, turnIds, claimIds, verbatim := [], [], [], 0;
    NoneRecent(limit);
    assert recent[..0] == [];
    for n := 0 to |recent|
      invariant excerpts == QuoteAllRecent(recent[..n], limit) && verbatim == Chars(excerpts)
      invariant turnIds == QuotedTurns(excerpts) && claimIds == RecentClaims(recent[..n], limit)
    {
      RecentOne(recent, n, limit);
      if |recent[n].userMessage| > limit - verbatim {
        TooLong(excerpts, recent[n], limit);
        continue;
      }
      excerpts, turnIds, claimIds, verbatim := QuoteRecentTurn(excerpts, turnIds, claimIds, verbatim, recent[n], limit);
    }
    assert recent[..|recent|] == recent;
  }

  lemma TooLong(excerpts: seq<Excerpt>, turn: ChatTurn, limit: int)
    requires |turn.userMessage| > limit - Chars(excerpts)
    ensures QuoteRecent(excerpts, turn, limit) == excerpts
  {
  }

  method QuoteRecentTurn(excerpts: seq<Excerpt>, turnIds: seq<string>, claimIds: seq<string>, verbatim: nat,
                         turn: ChatTurn, limit: int)
    returns (after: seq<Excerpt>, ids: seq<string>, claims: seq<string>, used: nat)
    requires verbatim == Chars(excerpts) && turnIds == QuotedTurns(excerpts) && |turn.userMessage| <= limit - verbatim
    ensures after == QuoteRecent(excerpts, turn, limit) && used == Chars(after)
    ensures ids == QuotedTurns(after) && claims == claimIds + ClaimOf(turn)
  {
    hide Chars, QuotedTurns;
    var answer := Shortened(turn.answer, limit - verbatim - |turn.userMessage|);
    QuoteAdds(excerpts, Quote(turn, answer));
    after, ids, claims := excerpts + [Quote(turn, answer)], turnIds + [turn.id], claimIds;
    if Given(turn.claimId) {
      claims := claims + [turn.claimId.value];
    }
    used := verbatim + |turn.userMessage| + |answer|;
  }

  lemma NoneRecent(limit: int)
    ensures QuoteAllRecent([], limit) == [] && RecentClaims([], limit) == [] && Chars([]) == 0 && QuotedTurns([]) == []
  {
  }

  lemma QuoteAdds(excerpts: seq<Excerpt>, e: Excerpt)
    ensures Chars(excerpts + [e]) == Chars(excerpts) + Size(e)
    ensures QuotedTurns(excerpts + [e]) == QuotedTurns(excerpts) + [e.turnId]
  {
    OneMore(excerpts, e);
  }

  lemma RecentOne(recent: seq<ChatTurn>, n: nat, limit: int)
    requires n < |recent|
    ensures var before, turn := recent[..n], recent[n];
            && QuoteAllRecent(recent[..n + 1], limit) == QuoteRecent(QuoteAllRecent(before, limit), turn, limit)
            && RecentClaims(recent[..n + 1], limit) == RecentClaims(before, limit) +
               if |turn.userMessage| > limit - Chars(QuoteAllRecent(before, limit)) then [] else ClaimOf(turn)
  {
    assert recent[..n + 1][..n] == recent[..n];
  }

  method QuoteTurn(excerpts: seq<Excerpt>, claimIds: seq<string>, verbatim: nat, turn: ChatTurn, limit: int)
    returns (after: seq<Excerpt>, claims: seq<string>, used: nat)
    requires verbatim == Chars(excerpts)
    ensures after == QuoteRemembered(excerpts, turn, limit) && used == Chars(after)
    ensures claims == claimIds + if turn.id in Ids(excerpts) then [] else ClaimOf(turn)
  {
    hide Chars, Ids, Marker, QuotedTurns;
    after, claims, used := excerpts, claimIds, verbatim;
    if turn.id !in Ids(excerpts) {
      if Given(turn.claimId) {
        claims := claims + [turn.claimId.value];
      }
      var remaining, required := limit - verbatim, |turn.userMessage|;
      if required <= remaining {
        var budget := if remaining - required < |turn.answer| then remaining - required else |turn.answer|;
        var stored := turn.answer[..budget];
        assert budget == |turn.answer| ==> stored == turn.answer;
        if budget < |turn.answer| {
          stored := stored + Marker();
        }
        QuoteAdds(excerpts, Quote(turn, stored));
        after := excerpts + [Quote(turn, stored)];
        used := verbatim + required + |stored|;
      }
    }
  }

  method BindAll(known: seq<Concept>, concepts: seq<Concept>, fold: Fold, ghost earlier: seq<Concept>)
    returns (more: seq<Concept>)
    requires known == Bound(fold, earlier)
    ensures more == Bound(fold, earlier + concepts)
  {
    more := known;
    assert earlier + concepts[..0] == earlier;
    for n := 0 to |concepts|
      invariant more == Bound(fold, earlier + concepts[..n])
    {
      assert (earlier + concepts[..n + 1])[..|earlier| + n] == earlier + concepts[..n];
      more := Bind(fold, more, concepts[n]);
    }
    assert concepts[..|concepts|] == concepts;
  }

  /** The variables of the second loop. */
  datatype Gathered = Gathered(
    kept: seq<Record>,
    characters: nat,
    summaries: seq<string>,
    objective: Option<string>,
    request: Option<string>,
    ambiguities: seq<string>,
    turnIds: seq<string>,
    claimIds: seq<string>,
    excerpts: seq<Excerpt>,
    concepts: seq<Concept>,
    reflection: seq<string>,
    verbatim: nat)

  function GatheredFrom(fold: Fold, recent: seq<ChatTurn>, byTurn: map<string, ChatTurn>, kept: seq<Record>,
                        limit: int): Gathered {
    var start := QuoteAllRecent(recent, limit);
    var excerpts := QuoteRecords(start, byTurn, kept, limit);
    Gathered(kept, Length(kept), Summaries(kept), FirstGiven(Objectives(kept)), FirstGiven(Requests(kept)),
             Ambiguities(kept),
             QuotedTurns(start) + NamedTurns(kept),
             RecentClaims(recent, limit) + RecordClaims(start, byTurn, kept, limit),
             excerpts, Bound(fold, Bindings(kept)), Reflections(kept), Chars(excerpts))
  }

  /**
   A record whose summary fits adds what it has: its objective and request if they are the first, its
   turn if not quoted yet.
   */
  method Gather(g: Gathered, record: Record, fold: Fold, ghost recent: seq<ChatTurn>, byTurn: map<string, ChatTurn>,
                limit: int) returns (more: Gathered)
    requires g == GatheredFrom(fold, recent, byTurn, g.kept, limit)
    ensures more == GatheredFrom(fold, recent, byTurn, g.kept + [record], limit)
  {
    hide QuoteRemembered, Length, Summaries, Summary, Objectives, Requests, FirstGiven, Chars, QuoteRecords,
         Ambiguities, NamedTurns, RecentClaims, RecordClaims, Bindings, Reflections, Bound, QuoteAllRecent, QuotedTurns,
         Ids, ClaimOf;
    GatheredParts(fold, recent, byTurn, g.kept, limit);
    GatheredParts(fold, recent, byTurn, g.kept + [record], limit);
    KeepOne(QuoteAllRecent(recent, limit), byTurn, g.kept, record, limit);
    ListOne(QuoteAllRecent(recent, limit), byTurn, g.kept, record, limit);
    hide GatheredFrom;
    var summary := Summary(record);
    var objective, request, ambiguities, turnIds := g.objective, g.request, g.ambiguities, g.turnIds;
    if objective.None? && Given(record.objective) {
      objective := record.objective;
    }
    if request.None? && Given(record.request) {
      request := record.request;
    }
    if record.needsClarification {
      ambiguities := ambiguities + record.ambiguities;
    }
    var concepts := BindAll(g.concepts, record.concepts, fold, Bindings(g.kept));
    var claimIds, excerpts, verbatim := g.claimIds, g.excerpts, g.verbatim;
    if Given(record.turnId) {
      turnIds := turnIds + [record.turnId.value];
      if record.turnId.value in byTurn {
        excerpts, claimIds, verbatim := QuoteTurn(excerpts, claimIds, verbatim, byTurn[record.turnId.value], limit);
      }
    }
    more := Gathered(g.kept + [record], g.characters + |summary|, g.summaries + [summary], objective, request,
                     ambiguities,
                     turnIds, claimIds, excerpts, concepts, g.reflection + record.reflection, verbatim);
  }

  /** The second loop, over the selected records from the newest on. */
  method GatherAll(selected: seq<Record>, first: Gathered, fold: Fold, ghost recent: seq<ChatTurn>,
                   byTurn: map<string, ChatTurn>, limits: Limits)
    returns (g: Gathered)
    requires first == GatheredFrom(fold, recent, byTurn, [], limits.maxVerbatim)
    ensures g == GatheredFrom(fold, recent, byTurn, Kept(Reversed(selected), limits.maxCharacters), limits.maxVerbatim)
  {
    ghost var order := Reversed(selected);
    g := first;
    assert order[..0] == [] && Kept(order[..0], limits.maxCharacters) == [];
    hide GatheredFrom, Kept, Length, Summary, Chars;
    for n := 0 to |selected|
      invariant g == GatheredFrom(fold, recent, byTurn, Kept(order[..n], limits.maxCharacters), limits.maxVerbatim)
    {
      GatheredParts(fold, recent, byTurn, Kept(order[..n], limits.maxCharacters), limits.maxVerbatim);
      KeptOne(order, n, limits.maxCharacters);
      var record := selected[|selected| - 1 - n];
      if g.characters + |Summary(record)| > limits.maxCharacters {
        continue;
      }
      g := Gather(g, record, fold, recent, byTurn, limits.maxVerbatim);
    }
    assert order[..|selected|] == order;
  }

  /** First occurrences, the latest first. */
  function Relevant(ids: seq<string>): seq<string> {
    Deduplicated(Reversed(ids))
  }

  lemma ReconstructsTheLatest(terms: Terms, fold: Fold, limits: Limits, message: string, records: seq<Record>)
    ensures var kept := KeptRecords(terms, limits, message, records);
            && IsLatest(FirstGiven(Objectives(kept)), kept, (r: Record) => r.objective)
            && IsLatest(FirstGiven(Requests(kept)), kept, (r: Record) => r.request)
            && AreLatestBindings(fold, kept, Reversed(Bound(fold, Bindings(kept))))
  {
    var kept := KeptRecords(terms, limits, message, records);
    KeptRecordsAreNewestFirst(terms, limits, message, records);
    hide KeptRecords, FirstGiven, NewestFirst, AreLatestBindings, Bound, Bindings, IsLatest;
    FirstIsLatest(kept, (r: Record) => r.objective, Objectives(kept));
    FirstIsLatest(kept, (r: Record) => r.request, Requests(kept));
    BoundAreLatest(fold, kept);
  }

  method Reconstruct(terms: Terms, fold: Fold, limits: Limits, session: string, message: string, turns: seq<ChatTurn>,
                     records: seq<Record>)
    returns (projection: Projection)
    ensures projection.summary == SummaryText(KeptRecords(terms, limits, message, records))
    ensures projection.activeObjective == FirstGiven(Objectives(KeptRecords(terms, limits, message, records)))
    ensures projection.pendingRequest == FirstGiven(Requests(KeptRecords(terms, limits, message, records)))
    ensures projection.interpretationIds ==
              RecordIds(SelectedRecords(terms, Current(records), message, limits.maxRecords))
    ensures projection.excerpts == Reversed(Excerpts(terms, limits, session, message, turns, records))
    ensures projection.tokenEstimate == Estimate(terms, limits, session, message, turns, records)
    ensures var g := GatheredFrom(fold, Recent(turns, session), ByTurn(turns),
                                  KeptRecords(terms, limits, message, records), limits.maxVerbatim);
            && projection.turnIds == Relevant(g.turnIds) && projection.claimIds == Relevant(g.claimIds)
            && projection.ambiguities == Head(Deduplicated(g.ambiguities), 8)
            && projection.concepts == Reversed(g.concepts)
            && projection.reflection == LastEight(g.reflection)
    ensures var kept := KeptRecords(terms, limits, message, records);
            && IsLatest(projection.activeObjective, kept, (r: Record) => r.objective)
            && IsLatest(projection.pendingRequest, kept, (r: Record) => r.request)
            && AreLatestBindings(fold, kept, projection.concepts)
  {
    ReconstructsTheLatest(terms, fold, limits, message, records);
    hide IsLatest, AreLatestBindings, SelectedRecords, Current, GatheredFrom, Recent, Kept, Length, Summary, Join,
         QuoteAllRecent, NoState, Summaries, Objectives, Requests, FirstGiven, Chars, Deduplicated, Reversed, ByTurn,
         QuoteRecords;
    var selected := SelectedRecords(terms, Current(records), message, limits.maxRecords);
    ghost var recent := Recent(turns, session);
    var excerpts, turnIds, claimIds, verbatim := QuoteLatest(turns, session, limits.maxVerbatim);
    var first := Gathered([], 0, [], None, None, [], turnIds, claimIds, excerpts, [], [], verbatim);
    NothingGathered(fold, recent, ByTurn(turns), limits.maxVerbatim);
    var g := GatherAll(selected, first, fold, recent, ByTurn(turns), limits);
    GatheredParts(fold, recent, ByTurn(turns), Kept(Reversed(selected), limits.maxCharacters), limits.maxVerbatim);
    var text := Join("\n", Reversed(g.summaries));
    if text == "" {
      text := NoState();
    }
    projection := Projection(text, g.objective, g.request, Relevant(g.turnIds), RecordIds(selected),
                             Relevant(g.claimIds),
                             Head(Deduplicated(g.ambiguities), 8), Reversed(g.excerpts), Reversed(g.concepts),
                             LastEight(g.reflection),
                             (|text| + g.verbatim + 3) / 4);
  }

  lemma NothingGathered(fold: Fold, recent: seq<ChatTurn>, byTurn: map<string, ChatTurn>, limit: int)
    ensures var start := QuoteAllRecent(recent, limit);
            GatheredFrom(fold, recent, byTurn, [], limit) ==
            Gathered([], 0, [], None, None, [], QuotedTurns(start), RecentClaims(recent, limit), start, [], [],
                     Chars(start))
  {
  }

  lemma GatheredParts(fold: Fold, recent: seq<ChatTurn>, byTurn: map<string, ChatTurn>, kept: seq<Record>, limit: int)
    ensures var g := GatheredFrom(fold, recent, byTurn, kept, limit);
            && g.kept == kept && g.characters == Length(kept) && g.summaries == Summaries(kept)
            && g.objective == FirstGiven(Objectives(kept)) && g.request == FirstGiven(Requests(kept))
            && g.excerpts == QuoteRecords(QuoteAllRecent(recent, limit), byTurn, kept, limit)
            && g.verbatim == Chars(g.excerpts)
            && g.turnIds == QuotedTurns(QuoteAllRecent(recent, limit)) + NamedTurns(kept)
            && g.claimIds ==
              RecentClaims(recent, limit) + RecordClaims(QuoteAllRecent(recent, limit), byTurn, kept, limit)
            && g.ambiguities == Ambiguities(kept) && g.reflection == Reflections(kept)
            && g.concepts == Bound(fold, Bindings(kept))
  {
  }

  lemma KeptOne(order: seq<Record>, n: nat, max: int)
    requires n < |order|
    ensures Kept(order[..n + 1], max) ==
            var before := Kept(order[..n], max);
            if Length(before) + |Summary(order[n])| > max then before else before + [order[n]]
  {
    assert order[..n + 1][..n] == order[..n];
  }

  /** What one more kept record adds. */
  lemma KeepOne(start: seq<Excerpt>, byTurn: map<string, ChatTurn>, kept: seq<Record>, r: Record, limit: int)
    ensures var more := kept + [r];
            && Length(more) == Length(kept) + |Summary(r)| && Summaries(more) == Summaries(kept) + [Summary(r)]
            && Objectives(more) == Objectives(kept) + [r.objective] && Requests(more) == Requests(kept) + [r.request]
            && FirstGiven(Objectives(more)) ==
              (if FirstGiven(Objectives(kept)).Some? then FirstGiven(Objectives(kept))
               else if Given(r.objective) then r.objective else None)
            && FirstGiven(Requests(more)) ==
              (if FirstGiven(Requests(kept)).Some? then FirstGiven(Requests(kept))
               else if Given(r.request) then r.request else None)
            && QuoteRecords(start, byTurn, more, limit) ==
              QuoteRecord(QuoteRecords(start, byTurn, kept, limit), byTurn, r, limit)
  {
    var more := kept + [r];
    assert more[..|kept|] == kept;
    assert Objectives(more)[..|kept|] == Objectives(kept) && Requests(more)[..|kept|] == Requests(kept);
  }

  lemma ListOne(start: seq<Excerpt>, byTurn: map<string, ChatTurn>, kept: seq<Record>, r: Record, limit: int)
    ensures var more := kept + [r];
            && Ambiguities(more) == Ambiguities(kept) + (if r.needsClarification then r.ambiguities else [])
            && NamedTurns(more) == NamedTurns(kept) + (if Given(r.turnId) then [r.turnId.value] else [])
            && Reflections(more) == Reflections(kept) + r.reflection && Bindings(more) == Bindings(kept) + r.concepts
            && RecordClaims(start, byTurn, more, limit) == RecordClaims(start, byTurn, kept, limit) +
               if Given(r.turnId) && r.turnId.value in byTurn
                  && byTurn[r.turnId.value].id !in Ids(QuoteRecords(start, byTurn, kept, limit))
               then ClaimOf(byTurn[r.turnId.value]) else []
  {
    hide QuoteRecords;
    assert (kept + [r])[..|kept|] == kept;
  }
}
