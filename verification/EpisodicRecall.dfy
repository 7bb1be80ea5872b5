/**
 Retrieval of original dialogue: turns whose user message shares a term with the query anchor the
 result, their neighbours and the current session follow, and a character budget is filled
 greedily. Tokenising, folding and scoring are parameters.
 */
module EpisodicRecall {
  import opened Lists
  import opened Dialogue
  import opened Sorting

  /**
   The text functions: the terms of a text, the folded form that identifies a repeated message, and the
   score of a turn.
   */
  datatype Lexicon = Lexicon(
    terms: string -> set<string>,
    signature: string -> string,
    score: (seq<ChatTurn>, string, nat) -> real)

  function Unsuperseded(history: seq<ChatTurn>): (turns: seq<ChatTurn>)
    ensures forall t :: t in turns <==> t in history && !Given(t.supersededBy)
  {
    Select(history, (t: ChatTurn) => !Given(t.supersededBy))
  }

  // ----- ranking -----

  predicate Matches(lex: Lexicon, turns: seq<ChatTurn>, query: string, i: nat) {
    i < |turns| && lex.terms(query) * lex.terms(turns[i].userMessage) != {}
  }

  /** Higher scores first; among equal scores the later turn first. */
  predicate Above(lex: Lexicon, turns: seq<ChatTurn>, query: string, i: nat, j: nat) {
    lex.score(turns, query, i) > lex.score(turns, query, j)
    || (lex.score(turns, query, i) == lex.score(turns, query, j) && i > j)
  }

  function ByRank(lex: Lexicon, turns: seq<ChatTurn>, query: string): (nat, nat) -> bool {
    (i: nat, j: nat) => Above(lex, turns, query, i, j)
  }

  function Matching(lex: Lexicon, turns: seq<ChatTurn>, query: string, n: nat): seq<nat> {
    if n == 0 then []
    else Matching(lex, turns, query, n - 1) + if Matches(lex, turns, query, n - 1) then [n - 1] else []
  }

  /** The matching turns, best first. */
  function Ranked(lex: Lexicon, turns: seq<ChatTurn>, query: string): seq<nat> {
    Sort<nat>(ByRank(lex, turns, query), Matching(lex, turns, query, |turns|))
  }

  lemma {:induction false} MatchingExactly(lex: Lexicon, turns: seq<ChatTurn>, query: string, n: nat, i: nat)
    ensures i in Matching(lex, turns, query, n) <==> i < n && Matches(lex, turns, query, i)
  {
    if n > 0 {
      MatchingExactly(lex, turns, query, n - 1, i);
    }
  }

  lemma {:induction false} MatchingIsComparable(lex: Lexicon, turns: seq<ChatTurn>, query: string, n: nat)
    ensures Comparable<nat>(ByRank(lex, turns, query), Matching(lex, turns, query, n))
  {
    if n > 0 {
      MatchingIsComparable(lex, turns, query, n - 1);
      var before := Matching(lex, turns, query, n - 1);
      var above := ByRank(lex, turns, query);
      forall q | q in before ensures above(q, n - 1) || above(n - 1, q) {
        MatchingExactly(lex, turns, query, n - 1, q);
      }
      assert ComparableWith<nat>(above, before, n - 1);
      assert (before + [n - 1])[..|before|] == before && before + [] == before;
      hide Matches, Above, ByRank;
    }
  }

  /** The ranking lists exactly the matching turns, strictly from best to worst. */
  lemma RankedIsRanking(lex: Lexicon, turns: seq<ChatTurn>, query: string)
    ensures Sorted<nat>(ByRank(lex, turns, query), Ranked(lex, turns, query))
    ensures forall i: nat :: i in Ranked(lex, turns, query) <==> Matches(lex, turns, query, i)
  {
    var matching := Matching(lex, turns, query, |turns|);
    MatchingIsComparable(lex, turns, query, |turns|);
    SortHolds<nat>(ByRank(lex, turns, query), matching);
    assert Transitive<nat>(ByRank(lex, turns, query));
    forall i: nat ensures i in matching <==> Matches(lex, turns, query, i) {
      MatchingExactly(lex, turns, query, |turns|, i);
    }
    hide Matching, Sort, Sorted, Comparable;
    SortSorts<nat>(ByRank(lex, turns, query), matching);
  }

  // ----- anchors -----

  function SignatureOf(lex: Lexicon, turns: seq<ChatTurn>, i: nat): string {
    if i < |turns| then lex.signature(turns[i].userMessage) else ""
  }

  predicate Repeated(lex: Lexicon, turns: seq<ChatTurn>, anchors: seq<nat>, i: nat) {
    exists a :: a in anchors && SignatureOf(lex, turns, a) == SignatureOf(lex, turns, i)
  }

  /** The four best turns with different messages. */
  function Anchors(lex: Lexicon, turns: seq<ChatTurn>, ranked: seq<nat>): seq<nat> {
    if ranked == [] then []
    else
      var before, i := Anchors(lex, turns, ranked[..|ranked| - 1]), ranked[|ranked| - 1];
      if |before| == 4 || Repeated(lex, turns, before, i) then before else before + [i]
  }

  lemma {:induction false} AnchorsAreDifferent(lex: Lexicon, turns: seq<ChatTurn>, ranked: seq<nat>)
    ensures var anchors := Anchors(lex, turns, ranked);
            && |anchors| <= 4 && (forall a | a in anchors :: a in ranked)
            && forall j, k | 0 <= j < k < |anchors| ::
                 SignatureOf(lex, turns, anchors[j]) != SignatureOf(lex, turns, anchors[k])
  {
    if ranked != [] {
      AnchorsAreDifferent(lex, turns, ranked[..|ranked| - 1]);
      var before := Anchors(lex, turns, ranked[..|ranked| - 1]);
      assert forall j | 0 <= j < |before| :: before[j] in before;
    }
  }

  /** A matching turn that is no anchor has the message of a better anchor, or four better anchors. */
  lemma {:induction false} AnchorsAreBest(lex: Lexicon, turns: seq<ChatTurn>, query: string, ranked: seq<nat>, i: nat)
    requires Sorted<nat>(ByRank(lex, turns, query), ranked) && i in ranked
    ensures var anchors := Anchors(lex, turns, ranked);
            || i in anchors
            || (exists a ::
                  a in anchors && Above(lex, turns, query, a, i)
                  && SignatureOf(lex, turns, a) == SignatureOf(lex, turns, i))
            || (|anchors| == 4 && forall a | a in anchors :: Above(lex, turns, query, a, i))
  {
    var n := |ranked| - 1;
    var before := Anchors(lex, turns, ranked[..n]);
    AnchorsAreDifferent(lex, turns, ranked[..n]);
    if i in ranked[..n] {
      AnchorsAreBest(lex, turns, query, ranked[..n], i);
      assert forall a | a in before :: a in Anchors(lex, turns, ranked);
    } else {
      assert forall a | a in ranked[..n] :: Above(lex, turns, query, a, i);
    }
  }

  // ----- the order in which turns are offered -----

  function Neighbours(turns: seq<ChatTurn>, i: nat): seq<nat>
    requires i < |turns|
  {
    (if i > 0 && turns[i - 1].sessionId == turns[i].sessionId then [i - 1] else [])
    + (if i + 1 < |turns| && turns[i + 1].sessionId == turns[i].sessionId then [i + 1] else [])
  }

  ghost predicate Within(turns: seq<ChatTurn>, indexes: seq<nat>) {
    forall k | 0 <= k < |indexes| :: indexes[k] < |turns|
  }

  function AroundAnchors(turns: seq<ChatTurn>, anchors: seq<nat>): seq<nat>
    requires Within(turns, anchors)
  {
    if anchors == [] then []
    else
      var i := anchors[|anchors| - 1];
      AroundAnchors(turns, anchors[..|anchors| - 1]) + [i] + Neighbours(turns, i)
  }

  /** The session's turns, latest first. */
  function SessionIndexes(turns: seq<ChatTurn>, session: string): seq<nat> {
    if turns == [] then []
    else
      var n := |turns| - 1;
      (if turns[n].sessionId == session then [n] else []) + SessionIndexes(turns[..n], session)
  }

  lemma {:induction false} SessionIndexesExactly(turns: seq<ChatTurn>, session: string, i: nat)
    ensures i in SessionIndexes(turns, session) <==> i < |turns| && turns[i].sessionId == session
  {
    if turns != [] {
      SessionIndexesExactly(turns[..|turns| - 1], session, i);
    }
  }

  predicate AreNeighbours(turns: seq<ChatTurn>, i: nat, j: nat) {
    i < |turns| && j < |turns| && turns[i].sessionId == turns[j].sessionId && (i == j + 1 || j == i + 1)
  }

  /** An anchor, a same-session neighbour of an anchor, or a turn of the current session. */
  ghost predicate MayBeOffered(turns: seq<ChatTurn>, anchors: seq<nat>, session: string, i: nat) {
    && i < |turns|
    && (i in anchors || (exists a :: a in anchors && AreNeighbours(turns, a, i)) || turns[i].sessionId == session)
  }

  lemma {:induction false} AroundAnchorsAre(turns: seq<ChatTurn>, anchors: seq<nat>)
    requires Within(turns, anchors)
    ensures forall i ::
              i in AroundAnchors(turns, anchors) <==>
              i in anchors || exists a :: a in anchors && AreNeighbours(turns, a, i)
  {
    if anchors != [] {
      var before, last := anchors[..|anchors| - 1], anchors[|anchors| - 1];
      AroundAnchorsAre(turns, before);
      assert anchors == before + [last];
      assert forall i :: i in Neighbours(turns, last) <==> AreNeighbours(turns, last, i);
      hide AreNeighbours, Neighbours;
    }
  }

  function Offered(turns: seq<ChatTurn>, anchors: seq<nat>, session: string): seq<nat>
    requires Within(turns, anchors)
  {
    Deduplicated(AroundAnchors(turns, anchors) + SessionIndexes(turns, session))
  }

  lemma OfferedExactly(turns: seq<ChatTurn>, anchors: seq<nat>, session: string, i: nat)
    requires Within(turns, anchors)
    ensures i in Offered(turns, anchors, session) <==> MayBeOffered(turns, anchors, session, i)
  {
    AroundAnchorsAre(turns, anchors);
    SessionIndexesExactly(turns, session, i);
    DeduplicatedKeeps(AroundAnchors(turns, anchors) + SessionIndexes(turns, session));
    hide AroundAnchors, SessionIndexes, Deduplicated;
    assert forall k | 0 <= k < |anchors| :: anchors[k] < |turns|;
  }

  // ----- filling the budget -----

  datatype Pick = Pick(index: nat, excerpt: Excerpt)

  function Used(picks: seq<Pick>): nat {
    if picks == [] then 0 else Used(picks[..|picks| - 1]) + Size(picks[|picks| - 1].excerpt)
  }

  function Consider(turns: seq<ChatTurn>, picks: seq<Pick>, i: nat, max: int): seq<Pick>
    requires i < |turns|
  {
    var remaining := max - Used(picks);
    if |picks| >= 12 || remaining <= 0 || |turns[i].userMessage| > remaining then picks
    else picks + [Pick(i, Quote(turns[i], Shortened(turns[i].answer, remaining - |turns[i].userMessage|)))]
  }

  function Fill(turns: seq<ChatTurn>, order: seq<nat>, max: int): seq<Pick>
    requires Within(turns, order)
  {
    if order == [] then [] else Consider(turns, Fill(turns, order[..|order| - 1], max), order[|order| - 1], max)
  }

  predicate IsPicked(picks: seq<Pick>, i: nat) {
    exists p :: p in picks && p.index == i
  }

  predicate Quotes(turns: seq<ChatTurn>, p: Pick) {
    && p.index < |turns| && p.excerpt.turnId == turns[p.index].id
    && p.excerpt.interpretationId == turns[p.index].interpretationId
    && p.excerpt.userMessage == turns[p.index].userMessage && p.excerpt.assistantAnswer <= turns[p.index].answer
  }

  ghost predicate DifferentIndexes(picks: seq<Pick>) {
    picks == [] || (!IsPicked(picks[..|picks| - 1], picks[|picks| - 1].index) && DifferentIndexes(picks[..|picks| - 1]))
  }

  predicate IsCut(turns: seq<ChatTurn>, p: Pick) {
    p.index < |turns| && p.excerpt.assistantAnswer != turns[p.index].answer
  }

  lemma UsedOfOneMore(picks: seq<Pick>, p: Pick)
    ensures Used(picks + [p]) == Used(picks) + Size(p.excerpt)
  {
    assert (picks + [p])[..|picks|] == picks;
  }

  /**
   Twelve distinct quoted turns at most, within the budget; only the last can be cut, and then it uses
   the budget up.
   */
  lemma {:induction false} FillIsBounded(turns: seq<ChatTurn>, order: seq<nat>, max: int)
    requires Within(turns, order) && NoTwoEqual(order)
    ensures var picks := Fill(turns, order, max);
            && |picks| <= 12 && Used(picks) <= (if max > 0 then max else 0)
            && (forall p | p in picks :: Quotes(turns, p) && p.index in order)
            && DifferentIndexes(picks)
            && (forall p | p in picks && IsCut(turns, p) :: p == picks[|picks| - 1] && Used(picks) == max)
  {
    if order != [] {
      var n := |order| - 1;
      FillIsBounded(turns, order[..n], max);
      ConsiderIsBounded(turns, Fill(turns, order[..n], max), order[n], max);
      var before, picks := Fill(turns, order[..n], max), Fill(turns, order, max);
      assert order[n] in order && (forall i | i in order[..n] :: i in order);
      assert picks == Consider(turns, before, order[n], max);
      hide Fill, Consider, Used, Quotes, IsCut, DifferentIndexes;
    }
  }

  lemma ConsiderIsBounded(turns: seq<ChatTurn>, before: seq<Pick>, i: nat, max: int)
    requires i < |turns| && |before| <= 12 && Used(before) <= (if max > 0 then max else 0)
    requires DifferentIndexes(before) && !IsPicked(before, i)
    requires forall p | p in before && IsCut(turns, p) :: p == before[|before| - 1] && Used(before) == max
    ensures var picks := Consider(turns, before, i, max);
            && |picks| <= 12 && Used(picks) <= (if max > 0 then max else 0) && DifferentIndexes(picks)
            && (forall p | p in picks :: p in before || (p.index == i && Quotes(turns, p)))
            && (forall p | p in picks && IsCut(turns, p) :: p == picks[|picks| - 1] && Used(picks) == max)
  {
    var picks := Consider(turns, before, i, max);
    if picks != before {
      var p := picks[|before|];
      ConsiderAdds(turns, before, i, max);
      OneMoreDiffers(before, p);
      hide Consider, IsCut, Used, DifferentIndexes, Quotes, IsPicked;
      assert picks[|picks| - 1] == p && forall q | q in picks :: q in before || q == p;
    }
  }

  lemma OneMoreDiffers(picks: seq<Pick>, p: Pick)
    requires DifferentIndexes(picks) && !IsPicked(picks, p.index)
    ensures DifferentIndexes(picks + [p])
  {
    assert (picks + [p])[..|picks|] == picks;
  }

  /** What considering a turn adds: one pick that fits, and that is cut only to fill the budget. */
  lemma ConsiderAdds(turns: seq<ChatTurn>, before: seq<Pick>, i: nat, max: int)
    requires i < |turns| && Consider(turns, before, i, max) != before
    ensures var picks := Consider(turns, before, i, max);
            && |picks| == |before| + 1 && picks == before + [picks[|before|]] && |before| < 12 && Used(before) < max
            && Used(picks) <= max && picks[|before|].index == i && Quotes(turns, picks[|before|])
            && (IsCut(turns, picks[|before|]) ==> Used(picks) == max)
  {
    var remaining := max - Used(before);
    var p := Pick(i, Quote(turns[i], Shortened(turns[i].answer, remaining - |turns[i].userMessage|)));
    UsedOfOneMore(before, p);
    hide Used;
  }

  /** What was offered and not taken does not fit what is left, unless the result is full. */
  lemma {:induction false} FillIsMaximal(turns: seq<ChatTurn>, order: seq<nat>, max: int, i: nat)
    requires Within(turns, order) && i in order
    ensures var picks := Fill(turns, order, max);
            IsPicked(picks, i) || |picks| >= 12 || Used(picks) >= max || |turns[i].userMessage| > max - Used(picks)
  {
    var n := |order| - 1;
    var before, picks := Fill(turns, order[..n], max), Fill(turns, order, max);
    ConsiderKeeps(turns, before, order[n], max);
    if i in order[..n] {
      FillIsMaximal(turns, order[..n], max, i);
    }
    hide Fill, Consider;
  }

  lemma ConsiderKeeps(turns: seq<ChatTurn>, before: seq<Pick>, i: nat, max: int)
    requires i < |turns|
    ensures var picks := Consider(turns, before, i, max);
            && |before| <= |picks| && Used(before) <= Used(picks)
            && (forall j :: IsPicked(before, j) ==> IsPicked(picks, j))
            && (IsPicked(picks, i) || |picks| >= 12 || Used(picks) >= max || |turns[i].userMessage| > max - Used(picks))
  {
    var picks := Consider(turns, before, i, max);
    if picks != before {
      UsedOfOneMore(before, picks[|before|]);
      assert picks[|before|] in picks && forall p | p in before :: p in picks;
    }
    hide Used;
  }

  lemma {:induction false} FillGrows(turns: seq<ChatTurn>, order: seq<nat>, max: int, n: nat)
    requires Within(turns, order) && n <= |order|
    ensures Fill(turns, order[..n], max) <= Fill(turns, order, max)
  {
    if n == |order| {
      assert order[..n] == order;
    } else {
      assert order[..|order| - 1][..n] == order[..n];
      FillGrows(turns, order[..|order| - 1], max, n);
    }
  }

  lemma {:induction false} UsedGrows(picks: seq<Pick>, n: nat)
    requires n <= |picks|
    ensures Used(picks[..n]) <= Used(picks)
    ensures n < |picks| ==> Used(picks[..n]) + Size(picks[n].excerpt) <= Used(picks)
  {
    if n == |picks| {
      assert picks[..n] == picks;
    } else {
      var rest := picks[..|picks| - 1];
      assert rest[..n] == picks[..n];
      UsedGrows(rest, n);
    }
  }

  lemma {:induction false} FillStops(turns: seq<ChatTurn>, order: seq<nat>, max: int, n: nat)
    requires Within(turns, order) && n <= |order|
    requires |Fill(turns, order[..n], max)| >= 12 || Used(Fill(turns, order[..n], max)) >= max
    ensures Fill(turns, order, max) == Fill(turns, order[..n], max)
  {
    if n == |order| {
      assert order[..n] == order;
    } else {
      assert order[..|order| - 1][..n] == order[..n];
      FillStops(turns, order[..|order| - 1], max, n);
    }
  }

  lemma ConsiderTakesWhatFits(turns: seq<ChatTurn>, before: seq<Pick>, i: nat, max: int)
    requires i < |turns|
    ensures |before| < 12 && Used(before) < max && |turns[i].userMessage| <= max - Used(before)
            ==> IsPicked(Consider(turns, before, i, max), i)
  {
    var after := Consider(turns, before, i, max);
    assert after != before ==> after[|before|] in after;
  }

  lemma TakenLater(before: seq<Pick>, picks: seq<Pick>, p: Pick)
    requires before <= picks && p in picks && p !in before
    ensures Used(before) + Size(p.excerpt) <= Used(picks)
  {
    var k :| 0 <= k < |picks| && picks[k] == p;
    assert forall j | 0 <= j < |before| :: before[j] in before && before[j] == picks[j];
    UsedGrows(picks, k);
    UsedGrows(picks[..k], |before|);
    assert picks[..k][..|before|] == before;
  }

  /** A turn passed over is longer than every excerpt taken after it. */
  lemma PassedOverIsLonger(turns: seq<ChatTurn>, order: seq<nat>, max: int, n: nat, p: Pick)
    requires Within(turns, order) && NoTwoEqual(order)
    requires n < |order| && !IsPicked(Fill(turns, order, max), order[n])
    requires p in Fill(turns, order, max) && p !in Fill(turns, order[..n], max)
    ensures Size(p.excerpt) < |turns[order[n]].userMessage|
  {
    var before, after, picks := Fill(turns, order[..n], max), Fill(turns, order[..n + 1], max), Fill(turns, order, max);
    assert order[..n + 1][..n] == order[..n] && after == Consider(turns, before, order[n], max);
    FillGrows(turns, order, max, n);
    FillGrows(turns, order, max, n + 1);
    FillIsBounded(turns, order, max);
    assert forall q | q in after :: q in picks;
    hide Fill, Consider, Used, Quotes, IsCut;
    ConsiderTakesWhatFits(turns, before, order[n], max);
    TakenLater(before, picks, p);
    if |before| >= 12 || Used(before) >= max {
      FillStops(turns, order, max, n);
    }
  }

  // ----- the result, in the order of the dialogue -----

  function ByIndex(): (Pick, Pick) -> bool {
    (p: Pick, q: Pick) => p.index < q.index
  }

  lemma {:induction false} PlaceAdds(picks: seq<Pick>, p: Pick)
    ensures Used(Place(ByIndex(), picks, p)) == Used(picks) + Size(p.excerpt)
  {
    if picks == [] || picks[|picks| - 1].index < p.index {
      UsedOfOneMore(picks, p);
    } else {
      var before, last := picks[..|picks| - 1], picks[|picks| - 1];
      PlaceAdds(before, p);
      UsedOfOneMore(Place(ByIndex(), before, p), last);
    }
  }

  lemma {:induction false} SortKeepsUsed(picks: seq<Pick>)
    ensures Used(Sort(ByIndex(), picks)) == Used(picks)
  {
    if picks != [] {
      SortKeepsUsed(picks[..|picks| - 1]);
      PlaceAdds(Sort(ByIndex(), picks[..|picks| - 1]), picks[|picks| - 1]);
    }
  }

  lemma {:induction false} DifferentAreComparable(picks: seq<Pick>)
    requires DifferentIndexes(picks)
    ensures Comparable(ByIndex(), picks)
  {
    if picks != [] {
      DifferentAreComparable(picks[..|picks| - 1]);
    }
  }

  lemma SortedByIndex(picks: seq<Pick>)
    requires DifferentIndexes(picks)
    ensures var r := Sort(ByIndex(), picks);
            && |r| == |picks| && Used(r) == Used(picks) && (forall q :: q in r <==> q in picks)
            && forall j, k | 0 <= j < k < |r| :: r[j].index < r[k].index
  {
    DifferentAreComparable(picks);
    SortHolds(ByIndex(), picks);
    SortKeepsUsed(picks);
    assert Transitive(ByIndex());
    var r := Sort(ByIndex(), picks);
    hide Sort, Sorted, Comparable, DifferentIndexes, Used;
    SortSorts(ByIndex(), picks);
    forall j, k | 0 <= j < k < |r| ensures r[j].index < r[k].index {
      SortedAt(ByIndex(), r, j, k);
    }
  }

  // ----- retrieval -----

  function BestAnchors(lex: Lexicon, turns: seq<ChatTurn>, query: string): (anchors: seq<nat>)
    ensures Within(turns, anchors)
  {
    RankedIsRanking(lex, turns, query);
    AnchorsAreDifferent(lex, turns, Ranked(lex, turns, query));
    var anchors := Anchors(lex, turns, Ranked(lex, turns, query));
    assert forall k | 0 <= k < |anchors| :: anchors[k] in anchors;
    anchors
  }

  function Episodes(lex: Lexicon, history: seq<ChatTurn>, query: string, session: string, max: int): seq<Pick> {
    var turns := Unsuperseded(history);
    var anchors := BestAnchors(lex, turns, query);
    OfferedWithin(turns, anchors, session);
    Sort(ByIndex(), Fill(turns, Offered(turns, anchors, session), max))
  }

  lemma OfferedWithin(turns: seq<ChatTurn>, anchors: seq<nat>, session: string)
    requires Within(turns, anchors)
    ensures Within(turns, Offered(turns, anchors, session)) && NoTwoEqual(Offered(turns, anchors, session))
  {
    var order := Offered(turns, anchors, session);
    DeduplicatedHasNoTwo(AroundAnchors(turns, anchors) + SessionIndexes(turns, session));
    forall k | 0 <= k < |order| ensures order[k] < |turns| {
      OfferedExactly(turns, anchors, session, order[k]);
    }
  }

  /** The anchors are the best matching turns, a repeated message counting once. */
  lemma AnchorsAreTheBestMatches(lex: Lexicon, turns: seq<ChatTurn>, query: string, i: nat)
    ensures var anchors := BestAnchors(lex, turns, query);
            && |anchors| <= 4
            && (i in anchors ==> Matches(lex, turns, query, i))
            && (Matches(lex, turns, query, i) && i !in anchors ==>
                  || (exists a ::
                        a in anchors && Above(lex, turns, query, a, i)
                        && SignatureOf(lex, turns, a) == SignatureOf(lex, turns, i))
                  || (|anchors| == 4 && forall a | a in anchors :: Above(lex, turns, query, a, i)))
  {
    var ranked := Ranked(lex, turns, query);
    RankedIsRanking(lex, turns, query);
    AnchorsAreDifferent(lex, turns, ranked);
    hide Ranked, Anchors, Above, Sorted;
    if Matches(lex, turns, query, i) {
      AnchorsAreBest(lex, turns, query, ranked, i);
    }
  }

  /**
   At most twelve distinct unsuperseded turns in the order of the dialogue, each an anchor, a
   same-session neighbour of one or of the current session, with its whole user message and a
   prefix of its answer, within the budget; at most one answer is cut, and then the budget is
   used up.
   */
  lemma EpisodesAreBounded(lex: Lexicon, history: seq<ChatTurn>, query: string, session: string, max: int)
    ensures var turns, picks := Unsuperseded(history), Episodes(lex, history, query, session, max);
            && |picks| <= 12 && Used(picks) <= (if max > 0 then max else 0)
            && (forall j, k | 0 <= j < k < |picks| :: picks[j].index < picks[k].index)
            && (forall p | p in picks ::
                  Quotes(turns, p) && MayBeOffered(turns, BestAnchors(lex, turns, query), session, p.index))
            && (forall p | p in picks && IsCut(turns, p) :: Used(picks) == max)
            && (forall p, q | p in picks && q in picks && IsCut(turns, p) && IsCut(turns, q) :: p == q)
  {
    var turns := Unsuperseded(history);
    var anchors := BestAnchors(lex, turns, query);
    OfferedWithin(turns, anchors, session);
    var order := Offered(turns, anchors, session);
    FillIsBounded(turns, order, max);
    forall p | p in Fill(turns, order, max) ensures MayBeOffered(turns, anchors, session, p.index) {
      OfferedExactly(turns, anchors, session, p.index);
    }
    SortedByIndex(Fill(turns, order, max));
    hide Offered, BestAnchors, Fill, Sort, Quotes, MayBeOffered, Unsuperseded, Used;
  }

  /** Nothing that may be offered and fits what is left is missing, unless there are twelve turns or no room. */
  lemma EpisodesAreMaximal(lex: Lexicon, history: seq<ChatTurn>, query: string, session: string, max: int, i: nat)
    requires MayBeOffered(Unsuperseded(history), BestAnchors(lex, Unsuperseded(history), query), session, i)
    ensures var turns, picks := Unsuperseded(history), Episodes(lex, history, query, session, max);
            IsPicked(picks, i) || |picks| == 12 || Used(picks) >= max || |turns[i].userMessage| > max - Used(picks)
  {
    var turns := Unsuperseded(history);
    var anchors := BestAnchors(lex, turns, query);
    OfferedWithin(turns, anchors, session);
    OfferedExactly(turns, anchors, session, i);
    var order := Offered(turns, anchors, session);
    FillIsBounded(turns, order, max);
    FillIsMaximal(turns, order, max, i);
    SortedByIndex(Fill(turns, order, max));
    hide Offered, BestAnchors, Fill, Sort, Quotes, MayBeOffered, Unsuperseded, Used, IsCut, NoTwoEqual;
  }

  // ----- the loops -----

  lemma {:induction false} AnchorsStop(lex: Lexicon, turns: seq<ChatTurn>, ranked: seq<nat>, n: nat)
    requires n <= |ranked| && |Anchors(lex, turns, ranked[..n])| == 4
    ensures Anchors(lex, turns, ranked) == Anchors(lex, turns, ranked[..n])
  {
    if n == |ranked| {
      assert ranked[..n] == ranked;
    } else {
      assert ranked[..|ranked| - 1][..n] == ranked[..n];
      AnchorsStop(lex, turns, ranked[..|ranked| - 1], n);
    }
  }

  method ChooseAnchors(lex: Lexicon, turns: seq<ChatTurn>, ranked: seq<nat>) returns (anchors: seq<nat>)
    ensures anchors == Anchors(lex, turns, ranked)
  {
    anchors := [];
    var seen: set<string> := {};
    for n := 0 to |ranked|
      invariant anchors == Anchors(lex, turns, ranked[..n]) && |anchors| < 4
      invariant forall s :: s in seen <==> exists a :: a in anchors && SignatureOf(lex, turns, a) == s
    {
      assert ranked[..n + 1][..n] == ranked[..n];
      var signature := SignatureOf(lex, turns, ranked[n]);
      if signature !in seen {
        seen := seen + {signature};
        anchors := anchors + [ranked[n]];
      }
      if |anchors| == 4 {
        AnchorsStop(lex, turns, ranked, n + 1);
        return;
      }
    }
    assert ranked[..|ranked|] == ranked;
  }

  method VisitAnchors(turns: seq<ChatTurn>, anchors: seq<nat>) returns (indexes: seq<nat>)
    requires Within(turns, anchors)
    ensures indexes == AroundAnchors(turns, anchors)
  {
    indexes := [];
    for n := 0 to |anchors|
      invariant indexes == AroundAnchors(turns, anchors[..n])
    {
      assert anchors[..n + 1][..n] == anchors[..n];
      var index := anchors[n];
      indexes := indexes + [index];
      if index > 0 && turns[index - 1].sessionId == turns[index].sessionId {
        indexes := indexes + [index - 1];
      }
      if index + 1 < |turns| && turns[index + 1].sessionId == turns[index].sessionId {
        indexes := indexes + [index + 1];
      }
    }
    assert anchors[..|anchors|] == anchors;
  }

  method OfferTurns(turns: seq<ChatTurn>, anchors: seq<nat>, session: string) returns (order: seq<nat>)
    requires Within(turns, anchors)
    ensures order == Offered(turns, anchors, session)
  {
    var around := VisitAnchors(turns, anchors);
    var own := VisitSession(turns, session);
    order := Deduplicated(around + own);
  }

  method VisitSession(turns: seq<ChatTurn>, session: string) returns (indexes: seq<nat>)
    ensures indexes == SessionIndexes(turns, session)
  {
    hide SessionIndexes;
    indexes := [];
    var n: nat := |turns|;
    NoSessionIndexes(turns, session);
    while n > 0
      invariant 0 <= n <= |turns|
      invariant indexes + SessionIndexes(turns[..n], session) == SessionIndexes(turns, session)
    {
      SessionIndexesOneLess(turns, session, n);
      n := n - 1;
      if turns[n].sessionId == session {
        indexes := indexes + [n];
      }
    }
  }

  lemma NoSessionIndexes(turns: seq<ChatTurn>, session: string)
    ensures turns[..|turns|] == turns && SessionIndexes(turns[..0], session) == []
  {
  }

  lemma SessionIndexesOneLess(turns: seq<ChatTurn>, session: string, n: nat)
    requires 0 < n <= |turns|
    ensures SessionIndexes(turns[..n], session) ==
              (if turns[n - 1].sessionId == session then [n - 1] else []) + SessionIndexes(turns[..n - 1], session)
  {
    assert turns[..n][..n - 1] == turns[..n - 1];
  }

  method FillBudget(turns: seq<ChatTurn>, order: seq<nat>, max: int) returns (selected: seq<Pick>)
    requires Within(turns, order)
    ensures selected == Fill(turns, order, max)
  {
    selected := [];
    var used := 0;
    for n := 0 to |order|
      invariant selected == Fill(turns, order[..n], max) && used == Used(selected)
    {
      assert order[..n + 1][..n] == order[..n];
      if |selected| >= 12 || used >= max {
        FillStops(turns, order, max, n);
        return;
      }
      var turn, remaining := turns[order[n]], max - used;
      if |turn.userMessage| > remaining {
        continue;
      }
      var answer := Shortened(turn.answer, remaining - |turn.userMessage|);
      var pick := Pick(order[n], Quote(turn, answer));
      UsedOfOneMore(selected, pick);
      selected := selected + [pick];
      used := used + |turn.userMessage| + |answer|;
    }
    assert order[..|order|] == order;
  }

  method RetrieveEpisodes(lex: Lexicon, history: seq<ChatTurn>, query: string, session: string, max: int)
    returns (excerpts: seq<Excerpt>)
    ensures var picks := Episodes(lex, history, query, session, max);
            |excerpts| == |picks| && forall k | 0 <= k < |picks| :: excerpts[k] == picks[k].excerpt
  {
    hide Ranked, Anchors, Offered, Fill, Sort, Unsuperseded;
    var turns := Unsuperseded(history);
    var anchors := ChooseAnchors(lex, turns, Ranked(lex, turns, query));
    assert anchors == BestAnchors(lex, turns, query);
    var order := OfferTurns(turns, anchors, session);
    OfferedWithin(turns, anchors, session);
    var filled := FillBudget(turns, order, max);
    var selected := Sort(ByIndex(), filled);
    excerpts := seq(|selected|, k requires 0 <= k < |selected| => selected[k].excerpt);
  }
}
