/**
 The order in which turns get a place in the retrieved dialogue: the anchors by rank, each with its
 neighbours, then the current session's other turns from the latest on. Each takes what room the
 turns before it leave.
 */
module EpisodicOrder {
  import opened Lists
  import opened Dialogue
  import opened Sorting
  import opened EpisodicRecall

  // ----- whose turn it is -----

  predicate IsNear(turns: seq<ChatTurn>, anchor: nat, i: nat) {
    i == anchor || AreNeighbours(turns, anchor, i)
  }

  /** The rank of the best anchor the turn is near to; the number of anchors if it is near to none. */
  function BestNear(turns: seq<ChatTurn>, anchors: seq<nat>, i: nat): (r: nat)
    ensures r <= |anchors| && (r < |anchors| ==> IsNear(turns, anchors[r], i))
    ensures forall k | 0 <= k < r :: !IsNear(turns, anchors[k], i)
  {
    if anchors == [] then 0
    else
      var before := BestNear(turns, anchors[..|anchors| - 1], i);
      if before < |anchors| - 1 || IsNear(turns, anchors[|anchors| - 1], i) then before else |anchors|
  }

  /** An anchor, then the turn before it, then the turn after it; other turns from the latest on. */
  function Slot(turns: seq<ChatTurn>, anchors: seq<nat>, i: nat): int {
    var r := BestNear(turns, anchors, i);
    if r == |anchors| then |turns| - i else if i == anchors[r] then 0 else if i < anchors[r] then 1 else 2
  }

  /** Turn `i` gets its place before turn `j`. */
  predicate IsEarlier(turns: seq<ChatTurn>, anchors: seq<nat>, i: nat, j: nat) {
    var a, b := BestNear(turns, anchors, i), BestNear(turns, anchors, j);
    a < b || (a == b && Slot(turns, anchors, i) < Slot(turns, anchors, j))
  }

  ghost predicate InTurn(turns: seq<ChatTurn>, anchors: seq<nat>, order: seq<nat>) {
    forall j, k | 0 <= j < k < |order| :: IsEarlier(turns, anchors, order[j], order[k])
  }

  // ----- first occurrences keep the order -----

  /** New members of the second list come after all of the first, and after its own earlier ones. */
  ghost predicate Follows(turns: seq<ChatTurn>, anchors: seq<nat>, s: seq<nat>, t: seq<nat>) {
    && (forall l | 0 <= l < |t| && t[l] !in s :: forall y | y in s :: IsEarlier(turns, anchors, y, t[l]))
    && (forall k, l | 0 <= k < l < |t| && t[k] !in s && t[l] !in s :: IsEarlier(turns, anchors, t[k], t[l]))
  }

  lemma DeduplicatedMore(s: seq<nat>, x: nat)
    ensures Deduplicated(s + [x]) == if x in Deduplicated(s) then Deduplicated(s) else Deduplicated(s) + [x]
  {
    assert (s + [x])[..|s|] == s;
  }

  lemma {:induction false} FollowersInTurn(turns: seq<ChatTurn>, anchors: seq<nat>, s: seq<nat>, t: seq<nat>, m: nat)
    requires InTurn(turns, anchors, Deduplicated(s)) && Follows(turns, anchors, s, t) && m <= |t|
    ensures InTurn(turns, anchors, Deduplicated(s + t[..m]))
  {
    hide IsEarlier, Deduplicated;
    if m == 0 {
      assert s + t[..0] == s;
    } else {
      var before, x := s + t[..m - 1], t[m - 1];
      FollowersInTurn(turns, anchors, s, t, m - 1);
      assert s + t[..m] == before + [x];
      DeduplicatedMore(before, x);
      DeduplicatedKeeps(before);
      if x !in before {
        assert x !in s;
        forall y | y in Deduplicated(before) ensures IsEarlier(turns, anchors, y, x) {
          LaterThanAll(turns, anchors, s, t, m - 1, y);
        }
        ExtendsInTurn(turns, anchors, Deduplicated(before), x);
      }
    }
  }

  lemma LaterThanAll(turns: seq<ChatTurn>, anchors: seq<nat>, s: seq<nat>, t: seq<nat>, l: nat, y: nat)
    requires Follows(turns, anchors, s, t) && l < |t| && t[l] !in s && y in s + t[..l]
    ensures IsEarlier(turns, anchors, y, t[l])
  {
    hide IsEarlier;
    if y !in s {
      var k :| 0 <= k < l && t[k] == y;
    }
  }

  lemma ExtendsInTurn(turns: seq<ChatTurn>, anchors: seq<nat>, order: seq<nat>, x: nat)
    requires InTurn(turns, anchors, order) && forall y | y in order :: IsEarlier(turns, anchors, y, x)
    ensures InTurn(turns, anchors, order + [x])
  {
    hide IsEarlier;
    assert forall k | 0 <= k < |order| :: order[k] in order;
  }

  // ----- around the anchors -----

  lemma NearAnchors(turns: seq<ChatTurn>, anchors: seq<nat>, n: nat, i: nat)
    requires Within(turns, anchors) && n <= |anchors|
    ensures i in AroundAnchors(turns, anchors[..n]) <==> BestNear(turns, anchors, i) < n
  {
    AroundAnchorsAre(turns, anchors[..n]);
    hide AreNeighbours, AroundAnchors, BestNear;
    if i in AroundAnchors(turns, anchors[..n]) {
      var a :| a in anchors[..n] && (i == a || AreNeighbours(turns, a, i));
      var k :| 0 <= k < n && anchors[k] == a;
      assert IsNear(turns, anchors[k], i);
    }
    if BestNear(turns, anchors, i) < n {
      assert anchors[BestNear(turns, anchors, i)] in anchors[..n];
    }
  }

  lemma NextAnchorFollows(turns: seq<ChatTurn>, anchors: seq<nat>, n: nat)
    requires Within(turns, anchors) && n < |anchors|
    ensures Follows(turns, anchors, AroundAnchors(turns, anchors[..n]), [anchors[n]] + Neighbours(turns, anchors[n]))
  {
    var s, t := AroundAnchors(turns, anchors[..n]), [anchors[n]] + Neighbours(turns, anchors[n]);
    forall i ensures i in s <==> BestNear(turns, anchors, i) < n {
      NearAnchors(turns, anchors, n, i);
    }
    forall l | 0 <= l < |t| && t[l] !in s
      ensures BestNear(turns, anchors, t[l]) == n
      ensures Slot(turns, anchors, t[l]) == if t[l] == anchors[n] then 0 else if t[l] < anchors[n] then 1 else 2
    {
      assert IsNear(turns, anchors[n], t[l]);
    }
    hide BestNear, AroundAnchors, Slot;
  }

  lemma {:induction false} AroundInTurn(turns: seq<ChatTurn>, anchors: seq<nat>, n: nat)
    requires Within(turns, anchors) && n <= |anchors|
    ensures InTurn(turns, anchors, Deduplicated(AroundAnchors(turns, anchors[..n])))
  {
    if n > 0 {
      AroundInTurn(turns, anchors, n - 1);
      NextAnchorFollows(turns, anchors, n - 1);
      var s, t := AroundAnchors(turns, anchors[..n - 1]), [anchors[n - 1]] + Neighbours(turns, anchors[n - 1]);
      hide InTurn, Follows, Deduplicated, Neighbours;
      FollowersInTurn(turns, anchors, s, t, |t|);
      AroundOneMore(turns, anchors, n);
      hide AroundAnchors;
    }
  }

  lemma AroundOneMore(turns: seq<ChatTurn>, anchors: seq<nat>, n: nat)
    requires Within(turns, anchors) && 0 < n <= |anchors|
    ensures var t := [anchors[n - 1]] + Neighbours(turns, anchors[n - 1]);
            AroundAnchors(turns, anchors[..n]) == AroundAnchors(turns, anchors[..n - 1]) + t[..|t|]
  {
    hide Neighbours;
    assert anchors[..n][..n - 1] == anchors[..n - 1];
  }

  ghost predicate Descends(s: seq<nat>, n: nat) {
    (forall k | 0 <= k < |s| :: s[k] < n) && forall j, k | 0 <= j < k < |s| :: s[j] > s[k]
  }

  lemma {:induction false} SessionDescends(turns: seq<ChatTurn>, session: string)
    ensures Descends(SessionIndexes(turns, session), |turns|)
  {
    if turns != [] {
      var n: nat := |turns| - 1;
      SessionDescends(turns[..n], session);
      DescendsFrom(SessionIndexes(turns[..n], session), n);
    }
  }

  lemma DescendsFrom(s: seq<nat>, n: nat)
    requires Descends(s, n)
    ensures Descends([n] + s, n + 1) && Descends([] + s, n + 1)
  {
  }

  lemma SessionFollows(turns: seq<ChatTurn>, anchors: seq<nat>, session: string)
    requires Within(turns, anchors)
    ensures Follows(turns, anchors, AroundAnchors(turns, anchors), SessionIndexes(turns, session))
  {
    var s, t := AroundAnchors(turns, anchors), SessionIndexes(turns, session);
    SessionDescends(turns, session);
    assert anchors[..|anchors|] == anchors;
    forall i ensures i in s <==> BestNear(turns, anchors, i) < |anchors| {
      NearAnchors(turns, anchors, |anchors|, i);
    }
    hide BestNear, AroundAnchors, SessionIndexes;
  }

  lemma OfferedInTurn(turns: seq<ChatTurn>, anchors: seq<nat>, session: string)
    requires Within(turns, anchors)
    ensures InTurn(turns, anchors, Offered(turns, anchors, session))
  {
    var own := SessionIndexes(turns, session);
    AroundInTurn(turns, anchors, |anchors|);
    assert anchors[..|anchors|] == anchors && own[..|own|] == own;
    SessionFollows(turns, anchors, session);
    hide AroundAnchors, SessionIndexes, Deduplicated, InTurn, Follows;
    FollowersInTurn(turns, anchors, AroundAnchors(turns, anchors), own, |own|);
  }

  // ----- who gets the room -----

  /** The picks of turns that satisfy `p`. */
  function Picked(picks: seq<Pick>, p: nat -> bool): seq<Pick> {
    Select(picks, (pick: Pick) => p(pick.index))
  }

  function Before(order: seq<nat>, k: nat): nat -> bool
    requires k <= |order|
  {
    (i: nat) => i in order[..k]
  }

  /** There is a place and room for the turn's user message beside these picks. */
  predicate Fits(turns: seq<ChatTurn>, taken: seq<Pick>, max: int, i: nat)
    requires i < |turns|
  {
    |taken| < 12 && Used(taken) < max && |turns[i].userMessage| <= max - Used(taken)
  }

  /** The whole message, and as much of the answer as the picks leave room for. */
  predicate Excerpts(turns: seq<ChatTurn>, taken: seq<Pick>, max: int, p: Pick) {
    && p.index < |turns|
    && var turn, room := turns[p.index], max - Used(taken) - |turns[p.index].userMessage|;
    && p.excerpt.turnId == turn.id && p.excerpt.userMessage == turn.userMessage
    && p.excerpt.interpretationId == turn.interpretationId
    && p.excerpt.assistantAnswer <= turn.answer
    && |p.excerpt.assistantAnswer| == if |turn.answer| <= room then |turn.answer| else room
  }

  /** The turn at this place is picked exactly when it fits beside the picks before it in the order. */
  ghost predicate GreedyAt(turns: seq<ChatTurn>, order: seq<nat>, picks: seq<Pick>, max: int, k: nat)
    requires Within(turns, order) && k < |order|
  {
    var taken := Picked(picks, Before(order, k));
    && (IsPicked(picks, order[k]) <==> Fits(turns, taken, max, order[k]))
    && forall p | p in picks && p.index == order[k] :: Excerpts(turns, taken, max, p)
  }

  ghost predicate IsGreedy(turns: seq<ChatTurn>, order: seq<nat>, picks: seq<Pick>, max: int) {
    && Within(turns, order) && (forall p | p in picks :: p.index in order)
    && forall k | 0 <= k < |order| :: GreedyAt(turns, order, picks, max, k)
  }

  lemma {:induction false} PickedKeepsAll(picks: seq<Pick>, p: nat -> bool)
    requires forall pick | pick in picks :: p(pick.index)
    ensures Picked(picks, p) == picks
  {
    if picks != [] {
      var before, last := picks[..|picks| - 1], picks[|picks| - 1];
      assert picks == before + [last] && last in picks;
      assert forall pick | pick in before :: pick in picks;
      PickedKeepsAll(before, p);
    }
  }

  lemma PickedMore(picks: seq<Pick>, pick: Pick, p: nat -> bool)
    ensures Picked(picks + [pick], p) == Picked(picks, p) + if p(pick.index) then [pick] else []
  {
    SelectMore(picks, pick, (q: Pick) => p(q.index));
  }

  /** The picks made before a turn was considered. */
  lemma {:induction false} FilledBefore(turns: seq<ChatTurn>, order: seq<nat>, max: int, k: nat)
    requires Within(turns, order) && NoTwoEqual(order) && k <= |order|
    ensures Picked(Fill(turns, order, max), Before(order, k)) == Fill(turns, order[..k], max)
  {
    if k == |order| {
      assert order[..k] == order;
      FillIsBounded(turns, order, max);
      hide Fill, Used, Quotes, IsCut;
      PickedKeepsAll(Fill(turns, order, max), Before(order, k));
    } else {
      var n := |order| - 1;
      FilledBefore(turns, order[..n], max, k);
      assert order[..n][..k] == order[..k];
      NotAmongEarlier(order, k);
      var before, after := Fill(turns, order[..n], max), Fill(turns, order, max);
      assert after == Consider(turns, before, order[n], max);
      hide Fill;
      SamePicked(before, Before(order, k), Before(order[..n], k));
      if after != before {
        ConsiderAdds(turns, before, order[n], max);
        PickedMore(before, after[|before|], Before(order, k));
      }
    }
  }

  lemma NotAmongEarlier(order: seq<nat>, k: nat)
    requires NoTwoEqual(order) && k < |order|
    ensures order[|order| - 1] !in order[..k]
  {
    assert forall i | i in order[..k] :: i in order[..|order| - 1];
  }

  lemma SamePicked(picks: seq<Pick>, p: nat -> bool, q: nat -> bool)
    requires forall i: nat :: p(i) <==> q(i)
    ensures Picked(picks, p) == Picked(picks, q)
  {
    forall k | 0 <= k < |picks| ensures p(picks[k].index) <==> q(picks[k].index) {
      var i := picks[k].index;
      assert p(i) <==> q(i);
    }
    SelectAgrees(picks, (pick: Pick) => p(pick.index), (pick: Pick) => q(pick.index));
  }

  lemma FillIsGreedy(turns: seq<ChatTurn>, order: seq<nat>, max: int)
    requires Within(turns, order) && NoTwoEqual(order)
    ensures IsGreedy(turns, order, Fill(turns, order, max), max)
  {
    var picks := Fill(turns, order, max);
    FillIsBounded(turns, order, max);
    hide Fill, Used, Quotes, IsCut, Excerpts, Fits, Picked;
    forall k | 0 <= k < |order| ensures GreedyAt(turns, order, picks, max, k) {
      FilledBefore(turns, order, max, k);
      PickedWhenItFits(turns, order, max, k);
    }
  }

  lemma PickedWhenItFits(turns: seq<ChatTurn>, order: seq<nat>, max: int, k: nat)
    requires Within(turns, order) && NoTwoEqual(order) && k < |order|
    ensures var taken, picks := Fill(turns, order[..k], max), Fill(turns, order, max);
            && (IsPicked(picks, order[k]) <==> Fits(turns, taken, max, order[k]))
            && forall p | p in picks && p.index == order[k] :: Excerpts(turns, taken, max, p)
  {
    var taken, more := Fill(turns, order[..k], max), Fill(turns, order[..k + 1], max);
    var picks := Fill(turns, order, max);
    assert order[..k + 1][..k] == order[..k] && more == Consider(turns, taken, order[k], max);
    PrefixHasNoTwo(order, k);
    PrefixHasNoTwo(order, k + 1);
    FillIsBounded(turns, order[..k], max);
    FilledBefore(turns, order, max, k + 1);
    FilledBefore(turns, order[..k + 1], max, k);
    FillIsBounded(turns, order, max);
    assert forall p :: p in more <==> p in picks && p.index in order[..k + 1];
    LastIsNew(order, k);
    hide Fill, Picked, Quotes, IsCut;
    ConsiderFits(turns, taken, order[k], max);
    assert order[k] in order[..k + 1];
  }

  lemma {:induction false} PrefixHasNoTwo(order: seq<nat>, k: nat)
    requires NoTwoEqual(order) && k <= |order|
    ensures NoTwoEqual(order[..k])
  {
    if k == |order| {
      assert order[..k] == order;
    } else {
      assert order[..|order| - 1][..k] == order[..k];
      PrefixHasNoTwo(order[..|order| - 1], k);
    }
  }

  lemma LastIsNew(order: seq<nat>, k: nat)
    requires NoTwoEqual(order) && k < |order|
    ensures order[k] !in order[..k]
  {
    PrefixHasNoTwo(order, k + 1);
    assert order[..k + 1][..k] == order[..k];
  }

  lemma ConsiderFits(turns: seq<ChatTurn>, taken: seq<Pick>, i: nat, max: int)
    requires i < |turns| && forall p | p in taken :: p.index != i
    ensures var more := Consider(turns, taken, i, max);
            && (IsPicked(more, i) <==> Fits(turns, taken, max, i))
            && forall p | p in more && p.index == i :: Excerpts(turns, taken, max, p)
  {
    var more := Consider(turns, taken, i, max);
    hide Used;
    if more != taken {
      assert more == taken + [more[|taken|]] && more[|taken|] in more && more[|taken|].index == i;
    }
  }

  // ----- the result in the order of the dialogue -----

  lemma PickedOneMore(picks: seq<Pick>, x: Pick, p: nat -> bool)
    ensures |Picked(picks + [x], p)| == |Picked(picks, p)| + if p(x.index) then 1 else 0
    ensures Used(Picked(picks + [x], p)) == Used(Picked(picks, p)) + if p(x.index) then Size(x.excerpt) else 0
  {
    PickedMore(picks, x, p);
    UsedOfOneMore(Picked(picks, p), x);
    assert Picked(picks, p) + [] == Picked(picks, p);
  }

  lemma {:induction false} PlaceKeepsPicked(picks: seq<Pick>, x: Pick, p: nat -> bool)
    ensures var placed := Place(ByIndex(), picks, x);
            && |Picked(placed, p)| == |Picked(picks + [x], p)|
            && Used(Picked(placed, p)) == Used(Picked(picks + [x], p))
  {
    hide Picked, Used;
    if picks != [] && picks[|picks| - 1].index >= x.index {
      var before, last := picks[..|picks| - 1], picks[|picks| - 1];
      PlaceKeepsPicked(before, x, p);
      assert picks == before + [last];
      assert Place(ByIndex(), picks, x) == Place(ByIndex(), before, x) + [last];
      hide Place;
      PickedOneMore(before, last, p);
      PickedOneMore(before, x, p);
      PickedOneMore(picks, x, p);
      PickedOneMore(Place(ByIndex(), before, x), last, p);
    }
  }

  lemma {:induction false} SortKeepsPicked(picks: seq<Pick>, p: nat -> bool)
    ensures var sorted := Picked(Sort(ByIndex(), picks), p);
            |sorted| == |Picked(picks, p)| && Used(sorted) == Used(Picked(picks, p))
  {
    hide Picked, Used;
    if picks != [] {
      var before, last := picks[..|picks| - 1], picks[|picks| - 1];
      SortKeepsPicked(before, p);
      PlaceKeepsPicked(Sort(ByIndex(), before), last, p);
      assert picks == before + [last];
      PickedOneMore(before, last, p);
      PickedOneMore(Sort(ByIndex(), before), last, p);
    }
  }

  lemma SameFit(turns: seq<ChatTurn>, taken: seq<Pick>, taken': seq<Pick>, max: int, i: nat)
    requires i < |turns| && |taken| == |taken'| && Used(taken) == Used(taken')
    ensures Fits(turns, taken, max, i) <==> Fits(turns, taken', max, i)
    ensures forall p :: Excerpts(turns, taken, max, p) <==> Excerpts(turns, taken', max, p)
  {
    hide Used;
  }

  lemma SortedGreedyAt(turns: seq<ChatTurn>, order: seq<nat>, picks: seq<Pick>, max: int, k: nat)
    requires Within(turns, order) && k < |order| && GreedyAt(turns, order, picks, max, k) && DifferentIndexes(picks)
    ensures GreedyAt(turns, order, Sort(ByIndex(), picks), max, k)
  {
    var sorted := Sort(ByIndex(), picks);
    SortedByIndex(picks);
    SortKeepsPicked(picks, Before(order, k));
    hide Used, Picked, Sort, Fits, Excerpts, DifferentIndexes;
    SameFit(turns, Picked(picks, Before(order, k)), Picked(sorted, Before(order, k)), max, order[k]);
  }

  lemma SortedIsGreedy(turns: seq<ChatTurn>, order: seq<nat>, picks: seq<Pick>, max: int)
    requires IsGreedy(turns, order, picks, max) && DifferentIndexes(picks)
    ensures IsGreedy(turns, order, Sort(ByIndex(), picks), max)
  {
    SortedByIndex(picks);
    hide Used, Sort, GreedyAt, DifferentIndexes;
    forall k | 0 <= k < |order| ensures GreedyAt(turns, order, Sort(ByIndex(), picks), max, k) {
      SortedGreedyAt(turns, order, picks, max, k);
    }
  }

  /** The anchors: the best matching turns by rank, without the repetitions of a better one. */
  ghost predicate AreAnchors(lex: Lexicon, turns: seq<ChatTurn>, query: string, anchors: seq<nat>) {
    && Within(turns, anchors) && |anchors| <= 4
    && (forall j, k | 0 <= j < k < |anchors| :: Above(lex, turns, query, anchors[j], anchors[k]))
    && (forall j, k | 0 <= j < k < |anchors| ::
          SignatureOf(lex, turns, anchors[j]) != SignatureOf(lex, turns, anchors[k]))
    && (forall a | a in anchors :: Matches(lex, turns, query, a))
    && forall i: nat | Matches(lex, turns, query, i) && i !in anchors ::
         || (exists a :: a in anchors && Above(lex, turns, query, a, i)
                         && SignatureOf(lex, turns, a) == SignatureOf(lex, turns, i))
         || (|anchors| == 4 && forall a | a in anchors :: Above(lex, turns, query, a, i))
  }

  lemma {:induction false} AnchorsAreRanked(lex: Lexicon, turns: seq<ChatTurn>, query: string, ranked: seq<nat>)
    requires Sorted<nat>(ByRank(lex, turns, query), ranked)
    ensures forall j, k | 0 <= j < k < |Anchors(lex, turns, ranked)| ::
              Above(lex, turns, query, Anchors(lex, turns, ranked)[j], Anchors(lex, turns, ranked)[k])
  {
    if ranked != [] {
      var rest, last := ranked[..|ranked| - 1], ranked[|ranked| - 1];
      var before := Anchors(lex, turns, rest);
      AnchorsAreRanked(lex, turns, query, rest);
      AnchorsAreDifferent(lex, turns, rest);
      forall k | 0 <= k < |before| ensures Above(lex, turns, query, before[k], last) {
        assert before[k] in rest;
        assert ByRank(lex, turns, query)(before[k], last);
      }
      hide Above, Repeated;
    }
  }

  lemma BestAnchorsAreAnchors(lex: Lexicon, turns: seq<ChatTurn>, query: string)
    ensures AreAnchors(lex, turns, query, BestAnchors(lex, turns, query))
  {
    var ranked := Ranked(lex, turns, query);
    RankedIsRanking(lex, turns, query);
    AnchorsAreDifferent(lex, turns, ranked);
    AnchorsAreRanked(lex, turns, query, ranked);
    hide Ranked, Anchors, Above, Sorted, Matches;
    forall i: nat
      ensures var anchors := BestAnchors(lex, turns, query);
              && (i in anchors ==> Matches(lex, turns, query, i))
              && (Matches(lex, turns, query, i) && i !in anchors ==>
                    || (exists a :: a in anchors && Above(lex, turns, query, a, i)
                                    && SignatureOf(lex, turns, a) == SignatureOf(lex, turns, i))
                    || (|anchors| == 4 && forall a | a in anchors :: Above(lex, turns, query, a, i)))
    {
      AnchorsAreTheBestMatches(lex, turns, query, i);
    }
  }

  // ----- main results -----

  /** What may be returned, each turn once, in the order in which it gets its place. */
  ghost predicate IsOrder(turns: seq<ChatTurn>, anchors: seq<nat>, session: string, order: seq<nat>) {
    && Within(turns, order) && InTurn(turns, anchors, order)
    && forall i :: i in order <==> MayBeOffered(turns, anchors, session, i)
  }

  /**
   The retrieval considers the anchors by rank, each followed by its neighbours, and then the session's
   other turns from the latest on. A turn is returned exactly when there is a place and room for its
   message beside those considered before it, with as much of the answer as then fits.
   */
  lemma EpisodesAreGreedy(lex: Lexicon, history: seq<ChatTurn>, query: string, session: string, max: int)
    returns (anchors: seq<nat>, order: seq<nat>)
    ensures var turns := Unsuperseded(history);
            && anchors == BestAnchors(lex, turns, query)
            && AreAnchors(lex, turns, query, anchors) && IsOrder(turns, anchors, session, order)
            && IsGreedy(turns, order, Episodes(lex, history, query, session, max), max)
  {
    var turns := Unsuperseded(history);
    anchors := BestAnchors(lex, turns, query);
    order := Offered(turns, anchors, session);
    BestAnchorsAreAnchors(lex, turns, query);
    OfferedWithin(turns, anchors, session);
    OfferedInTurn(turns, anchors, session);
    forall i ensures i in order <==> MayBeOffered(turns, anchors, session, i) {
      OfferedExactly(turns, anchors, session, i);
    }
    FillIsGreedy(turns, order, max);
    FillIsBounded(turns, order, max);
    hide Offered, BestAnchors, MayBeOffered, Fill, InTurn, IsGreedy, AreAnchors, Sort, Used, Quotes, IsCut;
    SortedIsGreedy(turns, order, Fill(turns, order, max), max);
  }

  lemma EarlierIsStrict(turns: seq<ChatTurn>, anchors: seq<nat>, i: nat, j: nat)
    ensures IsEarlier(turns, anchors, i, j) ==> i != j && !IsEarlier(turns, anchors, j, i)
  {
    hide BestNear, Slot;
  }

  /** What comes before a place is what gets its place earlier. */
  lemma BeforeIsEarlier(turns: seq<ChatTurn>, anchors: seq<nat>, order: seq<nat>, k: nat, m: nat)
    requires InTurn(turns, anchors, order) && k < |order| && m in order
    ensures m in order[..k] <==> IsEarlier(turns, anchors, m, order[k])
  {
    hide IsEarlier;
    var l :| 0 <= l < |order| && order[l] == m;
    EarlierIsStrict(turns, anchors, m, order[k]);
    EarlierIsStrict(turns, anchors, order[k], m);
    if m in order[..k] {
      var n :| 0 <= n < k && order[n] == m;
    }
    if l < k {
      assert order[..k][l] == m;
    }
  }

  predicate IsNearAny(turns: seq<ChatTurn>, anchors: seq<nat>, i: nat) {
    BestNear(turns, anchors, i) < |anchors|
  }

  lemma NearAnyExactly(turns: seq<ChatTurn>, anchors: seq<nat>, i: nat)
    ensures IsNearAny(turns, anchors, i) <==> i in anchors || exists a :: a in anchors && AreNeighbours(turns, a, i)
  {
    var r := BestNear(turns, anchors, i);
    hide BestNear, AreNeighbours;
    if r < |anchors| {
      assert anchors[r] in anchors;
    }
    if a :| a in anchors && IsNear(turns, a, i) {
      var k :| 0 <= k < |anchors| && anchors[k] == a;
    }
  }

  lemma {:induction false} MorePicked(picks: seq<Pick>, p: nat -> bool, q: nat -> bool)
    requires forall k | 0 <= k < |picks| :: p(picks[k].index) ==> q(picks[k].index)
    ensures |Picked(picks, p)| <= |Picked(picks, q)| <= |picks| && Used(Picked(picks, p)) <= Used(Picked(picks, q))
  {
    hide Picked, Used;
    if picks == [] {
      PickedNone(p);
      PickedNone(q);
    } else {
      var before, last := picks[..|picks| - 1], picks[|picks| - 1];
      assert picks == before + [last];
      MorePicked(before, p, q);
      PickedOneMore(before, last, p);
      PickedOneMore(before, last, q);
    }
  }

  lemma PickedNone(p: nat -> bool)
    ensures Picked([], p) == [] && Used([]) == 0
  {
  }

  /** The best match is returned whenever the budget takes its message. */
  lemma BestMatchIsReturned(lex: Lexicon, history: seq<ChatTurn>, query: string, session: string, max: int, i: nat)
    requires Matches(lex, Unsuperseded(history), query, i)
    requires forall j: nat | Matches(lex, Unsuperseded(history), query, j) && j != i ::
               Above(lex, Unsuperseded(history), query, i, j)
    requires max > 0 && |Unsuperseded(history)[i].userMessage| <= max
    ensures IsPicked(Episodes(lex, history, query, session, max), i)
  {
    var turns, picks := Unsuperseded(history), Episodes(lex, history, query, session, max);
    var anchors, order := EpisodesAreGreedy(lex, history, query, session, max);
    FirstAnchor(lex, turns, query, anchors, i);
    hide Episodes, BestAnchors, Fits, Picked, Matches, Above, Unsuperseded, Excerpts, IsEarlier;
    assert anchors[0] in anchors && MayBeOffered(turns, anchors, session, i) && i in order;
    FirstInOrder(turns, anchors, order, i);
    PickedBeforeFirst(picks, order);
    assert GreedyAt(turns, order, picks, max, 0);
    NoneTakenFits(turns, max, i);
  }

  lemma FirstAnchor(lex: Lexicon, turns: seq<ChatTurn>, query: string, anchors: seq<nat>, i: nat)
    requires AreAnchors(lex, turns, query, anchors) && Matches(lex, turns, query, i)
    requires forall j: nat | Matches(lex, turns, query, j) && j != i :: Above(lex, turns, query, i, j)
    ensures |anchors| > 0 && anchors[0] == i
  {
    hide Matches;
    assert forall a | a in anchors :: !Above(lex, turns, query, a, i);
    assert forall k | 0 <= k < |anchors| :: anchors[k] in anchors && !Above(lex, turns, query, anchors[k], i);
    assert |anchors| == 4 ==> anchors[0] in anchors && !Above(lex, turns, query, anchors[0], i);
    hide Above, SignatureOf;
    assert i in anchors;
    var k :| 0 <= k < |anchors| && anchors[k] == i;
    assert anchors[0] in anchors;
  }

  lemma FirstInOrder(turns: seq<ChatTurn>, anchors: seq<nat>, order: seq<nat>, i: nat)
    requires InTurn(turns, anchors, order) && i in order && |anchors| > 0 && anchors[0] == i
    ensures order[0] == i
  {
    assert IsNear(turns, anchors[0], i);
    assert BestNear(turns, anchors, i) == 0 && Slot(turns, anchors, i) == 0;
    assert forall j :: !IsEarlier(turns, anchors, j, i);
    var k :| 0 <= k < |order| && order[k] == i;
  }

  lemma {:induction false} PickedBeforeFirst(picks: seq<Pick>, order: seq<nat>)
    ensures Picked(picks, Before(order, 0)) == []
  {
    if picks != [] {
      PickedBeforeFirst(picks[..|picks| - 1], order);
    }
  }

  lemma NoneTakenFits(turns: seq<ChatTurn>, max: int, i: nat)
    requires i < |turns| && max > 0 && |turns[i].userMessage| <= max
    ensures Fits(turns, [], max, i)
  {
  }

  /**
   An anchor or a neighbour of one is missing only if twelve such turns were taken, or they leave no room
   for its message.
   */
  lemma NearIsMissingForRoom(lex: Lexicon, history: seq<ChatTurn>, query: string, session: string, max: int, i: nat)
    requires i < |Unsuperseded(history)|
    requires IsNearAny(Unsuperseded(history), BestAnchors(lex, Unsuperseded(history), query), i)
    ensures var turns, picks := Unsuperseded(history), Episodes(lex, history, query, session, max);
            var near := Picked(picks, (j: nat) => IsNearAny(turns, BestAnchors(lex, turns, query), j));
            || IsPicked(picks, i) || |near| == 12 || Used(near) >= max
            || |turns[i].userMessage| > max - Used(near)
  {
    var turns, picks := Unsuperseded(history), Episodes(lex, history, query, session, max);
    var anchors, order := EpisodesAreGreedy(lex, history, query, session, max);
    EpisodesAreBounded(lex, history, query, session, max);
    NearAnyExactly(turns, anchors, i);
    hide Episodes, BestAnchors, Picked, Matches, Above, Unsuperseded, Excerpts, AreAnchors, Used, Quotes, AreNeighbours,
         BestNear;
    assert i in order;
    var k :| 0 <= k < |order| && order[k] == i;
    assert GreedyAt(turns, order, picks, max, k);
    var near := (j: nat) => IsNearAny(turns, anchors, j);
    forall l | 0 <= l < |picks| && Before(order, k)(picks[l].index) ensures near(picks[l].index) {
      BeforeIsEarlier(turns, anchors, order, k, picks[l].index);
    }
    MorePicked(picks, Before(order, k), near);
  }

  /**
   Of two turns of the current session, neither an anchor nor a neighbour of one, the earlier is returned
   without the later only if the later's message did not fit beside what was considered before it.
   */
  lemma LatestTurnsGoFirst(lex: Lexicon, history: seq<ChatTurn>, query: string, session: string, max: int, i: nat,
                           j: nat)
    requires var turns := Unsuperseded(history);
             && i < j < |turns| && turns[i].sessionId == turns[j].sessionId == session
             && !IsNearAny(turns, BestAnchors(lex, turns, query), i)
             && !IsNearAny(turns, BestAnchors(lex, turns, query), j)
    ensures var turns, picks := Unsuperseded(history), Episodes(lex, history, query, session, max);
            var taken := Picked(picks, (m: nat) => IsNearAny(turns, BestAnchors(lex, turns, query), m) || m > j);
            IsPicked(picks, i) && !IsPicked(picks, j) ==> |turns[j].userMessage| > max - Used(taken)
  {
    var turns, picks := Unsuperseded(history), Episodes(lex, history, query, session, max);
    var anchors, order := EpisodesAreGreedy(lex, history, query, session, max);
    assert MayBeOffered(turns, anchors, session, i) && MayBeOffered(turns, anchors, session, j);
    hide Episodes, BestAnchors, Picked, Unsuperseded, AreAnchors, Used, MayBeOffered, IsNearAny, InTurn, IsGreedy;
    var k :| 0 <= k < |order| && order[k] == i;
    var l :| 0 <= l < |order| && order[l] == j;
    LaterIsConsideredFirst(turns, anchors, order, picks, max, k, l);
  }

  lemma LaterIsConsideredFirst(turns: seq<ChatTurn>, anchors: seq<nat>, order: seq<nat>, picks: seq<Pick>, max: int,
                               k: nat, l: nat)
    requires IsGreedy(turns, order, picks, max) && InTurn(turns, anchors, order) && k < |order| && l < |order|
    requires order[k] < order[l] && !IsNearAny(turns, anchors, order[k]) && !IsNearAny(turns, anchors, order[l])
    ensures var taken := Picked(picks, (m: nat) => IsNearAny(turns, anchors, m) || m > order[l]);
            IsPicked(picks, order[k]) && !IsPicked(picks, order[l]) ==>
              |turns[order[l]].userMessage| > max - Used(taken)
  {
    OthersInTurn(turns, anchors, order[l]);
    assert GreedyAt(turns, order, picks, max, k) && GreedyAt(turns, order, picks, max, l);
    hide Picked, Excerpts, Used, IsNearAny, IsEarlier;
    PlaceOfEarlier(turns, anchors, order, l, k);
    var before := (m: nat) => IsNearAny(turns, anchors, m) || m > order[l];
    forall n | 0 <= n < |picks| ensures Before(order, l)(picks[n].index) <==> before(picks[n].index) {
      BeforeIsEarlier(turns, anchors, order, l, picks[n].index);
    }
    assert order[..l] <= order[..k];
    hide InTurn, IsPicked;
    MorePicked(picks, Before(order, l), Before(order, k));
    MorePicked(picks, before, Before(order, l));
    MorePicked(picks, Before(order, l), before);
  }

  lemma PlaceOfEarlier(turns: seq<ChatTurn>, anchors: seq<nat>, order: seq<nat>, l: nat, k: nat)
    requires InTurn(turns, anchors, order) && l < |order| && k < |order|
    requires IsEarlier(turns, anchors, order[l], order[k])
    ensures l < k
  {
    hide IsEarlier;
    EarlierIsStrict(turns, anchors, order[l], order[k]);
    EarlierIsStrict(turns, anchors, order[k], order[l]);
  }

  lemma OthersInTurn(turns: seq<ChatTurn>, anchors: seq<nat>, j: nat)
    requires !IsNearAny(turns, anchors, j)
    ensures forall m: nat :: IsEarlier(turns, anchors, m, j) <==> IsNearAny(turns, anchors, m) || m > j
    ensures forall m: nat | m < j && !IsNearAny(turns, anchors, m) :: IsEarlier(turns, anchors, j, m)
  {
    hide BestNear;
  }

  /** A better anchor's neighbour `b` comes before the anchor `a`, or beside it. */
  ghost predicate GoesWithBetter(turns: seq<ChatTurn>, anchors: seq<nat>, a: nat, b: nat, m: nat)
    requires m < |anchors|
  {
    && AreNeighbours(turns, anchors[m], b)
    && (forall n | 0 <= n < m :: !AreNeighbours(turns, anchors[n], a))
    && (AreNeighbours(turns, anchors[m], a) ==> b < a)
  }

  /**
   Anchors get their places by rank but for one case: an anchor that is a neighbour of a better one has its
   place with that one, which can be before an anchor ranked between the two.
   */
  lemma AnchorsGoByRankExactly(lex: Lexicon, turns: seq<ChatTurn>, query: string, anchors: seq<nat>, j: nat, k: nat)
    requires AreAnchors(lex, turns, query, anchors) && j < k < |anchors|
    ensures IsEarlier(turns, anchors, anchors[k], anchors[j]) <==>
              exists m | 0 <= m < j :: GoesWithBetter(turns, anchors, anchors[j], anchors[k], m)
  {
    AnchorsAreDistinct(lex, turns, query, anchors);
    hide AreAnchors, IsEarlier, GoesWithBetter;
    if IsEarlier(turns, anchors, anchors[k], anchors[j]) {
      EarlierGoesWithBetter(turns, anchors, j, k);
    }
    forall m | 0 <= m < j && GoesWithBetter(turns, anchors, anchors[j], anchors[k], m)
      ensures IsEarlier(turns, anchors, anchors[k], anchors[j])
    {
      BetterNeighbourIsEarlier(turns, anchors, j, k, m);
    }
  }

  lemma EarlierGoesWithBetter(turns: seq<ChatTurn>, anchors: seq<nat>, j: nat, k: nat)
    requires j < k < |anchors| && forall m, n | 0 <= m < n < |anchors| :: anchors[m] != anchors[n]
    requires IsEarlier(turns, anchors, anchors[k], anchors[j])
    ensures exists m | 0 <= m < j :: GoesWithBetter(turns, anchors, anchors[j], anchors[k], m)
  {
    var a, b := BestNear(turns, anchors, anchors[j]), BestNear(turns, anchors, anchors[k]);
    assert IsNear(turns, anchors[j], anchors[j]);
    hide BestNear;
    assert b <= a <= j;
    assert b < j;
    assert forall n | 0 <= n < b :: !IsNear(turns, anchors[n], anchors[j]);
    assert GoesWithBetter(turns, anchors, anchors[j], anchors[k], b);
  }

  lemma BetterNeighbourIsEarlier(turns: seq<ChatTurn>, anchors: seq<nat>, j: nat, k: nat, m: nat)
    requires m < j < k < |anchors| && forall m, n | 0 <= m < n < |anchors| :: anchors[m] != anchors[n]
    requires GoesWithBetter(turns, anchors, anchors[j], anchors[k], m)
    ensures IsEarlier(turns, anchors, anchors[k], anchors[j])
  {
    var a, b := BestNear(turns, anchors, anchors[j]), BestNear(turns, anchors, anchors[k]);
    hide BestNear;
    assert IsNear(turns, anchors[m], anchors[k]) && b <= m;
    assert IsNear(turns, anchors[j], anchors[j]) && m <= a <= j;
  }

  lemma AnchorsAreDistinct(lex: Lexicon, turns: seq<ChatTurn>, query: string, anchors: seq<nat>)
    requires AreAnchors(lex, turns, query, anchors)
    ensures forall m, n | 0 <= m < n < |anchors| :: anchors[m] != anchors[n]
  {
    hide Matches, SignatureOf;
  }
}
