/**
 The order of the log. Rows are appended turn by turn, so of several active facts of a key the
 program's dictionary, in which later rows win, holds the one of the latest turn.
 */
module FactOrder {
  import opened Lists
  import opened ConversationFacts
  import opened FactRefinement
  import opened FactLog
  import opened FactRetries

  /** The turn `a` comes before the turn `b`. */
  ghost predicate Earlier(live: seq<Turn>, a: string, b: string) {
    exists i, j :: 0 <= i < j < |live| && live[i].id == a && live[j].id == b
  }

  /** No fact of the scope is listed before one of an earlier turn. */
  ghost predicate InOrder(x: Scope, facts: seq<Fact>, live: seq<Turn>) {
    forall i, j | 0 <= i < j < |facts| && x.Contains(facts[i]) && x.Contains(facts[j]) ::
      !Earlier(live, facts[j].sourceTurn, facts[i].sourceTurn)
  }

  lemma NothingIsLater(live: seq<Turn>, a: string)
    requires DistinctTurns(live) && live != []
    ensures !Earlier(live, live[|live| - 1].id, a)
  {
  }

  lemma EarlierGrows(live: seq<Turn>, t: Turn, a: string, b: string)
    requires t.id !in TurnIds(live)
    ensures Earlier(live, a, b) ==> Earlier(live + [t], a, b)
    ensures Earlier(live + [t], a, b) ==> Earlier(live, a, b) || b == t.id
    ensures a in TurnIds(live) ==> Earlier(live + [t], a, t.id)
  {
    var more := live + [t];
    if Earlier(live, a, b) {
      var i, j :| 0 <= i < j < |live| && live[i].id == a && live[j].id == b;
      assert more[i].id == a && more[j].id == b;
    }
    if Earlier(more, a, b) && b != t.id {
      var i, j :| 0 <= i < j < |more| && more[i].id == a && more[j].id == b;
      assert live[i].id == a && live[j].id == b;
    }
    if a in TurnIds(live) {
      var i :| 0 <= i < |live| && live[i].id == a;
      assert more[i].id == a && more[|live|].id == t.id;
    }
  }

  // ----- selecting keeps the order -----

  lemma {:induction false} SelectedInOrder(x: Scope, facts: seq<Fact>, live: seq<Turn>)
    requires InOrder(x, facts, live)
    ensures forall p :: InOrder(x, Select(facts, p), live)
  {
    if facts != [] {
      var n := |facts| - 1;
      SelectedInOrder(x, facts[..n], live);
      hide Earlier;
      forall p ensures InOrder(x, Select(facts, p), live) {
        var before := Select(facts[..n], p);
        forall i | 0 <= i < |before| && x.Contains(before[i]) && x.Contains(facts[n])
          ensures !Earlier(live, facts[n].sourceTurn, before[i].sourceTurn) {
          assert before[i] in facts[..n];
          var k :| 0 <= k < n && facts[k] == before[i];
        }
      }
    }
  }

  lemma IndexedInOrder(x: Scope, log: Log, live: seq<Turn>)
    requires InOrder(x, log.facts, live)
    ensures InOrder(x, Indexed(x, log), live)
  {
    SelectedInOrder(x, log.facts, live);
    var visible := Visible(log.facts, log.hidden, x.Sessions());
    SelectedInOrder(x, visible, live);
    SelectedInOrder(x, Active(visible), live);
    hide InOrder, Select;
  }

  /** The fact is listed, and no later one has its key. */
  ghost predicate IsLast(facts: seq<Fact>, f: Fact) {
    facts != [] && (facts[|facts| - 1] == f || (facts[|facts| - 1].key != f.key && IsLast(facts[..|facts| - 1], f)))
  }

  /** The index holds the last listed fact of a key. */
  lemma {:induction false} IndexIsLast(facts: seq<Fact>, key: Key)
    requires key in IndexByKey(facts)
    ensures IsLast(facts, IndexByKey(facts)[key]) && IndexByKey(facts)[key].key == key
  {
    if facts[|facts| - 1].key != key {
      IndexIsLast(facts[..|facts| - 1], key);
    }
  }

  lemma {:induction false} LastIsAt(facts: seq<Fact>, f: Fact) returns (p: nat)
    requires IsLast(facts, f)
    ensures p < |facts| && facts[p] == f && forall q | p < q < |facts| :: facts[q].key != f.key
  {
    if facts[|facts| - 1] == f {
      p := |facts| - 1;
    } else {
      p := LastIsAt(facts[..|facts| - 1], f);
    }
  }

  // ----- the top fact of a key -----

  /** The active fact of the key that every other one is earlier than. */
  ghost predicate IsTop(facts: set<Fact>, live: seq<Turn>, key: Key, top: Fact) {
    && IsActive(facts, top) && top.key == key
    && forall b | IsActive(facts, b) && b.key == key && b != top :: Earlier(live, b.sourceTurn, top.sourceTurn)
  }

  /** The index holds the top fact. */
  lemma IndexIsTop(x: Scope, log: Log, live: seq<Turn>, key: Key, top: Fact)
    requires Sound(x, log, live) && InOrder(x, log.facts, live) && IsTop(Shown(x, log, live), live, key, top)
    ensures var index := IndexByKey(Indexed(x, log)); key in index && CoreOf(index[key]) == top
  {
    hide Indexed, IndexByKey, Sound, IsUserKey, InOrder, Shown, CoreOf;
    var listed, shown := Indexed(x, log), Shown(x, log, live);
    var index := IndexByKey(listed);
    ListNames(x, log, live);
    IndexedInOrder(x, log, live);
    ShownIsOfTheKind(x, log, live, top);
    TopIsListed(x, log, live, top);
    assert key in index && IsActive(shown, CoreOf(index[key]));
    IndexedIsInScope(x, log, live, key);
    IndexIsLast(listed, key);
    LastListedIsTop(x, listed, live, key, top, index[key], shown);
  }

  lemma TopIsListed(x: Scope, log: Log, live: seq<Turn>, top: Fact)
    requires Sound(x, log, live) && IsActive(Shown(x, log, live), top)
    ensures exists f :: f in Indexed(x, log) && CoreOf(f) == top && x.Contains(f)
  {
    IndexedIsListed(x, log, live);
    assert top in CoreSet(log.facts) && x.Contains(top);
    var f :| f in log.facts && CoreOf(f) == top;
    assert x.Contains(f);
    hide Indexed, TurnIds, LogOk, VisibleAreLive, Separated, CoreOf, CoreSet, InScope, IsActive;
  }

  lemma IndexedIsInScope(x: Scope, log: Log, live: seq<Turn>, key: Key)
    requires Sound(x, log, live) && IsUserKey(key) == x.OneProfile? && key in IndexByKey(Indexed(x, log))
    ensures x.Contains(IndexByKey(Indexed(x, log))[key])
  {
    IndexedIsListed(x, log, live);
    IndexIsFromList(Indexed(x, log));
    hide IndexByKey, Indexed, IsUserKey, LogOk, VisibleAreLive, Separated;
  }

  lemma LastListedIsTop(x: Scope, listed: seq<Fact>, live: seq<Turn>, key: Key, top: Fact, last: Fact, shown: set<Fact>)
    requires InOrder(x, listed, live) && x.Contains(last) && last.key == key && IsActive(shown, CoreOf(last))
    requires IsLast(listed, last)
    requires (exists f :: f in listed && CoreOf(f) == top && x.Contains(f)) && IsTop(shown, live, key, top)
    ensures CoreOf(last) == top
  {
    var p := LastIsAt(listed, last);
    var f :| f in listed && CoreOf(f) == top && x.Contains(f);
    var q :| 0 <= q < |listed| && listed[q] == f;
    SameCore(CoreOf(last), last);
    SameCore(top, f);
    hide CoreOf, IsActive, Earlier;
  }

  lemma ShownIsOfTheKind(x: Scope, log: Log, live: seq<Turn>, f: Fact)
    requires Sound(x, log, live) && f in Shown(x, log, live)
    ensures IsUserKey(f.key) == x.OneProfile?
  {
    hide IsUserKey;
  }

  /** For keys of the scope's kind the index holds facts that are shown. */
  lemma IndexedIsShown(x: Scope, log: Log, live: seq<Turn>, key: Key)
    requires Sound(x, log, live) && IsUserKey(key) == x.OneProfile? && key in IndexByKey(Indexed(x, log))
    ensures exists f :: f in Shown(x, log, live) && f.key == key
  {
    ListNames(x, log, live);
    var f := CoreOf(IndexByKey(Indexed(x, log))[key]);
    hide IndexByKey, Indexed, IsUserKey, Sound;
    assert f in Shown(x, log, live) && f.key == key;
  }

  // ----- a commit keeps the order -----

  /** The rows as they were, confirmations aside, and after them rows of one turn. */
  ghost predicate Appends(facts: seq<Fact>, facts': seq<Fact>, turn: string, session: string) {
    && |facts| <= |facts'| && (forall i | 0 <= i < |facts| :: CoreOf(facts'[i]) == CoreOf(facts[i]))
    && forall i | |facts| <= i < |facts'| :: facts'[i].sourceTurn == turn && facts'[i].sessionId == session
  }

  lemma ReplacedRows(facts: seq<Fact>, prior: Fact, confirmed: Fact)
    requires UniqueIds(CoreSet(facts)) && CoreOf(prior) in CoreSet(facts) && CoreOf(confirmed) == CoreOf(prior)
    ensures var after := ReplaceById(facts, confirmed);
            |after| == |facts| && forall i | 0 <= i < |facts| :: CoreOf(after[i]) == CoreOf(facts[i])
  {
    SameCore(confirmed, prior);
    forall i | 0 <= i < |facts| ensures CoreOf(ReplaceById(facts, confirmed)[i]) == CoreOf(facts[i]) {
      assert CoreOf(facts[i]) in CoreSet(facts) && CoreOf(facts[i]).id == facts[i].id && CoreOf(prior).id == prior.id;
    }
  }

  lemma CommitOneAppends(fold: Fold, x: Scope, turn: string, session: string, p: Progress, c: Fact)
    requires Mid(x, session, p) && IsCandidate(c, turn, session)
    ensures Appends(p.facts, CommitOne(fold, p, turn, c).facts, turn, session)
  {
    hide Mid, CoreOf, UniqueIds, WellKeyed, Consolidated, CoreSet, Appends, IndexKnown;
    MidFacts(x, session, p);
    ConsolidatedAppends(fold, p.facts, if c.profile then p.profileByKey else p.byKey, turn, session, c);
  }

  lemma ConsolidatedAppends(fold: Fold, facts: seq<Fact>, index: map<Key, Fact>, turn: string, session: string, c: Fact)
    requires UniqueIds(CoreSet(facts)) && IndexKnown(CoreSet(facts), index) && c.sessionId == session
    requires c.sourceTurn == turn
    ensures Appends(facts, Consolidated(fold, facts, index, turn, c).0, turn, session)
  {
    hide CoreOf, UniqueIds, ReplaceById, Confirmed, CoreSet;
    if Repeats(fold, index, c) {
      ConfirmedCore(index[c.key], turn, c.createdAt);
      ReplacedRows(facts, index[c.key], Confirmed(index[c.key], turn, c.createdAt));
    }
  }

  lemma {:induction false} CommitAllAppends(fold: Fold, x: Scope, turn: string, session: string, p: Progress,
                                            candidates: seq<Fact>, n: nat)
    requires Mid(x, session, p) && AreCandidates(p.facts, turn, session, candidates) && n <= |candidates|
    ensures Appends(p.facts, CommitAll(fold, p, turn, candidates[..n]).facts, turn, session)
  {
    hide Mid, CommitOne, CoreOf, IsCandidate, CoreSet;
    if n > 0 {
      assert candidates[..n][..n - 1] == candidates[..n - 1];
      CommitAllAppends(fold, x, turn, session, p, candidates, n - 1);
      CommitAllKeepsMid(fold, x, turn, session, p, candidates, n - 1);
      var q := CommitAll(fold, p, turn, candidates[..n - 1]);
      CommitOneAppends(fold, x, turn, session, q, candidates[n - 1]);
      AppendsMore(p.facts, q.facts, CommitOne(fold, q, turn, candidates[n - 1]).facts, turn, session);
    }
  }

  lemma AppendsMore(a: seq<Fact>, b: seq<Fact>, c: seq<Fact>, turn: string, session: string)
    requires Appends(a, b, turn, session) && Appends(b, c, turn, session)
    ensures Appends(a, c, turn, session)
  {
    forall i | |a| <= i < |c| ensures c[i].sourceTurn == turn && c[i].sessionId == session {
      if i < |b| {
        SameCore(b[i], c[i]);
        assert CoreOf(c[i]).sessionId == CoreOf(b[i]).sessionId;
      }
    }
  }

  lemma CommitAppends(fold: Fold, profiles: map<string, string>, x: Scope, log: Log, t: Turn)
    requires LogOk(CoreSet(log.facts)) && Separated(x, CoreSet(log.facts)) && IsScope(x, profiles)
    requires AreCandidates(log.facts, t.id, t.session, t.candidates)
    ensures Appends(log.facts, Apply(fold, profiles, log, CommitTurn(t)).facts, t.id, t.session)
  {
    assert t.candidates[..|t.candidates|] == t.candidates;
    StartIsMid(x, profiles, log, t.session);
    assert Start(log.facts, log.hidden, profiles, t.session).facts == log.facts;
    hide Start, Mid, AreCandidates, Appends, LogOk, Separated;
    CommitAllAppends(fold, x, t.id, t.session, Start(log.facts, log.hidden, profiles, t.session), t.candidates,
                     |t.candidates|);
  }

  lemma AppendsInOrder(x: Scope, facts: seq<Fact>, facts': seq<Fact>, turn: string, session: string, live: seq<Turn>)
    requires Appends(facts, facts', turn, session) && InOrder(x, facts, live) && DistinctTurns(live)
    requires session in x.Sessions() ==> live != [] && live[|live| - 1].id == turn
    ensures InOrder(x, facts', live)
  {
    forall i | 0 <= i < |facts|
      ensures facts'[i].sourceTurn == facts[i].sourceTurn && (x.Contains(facts'[i]) <==> x.Contains(facts[i]))
    {
      assert CoreOf(facts'[i]) == CoreOf(facts[i]);
    }
    hide CoreOf, Earlier;
    forall i, j | 0 <= i < j < |facts'| && x.Contains(facts'[i]) && x.Contains(facts'[j])
      ensures !Earlier(live, facts'[j].sourceTurn, facts'[i].sourceTurn) {
      if j >= |facts| {
        NothingIsLater(live, facts'[i].sourceTurn);
      }
    }
  }

  /** The order does not change when a turn of which there is no fact becomes the latest. */
  lemma OrderGrows(x: Scope, facts: seq<Fact>, live: seq<Turn>, t: Turn)
    requires InOrder(x, facts, live) && t.id !in TurnIds(live) && forall f | f in CoreSet(facts) :: f.sourceTurn != t.id
    ensures InOrder(x, facts, live + [t])
  {
    hide Earlier, TurnIds;
    forall i, j | 0 <= i < j < |facts| && x.Contains(facts[i]) && x.Contains(facts[j])
      ensures !Earlier(live + [t], facts[j].sourceTurn, facts[i].sourceTurn) {
      assert CoreOf(facts[i]) in CoreSet(facts) && CoreOf(facts[i]).sourceTurn == facts[i].sourceTurn;
      EarlierGrows(live, t, facts[j].sourceTurn, facts[i].sourceTurn);
    }
  }

  /** Nor when fewer turns are visible. */
  lemma OrderShrinks(x: Scope, facts: seq<Fact>, live: seq<Turn>, fewer: seq<Turn>)
    requires InOrder(x, facts, live) && forall a, b :: Earlier(fewer, a, b) ==> Earlier(live, a, b)
    ensures InOrder(x, facts, fewer)
  {
    hide Earlier;
  }
}
