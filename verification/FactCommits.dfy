/**
 One commit, seen from the facts that are visible before it: what the program's dictionary says,
 what the commit records, and what other commits leave alone.
 */
module FactCommits {
  import opened Wrappers
  import opened ConversationFacts
  import opened FactRefinement
  import opened FactLog
  import opened FactChanges
  import opened FactRetries
  import opened FactOrder

  // ----- what the index says -----

  /** The key's top fact has the latest value, and keys without a value have no facts. */
  ghost predicate Shows(fold: Fold, facts: set<Fact>, live: seq<Turn>, key: Key, latest: Option<string>) {
    if latest.None? then forall f | f in facts :: f.key != key
    else exists top :: IsTop(facts, live, key, top) && fold(top.value) == fold(latest.value)
  }

  /** The index holds the key's top fact, and no fact of a key of the scope's kind that has none. */
  ghost predicate Agrees(x: Scope, index: map<Key, Fact>, facts: set<Fact>, live: seq<Turn>, key: Key) {
    && (forall top | IsTop(facts, live, key, top) :: key in index && CoreOf(index[key]) == top)
    && (IsUserKey(key) == x.OneProfile? && (forall f | f in facts :: f.key != key) ==> key !in index)
  }

  lemma IndexAgrees(x: Scope, log: Log, live: seq<Turn>, key: Key)
    requires Sound(x, log, live) && InOrder(x, log.facts, live)
    ensures Agrees(x, IndexByKey(Indexed(x, log)), Shown(x, log, live), live, key)
  {
    hide Sound, InOrder, Shown, Indexed, IndexByKey, IsTop, CoreOf, IsUserKey;
    forall top | IsTop(Shown(x, log, live), live, key, top)
      ensures key in IndexByKey(Indexed(x, log)) && CoreOf(IndexByKey(Indexed(x, log))[key]) == top {
      IndexIsTop(x, log, live, key, top);
    }
    if IsUserKey(key) == x.OneProfile? && key in IndexByKey(Indexed(x, log)) {
      IndexedIsShown(x, log, live, key);
    }
  }

  lemma BaseIsTop(x: Scope, index: map<Key, Fact>, facts: set<Fact>, added: set<Fact>, live: seq<Turn>, key: Key)
    requires Agrees(x, index, facts, live, key) && forall f | f in added :: IsUserKey(f.key) == x.OneProfile?
    ensures forall top | IsTop(facts, live, key, top) ::
              Base(index, added, key) == if Recorded(added, key) then Some(top) else None
    ensures (forall f | f in facts :: f.key != key) ==> Base(index, added, key) == None
  {
    hide IsUserKey, IsTop, CoreOf;
  }

  lemma {:induction false} AltersUpToFold(fold: Fold, x: Scope, a: Option<string>, b: Option<string>,
                                          candidates: seq<Fact>, key: Key)
    requires if a.Some? then b.Some? && fold(a.value) == fold(b.value) else b.None?
    ensures Alters(fold, x, a, candidates, key) <==> Alters(fold, x, b, candidates, key)
  {
    if candidates != [] {
      AltersUpToFold(fold, x, a, b, candidates[..|candidates| - 1], key);
    }
  }

  lemma {:induction false} AltersStates(fold: Fold, x: Scope, start: Option<string>, candidates: seq<Fact>, key: Key)
    ensures Alters(fold, x, start, candidates, key) ==> LatestOf(x, candidates, key).Some?
  {
    if candidates != [] {
      AltersStates(fold, x, start, candidates[..|candidates| - 1], key);
    }
  }

  lemma {:induction false} StatedKeysAreOfTheKind(x: Scope, candidates: seq<Fact>, key: Key)
    requires forall c | c in candidates :: WellKeyed(c)
    ensures LatestOf(x, candidates, key).Some? ==> IsUserKey(key) == x.OneProfile?
  {
    hide IsUserKey;
    if candidates != [] {
      assert candidates[|candidates| - 1] in candidates;
      StatedKeysAreOfTheKind(x, candidates[..|candidates| - 1], key);
    }
  }

  /** A statement alters the indexed value exactly when it alters the value shown. */
  lemma IndexedIsAltered(fold: Fold, x: Scope, index: map<Key, Fact>, facts: set<Fact>, live: seq<Turn>,
                         candidates: seq<Fact>, key: Key, latest: Option<string>)
    requires Agrees(x, index, facts, live, key) && Shows(fold, facts, live, key, latest)
    requires forall c | c in candidates :: WellKeyed(c)
    ensures Alters(fold, x, ValueIn(index, key), candidates, key) <==> Alters(fold, x, latest, candidates, key)
  {
    hide IsUserKey, IsTop, Alters, WellKeyed;
    if IsUserKey(key) == x.OneProfile? {
      if latest.Some? {
        var top :| IsTop(facts, live, key, top) && fold(top.value) == fold(latest.value);
        SameCore(top, index[key]);
      }
      AltersUpToFold(fold, x, ValueIn(index, key), latest, candidates, key);
    } else {
      StatedKeysAreOfTheKind(x, candidates, key);
      AltersStates(fold, x, ValueIn(index, key), candidates, key);
      AltersStates(fold, x, latest, candidates, key);
    }
  }

  // ----- statements of a turn -----

  lemma {:induction false} ChangesIsAlters(fold: Fold, x: Scope, history: seq<Turn>, turn: Turn, key: Key, n: nat)
    requires n <= |turn.candidates|
    ensures ChangesBy(fold, x, history, turn, key, n) <==>
              Alters(fold, x, Latest(x, history, key), turn.candidates[..n], key)
  {
    hide Says;
    if n > 0 {
      var cs := turn.candidates;
      assert cs[..n] == cs[..n - 1] + [cs[n - 1]];
      ChangesIsAlters(fold, x, history, turn, key, n - 1);
      ChangesOneMore(fold, x, history, turn, key, n);
      AltersOneMore(fold, x, Latest(x, history, key), cs[..n - 1], cs[n - 1], key);
      LatestIsStated(x, history, turn.(candidates := cs[..n - 1]), key);
      hide Alters, ChangesBy;
    }
  }

  lemma LatestIsStated(x: Scope, history: seq<Turn>, turn: Turn, key: Key)
    ensures Latest(x, history + [turn], key) == Stated(x, Latest(x, history, key), turn.candidates, key)
  {
    assert (history + [turn])[..|history|] == history;
  }

  lemma TurnChanges(fold: Fold, x: Scope, history: seq<Turn>, turn: Turn, key: Key)
    ensures Changes(fold, x, history, turn, key) <==> Alters(fold, x, Latest(x, history, key), turn.candidates, key)
  {
    ChangesIsAlters(fold, x, history, turn, key, |turn.candidates|);
    assert turn.candidates[..|turn.candidates|] == turn.candidates;
  }

  // ----- one commit in the scope -----

  /** The scope's latest turn may commit, and its key's visible facts have a top. */
  ghost predicate ReadyToCommit(x: Scope, log: Log, live: seq<Turn>, t: Turn) {
    && MayCommit(x, log, live, t) && InOrder(x, log.facts, live) && DistinctTurns(live)
    && live != [] && live[|live| - 1].id == t.id
  }

  lemma GainedAre(x: Scope, log: Log, log': Log, live: seq<Turn>, turn: string)
    requires Gains(x, log, log', live, turn)
    ensures forall f | f in Gained(x, log, log', turn) :: f.sourceTurn == turn && IsUserKey(f.key) == x.OneProfile?
    ensures Shown(x, log', live) == Shown(x, log, live) + Gained(x, log, log', turn)
  {
    hide IsUserKey, Sound, UniqueIds;
  }

  /** The commit leaves the log ready for more. */
  lemma CommitKeepsReady(fold: Fold, profiles: map<string, string>, x: Scope, log: Log, live: seq<Turn>, t: Turn)
    requires ReadyToCommit(x, log, live, t) && IsScope(x, profiles)
    ensures var log' := Apply(fold, profiles, log, CommitTurn(t));
            Sound(x, log', live) && InOrder(x, log'.facts, live) && log'.hidden == log.hidden
  {
    CommitAppends(fold, profiles, x, log, t);
    CommitGains(fold, profiles, x, log, live, t);
    hide Start, CommitAll, LogOk, Separated, VisibleAreLive, AreCandidates, InOrder, DistinctTurns, Appends, Shown,
         Gained, UniqueIds;
    AppendsInOrder(x, log.facts, Apply(fold, profiles, log, CommitTurn(t)).facts, t.id, t.session, live);
  }

  lemma AgainIsWellKeyed(facts: seq<Fact>, t: Turn)
    requires AreCandidates(facts, t.id, t.session, t.candidates)
    ensures forall c | c in t.candidates :: WellKeyed(c)
  {
    hide WellKeyed;
  }

  /** No fact of the log is of the turn, so it may come last. */
  lemma NewTurnIsReady(x: Scope, log: Log, live: seq<Turn>, t: Turn)
    requires Sound(x, log, live) && DistinctTurns(live) && InOrder(x, log.facts, live)
    requires IsNewTurn(log, live, t) && t.session in x.Sessions()
    ensures ReadyToCommit(x, log, live + [t], t) && Shown(x, log, live + [t]) == Shown(x, log, live)
    ensures InScope(x, CoreSet(log.facts), {t.id}) == {}
  {
    OrderGrows(x, log.facts, live, t);
    hide LogOk, Separated, AreCandidates, InOrder;
    var more := live + [t];
    assert more[..|live|] == live;
    TurnIdsOfPrefix(more, |live|);
    assert forall i | 0 <= i < |live| :: live[i] in live && live[i].id in TurnIds(live);
  }

  /** A turn of which there was no fact has the gained ones. */
  lemma GainedIsAll(fold: Fold, profiles: map<string, string>, x: Scope, log: Log, live: seq<Turn>, t: Turn)
    requires ReadyToCommit(x, log, live, t) && IsScope(x, profiles) && InScope(x, CoreSet(log.facts), {t.id}) == {}
    ensures var log' := Apply(fold, profiles, log, CommitTurn(t));
            InScope(x, CoreSet(log'.facts), {t.id}) == Gained(x, log, log', t.id)
  {
    CommitGains(fold, profiles, x, log, live, t);
    var log' := Apply(fold, profiles, log, CommitTurn(t));
    hide Apply, Sound, UniqueIds, IsUserKey, AreCandidates, InOrder;
    assert forall f | f in CoreSet(log.facts) && x.Contains(f) ::
             f.sourceTurn == t.id ==> f in InScope(x, CoreSet(log.facts), {t.id});
  }

  lemma OverHasCap(visible: set<Fact>, added: set<Fact>, key: Key, base: Option<Fact>)
    requires Over(visible, added, key, base) && Recorded(added, key)
    ensures exists cap :: IsCap(added, key, cap)
  {
  }

  lemma CapIsAdded(added: set<Fact>, key: Key, cap: Fact)
    requires IsCap(added, key, cap)
    ensures cap in added && cap.key == key
  {
  }

  // ----- a commit elsewhere -----

  lemma ForeignGains(fold: Fold, profiles: map<string, string>, x: Scope, log: Log, live: seq<Turn>, t: Turn)
    requires Sound(x, log, live) && IsScope(x, profiles) && t.session !in x.Sessions()
    requires AreCandidates(log.facts, t.id, t.session, t.candidates)
    ensures var log' := Apply(fold, profiles, log, CommitTurn(t));
            && Sound(x, log', live) && CoreSet(log.facts) <= CoreSet(log'.facts)
            && forall g | g in CoreSet(log'.facts) - CoreSet(log.facts) :: !x.Contains(g)
  {
    hide AreCandidates, IsScope, LogOk, Separated, VisibleAreLive, CoreSet, Mid, CommitAll;
    var p := Start(log.facts, log.hidden, profiles, t.session);
    StartIsMid(x, profiles, log, t.session);
    assert t.candidates[..|t.candidates|] == t.candidates && p.facts == log.facts;
    hide Start;
    CommitAllKeepsMid(fold, x, t.id, t.session, p, t.candidates, |t.candidates|);
    ForeignIsSound(x, log, live, t.session, CommitAll(fold, p, t.id, t.candidates));
  }

  lemma ForeignIsSound(x: Scope, log: Log, live: seq<Turn>, session: string, q: Progress)
    requires Sound(x, log, live) && Mid(x, session, q) && session !in x.Sessions()
    requires CoreSet(log.facts) <= CoreSet(q.facts)
    requires forall g | g in CoreSet(q.facts) - CoreSet(log.facts) :: g.sessionId == session
    ensures Sound(x, log.(facts := q.facts), live)
    ensures forall g | g in CoreSet(q.facts) - CoreSet(log.facts) :: !x.Contains(g)
  {
    hide LogOk, Separated, IndexKnown, Sided, TurnIds, CoreSet;
    assert forall f | f in CoreSet(q.facts) :: f in CoreSet(log.facts) || f in CoreSet(q.facts) - CoreSet(log.facts);
  }
}
