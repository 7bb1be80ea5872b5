/** What repetition adds to a fact: the last eight other turns that said the same, each once. */
module FactSupport {
  import opened Lists
  import opened Wrappers
  import opened ConversationFacts
  import opened FactRefinement
  import opened FactLog
  import opened FactHistory

  // ----- one repetition -----

  /** The turn joins the fact's supporting turns, of which the last eight are kept; nothing else changes. */
  ghost predicate Joins(prior: Fact, after: Fact, turn: string, at: int) {
    && after == prior.(supporting := after.supporting, lastConfirmed := Some(at))
    && |after.supporting| == (if |prior.supporting| < 8 then |prior.supporting| + 1 else 8)
    && after.supporting[|after.supporting| - 1] == turn
    && forall k | 0 <= k < |after.supporting| - 1 ::
         after.supporting[k] == prior.supporting[|prior.supporting| - (|after.supporting| - 1) + k]
  }

  /** A value said again adds its turn to the indexed fact, unless it comes from that turn or was added before. */
  lemma RepetitionJoins(fold: Fold, facts: seq<Fact>, index: map<Key, Fact>, turn: string, fact: Fact)
    requires Repeats(fold, index, fact)
    ensures var (facts', index') := Consolidated(fold, facts, index, turn, fact);
            var prior := index[fact.key];
            && |facts'| == |facts| && index'.Keys == index.Keys
            && (forall k | k in index && k != fact.key :: index'[k] == index[k])
            && (forall i | 0 <= i < |facts| :: facts'[i] == if facts[i].id == prior.id && facts' != facts
                                                           then index'[fact.key] else facts[i])
            && (if turn == prior.sourceTurn || turn in prior.supporting then facts' == facts && index' == index
                else Joins(prior, index'[fact.key], turn, fact.createdAt)
                     && forall i | 0 <= i < |facts| && facts[i].id == prior.id :: facts'[i] == index'[fact.key])
  {
  }

  // ----- over every history -----

  /** At most eight supporting turns, all different and none the fact's own; confirmed exactly if there are any. */
  ghost predicate SupportOk(f: Fact) {
    && |f.supporting| <= 8 && f.sourceTurn !in f.supporting
    && (forall j, k | 0 <= j < k < |f.supporting| :: f.supporting[j] != f.supporting[k])
    && (f.lastConfirmed == None <==> f.supporting == [])
  }

  ghost predicate AllOk(p: Progress) {
    && (forall f | f in p.facts :: SupportOk(f))
    && (forall k | k in p.byKey :: SupportOk(p.byKey[k]))
    && (forall k | k in p.profileByKey :: SupportOk(p.profileByKey[k]))
  }

  lemma ConfirmedIsOk(prior: Fact, turn: string, at: int)
    requires SupportOk(prior) && turn != prior.sourceTurn && turn !in prior.supporting
    ensures SupportOk(Confirmed(prior, turn, at))
  {
  }

  lemma CommitOneIsOk(fold: Fold, p: Progress, turn: string, c: Fact)
    requires AllOk(p) && SupportOk(c)
    ensures AllOk(CommitOne(fold, p, turn, c))
  {
    var index := if c.profile then p.profileByKey else p.byKey;
    if Repeats(fold, index, c) && turn != index[c.key].sourceTurn && turn !in index[c.key].supporting {
      ConfirmedIsOk(index[c.key], turn, c.createdAt);
    }
    assert forall g: Fact, s :: SupportOk(g) <==> SupportOk(g.(supersedes := s));
    hide SupportOk, Confirmed;
  }

  lemma {:induction false} CommitAllIsOk(fold: Fold, p: Progress, turn: string, candidates: seq<Fact>, n: nat)
    requires n <= |candidates| && AllOk(p) && forall c | c in candidates :: SupportOk(c)
    ensures AllOk(CommitAll(fold, p, turn, candidates[..n]))
  {
    hide AllOk, SupportOk, CommitOne;
    if n > 0 {
      assert candidates[..n][..n - 1] == candidates[..n - 1];
      CommitAllIsOk(fold, p, turn, candidates, n - 1);
      CommitOneIsOk(fold, CommitAll(fold, p, turn, candidates[..n - 1]), turn, candidates[n - 1]);
    }
  }

  ghost predicate LogSupported(log: Log) {
    forall f | f in log.facts :: SupportOk(f)
  }

  lemma StartIsOk(profiles: map<string, string>, log: Log, session: string)
    requires LogSupported(log)
    ensures AllOk(Start(log.facts, log.hidden, profiles, session))
  {
    ActiveIsFromVisible(log, {session});
    ActiveIsFromVisible(log, SessionsOf(profiles, session));
    IndexIsFromList(Active(Visible(log.facts, log.hidden, {session})));
    IndexIsFromList(Select(Active(Visible(log.facts, log.hidden, SessionsOf(profiles, session))),
                           (f: Fact) => f.profile));
    hide SupportOk, Active, Visible, IndexByKey, SessionsOf;
  }

  lemma CommitIsSupported(fold: Fold, profiles: map<string, string>, log: Log, t: Turn)
    requires LogSupported(log) && AreCandidates(log.facts, t.id, t.session, t.candidates)
    ensures LogSupported(Apply(fold, profiles, log, CommitTurn(t)))
  {
    StartIsOk(profiles, log, t.session);
    assert t.candidates[..|t.candidates|] == t.candidates;
    forall c | c in t.candidates ensures SupportOk(c) {
      var i :| 0 <= i < |t.candidates| && t.candidates[i] == c;
      assert CoreOf(c) == c;
    }
    hide Start, SupportOk, AreCandidates, CommitAll;
    CommitAllIsOk(fold, Start(log.facts, log.hidden, profiles, t.session), t.id, t.candidates, |t.candidates|);
  }

  /** After every history of commits, hidings and retries, each fact of the log is supported so. */
  lemma {:induction false} FactsAreSupported(fold: Fold, profiles: map<string, string>, x: Scope, steps: seq<Step>)
    requires IsHistory(fold, profiles, x, steps)
    ensures forall f | f in LogOf(fold, profiles, steps).facts :: SupportOk(f)
  {
    hide SupportOk, Entries, SaysTheSame, Apply;
    if steps != [] {
      var before, last := steps[..|steps| - 1], steps[|steps| - 1];
      FactsAreSupported(fold, profiles, x, before);
      var log := LogOf(fold, profiles, before);
      match last
      case Plain(CommitTurn(t)) => CommitIsSupported(fold, profiles, log, t);
      case Plain(RetractTurn(id)) => RetractKeepsRows(fold, profiles, log, id);
      case Retry(lower, upper, again) =>
        CommitIsSupported(fold, profiles, log, upper);
        RetractKeepsRows(fold, profiles, Apply(fold, profiles, log, CommitTurn(upper)), lower);
        CommitIsSupported(fold, profiles, Hidden(fold, profiles, log, lower, upper), again);
    }
  }
}
