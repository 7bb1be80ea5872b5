/**
 The fact log with its hidden turns: what the program lists as active, and the dictionaries it
 builds from the list before a commit.
 */
module FactLog {
  import opened Lists
  import opened Wrappers
  import opened ConversationFacts
  import opened FactRefinement

  datatype Event = CommitTurn(turn: Turn) | RetractTurn(id: string)

  datatype Log = Log(facts: seq<Fact>, hidden: set<string>)

  function Apply(fold: Fold, profiles: map<string, string>, log: Log, event: Event): Log {
    match event
    case CommitTurn(t) =>
      log.(facts := CommitAll(fold, Start(log.facts, log.hidden, profiles, t.session), t.id, t.candidates).facts)
    case RetractTurn(id) => log.(hidden := log.hidden + {id})
  }

  /** The turn's facts are new, and its id was used by no earlier turn. */
  ghost predicate IsNewTurn(log: Log, live: seq<Turn>, t: Turn) {
    && AreCandidates(log.facts, t.id, t.session, t.candidates)
    && t.id !in log.hidden && t.id !in TurnIds(live) && forall f | f in CoreSet(log.facts) :: f.sourceTurn != t.id
  }

  // ----- visible turns -----

  ghost predicate DistinctTurns(live: seq<Turn>) {
    forall i, j | 0 <= i < j < |live| :: live[i].id != live[j].id
  }

  /** A fact of the scope is visible exactly when its turn is unretracted. */
  ghost predicate VisibleAreLive(x: Scope, log: Log, live: seq<Turn>) {
    forall f | f in CoreSet(log.facts) && x.Contains(f) ::
      f.sourceTurn !in log.hidden <==> f.sourceTurn in TurnIds(live)
  }

  // ----- starting a commit -----

  lemma ListedActive(x: Scope, log: Log, live: seq<Turn>, f: Fact)
    requires LogOk(CoreSet(log.facts)) && Separated(x, CoreSet(log.facts)) && VisibleAreLive(x, log, live)
    requires f in log.facts && x.Contains(f)
    ensures f in Active(Visible(log.facts, log.hidden, x.Sessions())) <==>
            IsActive(InScope(x, CoreSet(log.facts), TurnIds(live)), CoreOf(f))
  {
    hide LogOk, TurnIds;
    var listed := Visible(log.facts, log.hidden, x.Sessions());
    var cores := CoreSet(log.facts);
    var visible := InScope(x, cores, TurnIds(live));
    assert CoreOf(f) in cores && x.Contains(CoreOf(f));
    if f in Active(listed) {
      forall g | g in visible ensures g.supersedes != Some(f.id) {
        var h :| h in log.facts && CoreOf(h) == g;
        assert h in listed;
      }
    }
    if IsActive(visible, CoreOf(f)) {
      forall h | h in listed ensures h.supersedes != Some(f.id) {
        assert CoreOf(h) in cores && CoreOf(h).supersedes == h.supersedes;
        assert h.supersedes == Some(f.id) ==> x.Contains(CoreOf(h));
        assert CoreOf(h) in visible ==> CoreOf(h).supersedes != Some(f.id);
      }
    }
  }

  lemma StartIsMid(x: Scope, profiles: map<string, string>, log: Log, session: string)
    requires LogOk(CoreSet(log.facts)) && Separated(x, CoreSet(log.facts)) && IsScope(x, profiles)
    ensures Mid(x, session, Start(log.facts, log.hidden, profiles, session))
  {
    var mine := Active(Visible(log.facts, log.hidden, {session}));
    var all := Select(Active(Visible(log.facts, log.hidden, SessionsOf(profiles, session))), (f: Fact) => f.profile);
    ActiveIsFromVisible(log, {session});
    ActiveIsFromVisible(log, SessionsOf(profiles, session));
    assert forall f | f in all :: f.profile && f in log.facts && f.sessionId in SessionsOf(profiles, session);
    ScopeOfProfile(x, profiles, session);
    hide IndexByKey, Active, Visible, Select, IsUserKey, SessionsOf, LogOk, Separated, IndexKnown, Sided;
    ListIndexes(x, session, log.facts, mine, false);
    ListIndexes(x, session, log.facts, all, true);
  }

  /** All sessions of one profile are on the same side of the scope's border. */
  lemma ScopeOfProfile(x: Scope, profiles: map<string, string>, session: string)
    requires IsScope(x, profiles)
    ensures x.OneProfile? ==>
              forall s | s in SessionsOf(profiles, session) :: s in x.sessions <==> session in x.sessions
  {
    assert session in SessionsOf(profiles, session);
  }

  /** An index made of facts of one side of the scope's border. */
  lemma ListIndexes(x: Scope, session: string, facts: seq<Fact>, listed: seq<Fact>, profile: bool)
    requires LogOk(CoreSet(facts))
    requires forall f | f in listed ::
               f in facts && (f.profile == profile ==> (x.Contains(f) <==> x.Takes(session, profile)))
    ensures IndexKnown(CoreSet(facts), IndexByKey(listed)) && Sided(x, session, IndexByKey(listed), profile)
  {
    IndexIsFromList(listed);
    hide IndexByKey, IsUserKey, LinksKnown, UniqueIds;
    assert forall f | f in facts :: CoreOf(f) in CoreSet(facts) && WellKeyed(CoreOf(f));
  }

  lemma ActiveIsFromVisible(log: Log, sessions: set<string>)
    ensures forall f | f in Active(Visible(log.facts, log.hidden, sessions)) ::
              f in log.facts && f.sessionId in sessions && f.sourceTurn !in log.hidden
  {
  }

  /** The facts the scope's dictionary is built from. */
  function Indexed(x: Scope, log: Log): seq<Fact> {
    var active := Active(Visible(log.facts, log.hidden, x.Sessions()));
    if x.OneProfile? then Select(active, (f: Fact) => f.profile) else active
  }

  lemma StartIndex(x: Scope, profiles: map<string, string>, log: Log, session: string)
    requires IsScope(x, profiles) && session in x.Sessions()
    ensures ScopeIndex(x, Start(log.facts, log.hidden, profiles, session)) == IndexByKey(Indexed(x, log))
  {
    hide IndexByKey, Active, Visible, Select;
  }

  lemma IndexedIsListed(x: Scope, log: Log, live: seq<Turn>)
    requires LogOk(CoreSet(log.facts)) && Separated(x, CoreSet(log.facts)) && VisibleAreLive(x, log, live)
    ensures forall f | f in Indexed(x, log) ::
              f in log.facts && WellKeyed(f) && f.sessionId in x.Sessions() && (x.OneProfile? ==> f.profile)
    ensures forall f | f in log.facts && x.Contains(f) ::
              f in Indexed(x, log) <==> IsActive(InScope(x, CoreSet(log.facts), TurnIds(live)), CoreOf(f))
  {
    ActiveIsFromVisible(log, x.Sessions());
    assert forall f | f in log.facts :: CoreOf(f) in CoreSet(log.facts) && WellKeyed(CoreOf(f));
    hide Active, Visible, LogOk, Separated, VisibleAreLive, IsUserKey, InScope, TurnIds, IsActive, CoreSet;
    forall f | f in log.facts && x.Contains(f)
      ensures f in Indexed(x, log) <==> IsActive(InScope(x, CoreSet(log.facts), TurnIds(live)), CoreOf(f))
    {
      ListedActive(x, log, live, f);
    }
  }

  lemma TurnIdsOfPrefix(live: seq<Turn>, k: nat)
    requires k <= |live|
    ensures TurnIds(live[..k]) <= TurnIds(live)
    ensures k < |live| ==> TurnIds(live) == TurnIds(live[..|live| - 1]) + {live[|live| - 1].id}
  {
    if k < |live| {
      assert live == live[..|live| - 1] + [live[|live| - 1]];
    }
  }

  // ----- one row for each id -----

  ghost predicate OneRowPerId(facts: seq<Fact>) {
    forall i, j | 0 <= i < j < |facts| :: facts[i].id != facts[j].id
  }

  lemma ReplacementKeepsIds(facts: seq<Fact>, fact: Fact)
    ensures var after := ReplaceById(facts, fact);
            |after| == |facts| && forall i | 0 <= i < |facts| :: after[i].id == facts[i].id
  {
  }

  /** One candidate keeps the ids of the rows, and adds at most a row of its own. */
  lemma CommitOneIds(fold: Fold, p: Progress, turn: string, c: Fact)
    ensures var facts := CommitOne(fold, p, turn, c).facts;
            && |p.facts| <= |facts| <= |p.facts| + 1
            && (forall i | 0 <= i < |p.facts| :: facts[i].id == p.facts[i].id)
            && (|facts| > |p.facts| ==> facts[|p.facts|].id == c.id)
  {
    var index := if c.profile then p.profileByKey else p.byKey;
    if c.key in index {
      ReplacementKeepsIds(p.facts, Confirmed(index[c.key], turn, c.createdAt));
    }
    hide ReplaceById;
  }

  lemma {:induction false} CommitAllKeepsRows(fold: Fold, p: Progress, turn: string, session: string,
                                              candidates: seq<Fact>, n: nat)
    requires OneRowPerId(p.facts) && AreCandidates(p.facts, turn, session, candidates) && n <= |candidates|
    ensures var facts := CommitAll(fold, p, turn, candidates[..n]).facts;
            && OneRowPerId(facts)
            && forall k | n <= k < |candidates| :: forall i | 0 <= i < |facts| :: facts[i].id != candidates[k].id
  {
    if n == 0 {
      assert forall i | 0 <= i < |p.facts| ::
               CoreOf(p.facts[i]) in CoreSet(p.facts) && CoreOf(p.facts[i]).id == p.facts[i].id;
    } else {
      assert candidates[..n][..n - 1] == candidates[..n - 1];
      CommitAllKeepsRows(fold, p, turn, session, candidates, n - 1);
      CommitOneIds(fold, CommitAll(fold, p, turn, candidates[..n - 1]), turn, candidates[n - 1]);
      hide CommitOne, CoreSet, IsCandidate;
    }
  }

  lemma NoRows()
    ensures OneRowPerId([])
  {
  }

  lemma SameCoreSameRow(facts: seq<Fact>, f: Fact, g: Fact)
    requires OneRowPerId(facts) && f in facts && g in facts && CoreOf(f) == CoreOf(g)
    ensures f == g
  {
    assert CoreOf(f).id == f.id && CoreOf(g).id == g.id;
  }

  // ----- the active facts of a scope -----

  /** The scope's facts that the program reads as active. */
  function ActiveFacts(x: Scope, log: Log): seq<Fact> {
    Select(Active(Visible(log.facts, log.hidden, x.Sessions())), (f: Fact) => x.Contains(f))
  }

  lemma ActiveExactly(x: Scope, log: Log, live: seq<Turn>)
    requires LogOk(CoreSet(log.facts)) && Separated(x, CoreSet(log.facts)) && VisibleAreLive(x, log, live)
    ensures forall f :: f in ActiveFacts(x, log) <==>
              f in log.facts && x.Contains(f) && IsActive(InScope(x, CoreSet(log.facts), TurnIds(live)), CoreOf(f))
  {
    ActiveIsFromVisible(log, x.Sessions());
    forall f | f in log.facts && x.Contains(f)
      ensures f in ActiveFacts(x, log) <==> IsActive(InScope(x, CoreSet(log.facts), TurnIds(live)), CoreOf(f))
    {
      ListedActive(x, log, live, f);
    }
    hide Active, Visible, LogOk, Separated, VisibleAreLive, TurnIds, IsActive;
  }

  lemma ActiveCores(x: Scope, log: Log, live: seq<Turn>, f: Fact)
    requires LogOk(CoreSet(log.facts)) && Separated(x, CoreSet(log.facts)) && VisibleAreLive(x, log, live)
    ensures f in CoreSet(ActiveFacts(x, log)) <==> IsActive(InScope(x, CoreSet(log.facts), TurnIds(live)), f)
  {
    ActiveExactly(x, log, live);
    hide ActiveFacts, LogOk, Separated, VisibleAreLive;
    if IsActive(InScope(x, CoreSet(log.facts), TurnIds(live)), f) {
      var g :| g in log.facts && CoreOf(g) == f;
      assert x.Contains(g);
    }
  }
}
