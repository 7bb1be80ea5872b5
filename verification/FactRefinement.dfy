/**
 The facts of a log without their confirmations, and what a candidate, a turn and a scope do to
 them. A scope is what one dictionary is about: the conversation facts of a session, or the
 profile facts of a profile's sessions.
 */
module FactRefinement {
  import opened Wrappers
  import opened ConversationFacts

  // ----- what confirmation never touches -----

  /** A fact without its confirmations: id, key, value, confidence, source and supersession. */
  function CoreOf(f: Fact): Fact {
    f.(supporting := [], lastConfirmed := None)
  }

  function CoreSet(facts: seq<Fact>): set<Fact> {
    set f | f in facts :: CoreOf(f)
  }

  ghost predicate UniqueIds(cores: set<Fact>) {
    forall f, g | f in cores && g in cores && f.id == g.id :: f == g
  }

  /** Profile facts and conversation facts never share a key. */
  predicate IsUserKey(key: Key) {
    "user." <= key.subject
  }

  predicate WellKeyed(f: Fact) {
    f.profile <==> IsUserKey(f.key)
  }

  // ----- scopes -----

  datatype Scope = OneSession(session: string) | OneProfile(sessions: set<string>)
  {
    function Sessions(): set<string> {
      match this
      case OneSession(s) => {s}
      case OneProfile(ss) => ss
    }

    predicate Takes(session: string, profile: bool) {
      session in Sessions() && profile == OneProfile?
    }

    predicate Contains(f: Fact) {
      Takes(f.sessionId, f.profile)
    }
  }

  /** The scope is one the program uses: a session, or all sessions of a profile. */
  ghost predicate IsScope(x: Scope, profiles: map<string, string>) {
    x.OneProfile? ==> forall s :: if s in x.sessions then SessionsOf(profiles, s) == x.sessions
                                  else SessionsOf(profiles, s) !! x.sessions
  }

  function InScope(x: Scope, cores: set<Fact>, turns: set<string>): set<Fact> {
    set f | f in cores && x.Contains(f) && f.sourceTurn in turns
  }

  // ----- active facts of a set -----

  ghost predicate IsActive(cores: set<Fact>, f: Fact) {
    f in cores && forall g | g in cores :: g.supersedes != Some(f.id)
  }

  /** At most the stated value is active for the key, and nothing if none was stated. */
  ghost predicate Holds(fold: Fold, cores: set<Fact>, key: Key, value: Option<string>) {
    if value.None? then forall f | f in cores :: f.key != key
    else exists a :: IsActive(cores, a) && a.key == key && fold(a.value) == fold(value.value)
                     && forall b | IsActive(cores, b) && b.key == key :: b == a
  }

  // ----- the last-writer-wins specification -----

  datatype Turn = Turn(id: string, session: string, candidates: seq<Fact>)

  function LatestOf(x: Scope, candidates: seq<Fact>, key: Key): Option<string> {
    if candidates == [] then None
    else
      var last := candidates[|candidates| - 1];
      if x.Contains(last) && last.key == key then Some(last.value) else LatestOf(x, candidates[..|candidates| - 1], key)
  }

  /** The value the latest unretracted statement of the key gave. */
  function Latest(x: Scope, history: seq<Turn>, key: Key): Option<string> {
    if history == [] then None
    else
      var own := LatestOf(x, history[|history| - 1].candidates, key);
      if own.Some? then own else Latest(x, history[..|history| - 1], key)
  }

  function TurnIds(history: seq<Turn>): set<string> {
    set t | t in history :: t.id
  }

  // ----- adding one fact to a set -----

  ghost predicate LinksKnown(cores: set<Fact>) {
    forall g | g in cores && g.supersedes.Some? :: exists f | f in cores :: f.id == g.supersedes.value
  }

  /** The fact supersedes the one active fact of its key. */
  ghost predicate SupersedesTheActive(cores: set<Fact>, f: Fact) {
    exists a :: IsActive(cores, a) && a.key == f.key && f.supersedes == Some(a.id)
                && forall b | IsActive(cores, b) && b.key == f.key :: b == a
  }

  lemma AddedFactHolds(fold: Fold, cores: set<Fact>, f: Fact, key: Key, value: Option<string>)
    requires UniqueIds(cores) && LinksKnown(cores) && (forall g | g in cores :: g.id != f.id)
    requires if f.supersedes.None? then Holds(fold, cores, f.key, None) else SupersedesTheActive(cores, f)
    requires key != f.key ==> Holds(fold, cores, key, value)
    ensures key == f.key ==> Holds(fold, cores + {f}, key, Some(f.value))
    ensures key != f.key ==> Holds(fold, cores + {f}, key, value)
  {
    var more := cores + {f};
    assert IsActive(more, f);
    forall b | b in cores && b.key != f.key ensures IsActive(more, b) <==> IsActive(cores, b) {
    }
    forall b | IsActive(more, b) && b.key == f.key ensures b == f {
      if b in cores {
        assert IsActive(cores, b);
      }
    }
    if key != f.key && value.Some? {
      var a :| IsActive(cores, a) && a.key == key && fold(a.value) == fold(value.value)
               && forall b | IsActive(cores, b) && b.key == key :: b == a;
      assert IsActive(more, a);
    }
  }

  // ----- one candidate -----

  /** Every indexed fact is in the log, under its key. */
  ghost predicate IndexKnown(cores: set<Fact>, index: map<Key, Fact>) {
    forall k | k in index :: index[k].key == k && CoreOf(index[k]) in cores
  }

  ghost predicate LogOk(cores: set<Fact>) {
    UniqueIds(cores) && LinksKnown(cores) && forall f | f in cores :: WellKeyed(f)
  }

  function Saved(index: map<Key, Fact>, fact: Fact): Fact {
    fact.(supersedes := if fact.key in index then Some(index[fact.key].id) else fact.supersedes)
  }

  predicate Repeats(fold: Fold, index: map<Key, Fact>, fact: Fact) {
    fact.key in index && fold(index[fact.key].value) == fold(fact.value)
  }

  lemma ConfirmationKeepsCores(facts: seq<Fact>, prior: Fact, confirmed: Fact)
    requires UniqueIds(CoreSet(facts)) && CoreOf(prior) in CoreSet(facts) && CoreOf(confirmed) == CoreOf(prior)
    ensures CoreSet(ReplaceById(facts, confirmed)) == CoreSet(facts)
  {
    var facts' := ReplaceById(facts, confirmed);
    forall i | 0 <= i < |facts| ensures CoreOf(facts'[i]) == CoreOf(facts[i]) {
      assert facts[i] in facts && CoreOf(facts[i]) in CoreSet(facts);
    }
    hide CoreOf, UniqueIds;
    SameCoresSameSet(facts, facts');
  }

  lemma SameCoresSameSet(facts: seq<Fact>, facts': seq<Fact>)
    requires |facts'| == |facts| && forall i | 0 <= i < |facts| :: CoreOf(facts'[i]) == CoreOf(facts[i])
    ensures CoreSet(facts') == CoreSet(facts)
  {
    hide CoreOf;
    forall c | c in CoreSet(facts) ensures c in CoreSet(facts') {
      var i :| 0 <= i < |facts| && CoreOf(facts[i]) == c;
      assert facts'[i] in facts';
    }
    forall c | c in CoreSet(facts') ensures c in CoreSet(facts) {
      var i :| 0 <= i < |facts'| && CoreOf(facts'[i]) == c;
      assert facts[i] in facts;
    }
  }

  lemma AppendedCores(facts: seq<Fact>, f: Fact)
    ensures CoreSet(facts + [f]) == CoreSet(facts) + {CoreOf(f)}
  {
    hide CoreOf;
    assert forall g :: g in facts + [f] <==> g in facts || g == f;
  }

  lemma ConfirmedCore(prior: Fact, turn: string, at: int)
    ensures CoreOf(Confirmed(prior, turn, at)) == CoreOf(prior)
  {
  }

  /** Repetition leaves every core as it was; a new value adds exactly one. */
  lemma ConsolidatedCores(fold: Fold, facts: seq<Fact>, index: map<Key, Fact>, turn: string, fact: Fact)
    requires UniqueIds(CoreSet(facts)) && IndexKnown(CoreSet(facts), index)
    ensures var (facts', index') := Consolidated(fold, facts, index, turn, fact);
            if Repeats(fold, index, fact) then
              && CoreSet(facts') == CoreSet(facts)
              && index'.Keys == index.Keys && (forall k | k in index :: CoreOf(index'[k]) == CoreOf(index[k]))
            else
              CoreSet(facts') == CoreSet(facts) + {CoreOf(Saved(index, fact))}
                && index' == index[fact.key := Saved(index, fact)]
  {
    if Repeats(fold, index, fact) {
      var prior := index[fact.key];
      var confirmed := Confirmed(prior, turn, fact.createdAt);
      assert CoreOf(confirmed) == CoreOf(prior) by { ConfirmedCore(prior, turn, fact.createdAt); }
      hide CoreOf, Confirmed, UniqueIds, ReplaceById, CoreSet;
      ConfirmationKeepsCores(facts, prior, confirmed);
    } else {
      hide CoreOf, UniqueIds;
      AppendedCores(facts, Saved(index, fact));
    }
  }

  // ----- a whole turn -----

  /** No supersession crosses the scope's border. */
  ghost predicate Separated(x: Scope, cores: set<Fact>) {
    forall f, g | f in cores && g in cores && g.supersedes == Some(f.id) :: x.Contains(f) <==> x.Contains(g)
  }

  /** Indexed facts of this kind lie in the scope exactly when the turn's own facts of this kind do. */
  ghost predicate Sided(x: Scope, session: string, index: map<Key, Fact>, profile: bool) {
    forall k | k in index && IsUserKey(k) == profile :: x.Contains(index[k]) <==> x.Takes(session, profile)
  }

  ghost predicate Mid(x: Scope, session: string, p: Progress) {
    && LogOk(CoreSet(p.facts)) && Separated(x, CoreSet(p.facts))
    && IndexKnown(CoreSet(p.facts), p.byKey) && IndexKnown(CoreSet(p.facts), p.profileByKey)
    && Sided(x, session, p.byKey, false) && Sided(x, session, p.profileByKey, true)
  }

  ghost predicate IsCandidate(c: Fact, turn: string, session: string) {
    && c.sessionId == session && c.sourceTurn == turn && c.supersedes == None && CoreOf(c) == c && WellKeyed(c)
  }

  lemma SavedKeepsLog(cores: set<Fact>, index: map<Key, Fact>, fact: Fact)
    requires LogOk(cores) && IndexKnown(cores, index) && WellKeyed(fact) && fact.supersedes == None
    requires forall g | g in cores :: g.id != fact.id
    ensures LogOk(cores + {CoreOf(Saved(index, fact))})
    ensures IndexKnown(cores + {CoreOf(Saved(index, fact))}, index[fact.key := Saved(index, fact)])
  {
    hide IsUserKey;
    var saved := CoreOf(Saved(index, fact));
    if fact.key in index {
      assert CoreOf(index[fact.key]) in cores && CoreOf(index[fact.key]).id == saved.supersedes.value;
    }
  }

  lemma SavedKeepsSeparation(x: Scope, session: string, cores: set<Fact>, index: map<Key, Fact>, fact: Fact)
    requires LogOk(cores) && IndexKnown(cores, index) && Separated(x, cores) && Sided(x, session, index, fact.profile)
    requires WellKeyed(fact) && fact.supersedes == None && fact.sessionId == session
    requires forall g | g in cores :: g.id != fact.id
    ensures Separated(x, cores + {CoreOf(Saved(index, fact))})
    ensures Sided(x, session, index[fact.key := Saved(index, fact)], fact.profile)
  {
    hide IsUserKey;
    var saved := CoreOf(Saved(index, fact));
    assert forall g | g in cores && g.supersedes.Some? :: g.supersedes.value != saved.id;
    forall f, g | f in cores + {saved} && g in cores + {saved} && g.supersedes == Some(f.id)
      ensures x.Contains(f) <==> x.Contains(g)
    {
      if g == saved {
        assert fact.key in index && CoreOf(index[fact.key]) in cores;
        assert x.Contains(CoreOf(index[fact.key])) <==> x.Contains(index[fact.key]);
      }
    }
  }

  /** One candidate keeps the log in order, and adds at most one fact, of this turn. */
  lemma CommitOneKeepsMid(fold: Fold, x: Scope, turn: string, session: string, p: Progress, c: Fact)
    requires Mid(x, session, p) && IsCandidate(c, turn, session)
    requires forall g | g in CoreSet(p.facts) :: g.id != c.id
    ensures var q := CommitOne(fold, p, turn, c);
            var index := if c.profile then p.profileByKey else p.byKey;
            && Mid(x, session, q)
            && CoreSet(q.facts) ==
              (if Repeats(fold, index, c) then CoreSet(p.facts) else CoreSet(p.facts) + {CoreOf(Saved(index, c))})
  {
    hide LogOk, Separated, Sided, Consolidated, Saved, Repeats, WellKeyed;
    var index := if c.profile then p.profileByKey else p.byKey;
    assert UniqueIds(CoreSet(p.facts)) by { LogHasUniqueIds(CoreSet(p.facts)); }
    ConsolidatedCores(fold, p.facts, index, turn, c);
    SavedKeepsLog(CoreSet(p.facts), index, c);
    SavedKeepsSeparation(x, session, CoreSet(p.facts), index, c);
    if Repeats(fold, index, c) {
      SameIndexSameSide(x, session, index, Consolidated(fold, p.facts, index, turn, c).1, CoreSet(p.facts), c.profile);
    }
  }

  lemma LogHasUniqueIds(cores: set<Fact>)
    requires LogOk(cores)
    ensures UniqueIds(cores) && LinksKnown(cores)
  {
  }

  lemma SameIndexSameSide(x: Scope, session: string, a: map<Key, Fact>, b: map<Key, Fact>, cores: set<Fact>,
                          profile: bool)
    requires a.Keys == b.Keys && (forall k | k in a :: CoreOf(a[k]) == CoreOf(b[k]))
    requires IndexKnown(cores, a) && Sided(x, session, a, profile)
    ensures IndexKnown(cores, b) && Sided(x, session, b, profile)
  {
    forall k | k in b ensures b[k].key == a[k].key && (x.Contains(b[k]) <==> x.Contains(a[k])) {
      assert CoreOf(a[k]) == CoreOf(b[k]);
    }
    hide CoreOf, IsUserKey;
  }

  // ----- the candidates of a turn, one by one -----

  ghost predicate AreCandidates(facts: seq<Fact>, turn: string, session: string, candidates: seq<Fact>) {
    && (forall i | 0 <= i < |candidates| :: IsCandidate(candidates[i], turn, session))
    && (forall i, j | 0 <= i < j < |candidates| :: candidates[i].id != candidates[j].id)
    && (forall i, g | 0 <= i < |candidates| && g in CoreSet(facts) :: g.id != candidates[i].id)
  }

  /** The log stays in order, older turns' facts stay as they were, and new facts are of this turn. */
  lemma {:induction false} CommitAllKeepsMid(fold: Fold, x: Scope, turn: string, session: string, p: Progress,
                                             candidates: seq<Fact>, n: nat)
    requires Mid(x, session, p) && AreCandidates(p.facts, turn, session, candidates) && n <= |candidates|
    ensures var q := CommitAll(fold, p, turn, candidates[..n]);
            && Mid(x, session, q)
            && CoreSet(p.facts) <= CoreSet(q.facts)
            && (forall g | g in CoreSet(q.facts) - CoreSet(p.facts) ::
                  g.sourceTurn == turn && g.sessionId == session && exists i | 0 <= i < n :: g.id == candidates[i].id)
  {
    hide Mid, CommitOne, CoreSet;
    if n > 0 {
      assert candidates[..n][..n - 1] == candidates[..n - 1];
      CommitAllKeepsMid(fold, x, turn, session, p, candidates, n - 1);
      var q := CommitAll(fold, p, turn, candidates[..n - 1]);
      var c := candidates[n - 1];
      assert forall g | g in CoreSet(q.facts) :: g in CoreSet(p.facts) || g in CoreSet(q.facts) - CoreSet(p.facts);
      CommitOneKeepsMid(fold, x, turn, session, q, c);
    }
  }

  function ScopeIndex(x: Scope, p: Progress): map<Key, Fact> {
    if x.OneProfile? then p.profileByKey else p.byKey
  }

  lemma UniqueInside(cores: set<Fact>, inner: set<Fact>)
    requires UniqueIds(cores) && inner <= cores
    ensures UniqueIds(inner)
  {
  }

  lemma MidFacts(x: Scope, session: string, p: Progress)
    requires Mid(x, session, p)
    ensures UniqueIds(CoreSet(p.facts)) && IndexKnown(CoreSet(p.facts), p.byKey)
    ensures IndexKnown(CoreSet(p.facts), p.profileByKey)
  {
  }
}
