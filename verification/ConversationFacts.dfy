/**
 The log of conversational facts: superseding instead of overwriting, repetition adding only
 provenance, and retraction by hiding a turn.

 `casefold` is a parameter: only equality of folded values is ever used.
 */
module ConversationFacts {
  import opened Lists
  import opened Wrappers

  datatype Key = Key(subject: string, predicate_: string, meaning: string)

  datatype Fact = Fact(
    id: string,
    sessionId: string,
    key: Key,
    value: string,
    profile: bool,
    confidence: real,
    sourceTurn: string,
    createdAt: int,
    supporting: seq<string>,
    lastConfirmed: Option<int>,
    supersedes: Option<string>)

  type Fold = string -> string

  // ----- reading the log -----

  /** Facts of these sessions whose source turn has not been retracted. */
  function Visible(facts: seq<Fact>, hidden: set<string>, sessions: set<string>): seq<Fact> {
    Select(facts, (f: Fact) => f.sessionId in sessions && f.sourceTurn !in hidden)
  }

  function SupersededIds(facts: seq<Fact>): set<string> {
    set f | f in facts && f.supersedes.Some? :: f.supersedes.value
  }

  /** The facts that no visible fact supersedes. */
  function Active(facts: seq<Fact>): seq<Fact> {
    var superseded := SupersededIds(facts);
    Select(facts, (f: Fact) => f.id !in superseded)
  }

  /** Later facts win, as in a dictionary built from a list. */
  function IndexByKey(facts: seq<Fact>): map<Key, Fact> {
    if facts == [] then map[] else IndexByKey(facts[..|facts| - 1])[facts[|facts| - 1].key := facts[|facts| - 1]]
  }

  /** The sessions of the session's profile; an unregistered session stands alone. */
  function SessionsOf(profiles: map<string, string>, session: string): set<string> {
    if session in profiles then set s | s in profiles && profiles[s] == profiles[session] else {session}
  }

  // ----- committing -----

  function ReplaceById(facts: seq<Fact>, fact: Fact): seq<Fact> {
    seq(|facts|, i requires 0 <= i < |facts| => if facts[i].id == fact.id then fact else facts[i])
  }

  function Confirmed(prior: Fact, turn: string, at: int): Fact {
    prior.(supporting := LastEight(prior.supporting + [turn]), lastConfirmed := Some(at))
  }

  /** The log and the two dictionaries while a turn's candidates are processed. */
  datatype Progress = Progress(facts: seq<Fact>, byKey: map<Key, Fact>, profileByKey: map<Key, Fact>)

  /** One candidate against the index it belongs to: the new log and the new index. */
  function Consolidated(fold: Fold, facts: seq<Fact>, index: map<Key, Fact>, turn: string,
                        fact: Fact): (seq<Fact>, map<Key, Fact>) {
    if fact.key in index && fold(index[fact.key].value) == fold(fact.value) then
      var prior := index[fact.key];
      if turn != prior.sourceTurn && turn !in prior.supporting then
        var confirmed := Confirmed(prior, turn, fact.createdAt);
        (ReplaceById(facts, confirmed), index[fact.key := confirmed])
      else (facts, index)
    else
      var saved := fact.(supersedes := if fact.key in index then Some(index[fact.key].id) else fact.supersedes);
      (facts + [saved], index[fact.key := saved])
  }

  function CommitOne(fold: Fold, p: Progress, turn: string, fact: Fact): Progress {
    if fact.profile then
      var (facts, index) := Consolidated(fold, p.facts, p.profileByKey, turn, fact);
      Progress(facts, p.byKey, index)
    else
      var (facts, index) := Consolidated(fold, p.facts, p.byKey, turn, fact);
      Progress(facts, index, p.profileByKey)
  }

  function CommitAll(fold: Fold, p: Progress, turn: string, candidates: seq<Fact>): Progress {
    if candidates == [] then p
    else CommitOne(fold, CommitAll(fold, p, turn, candidates[..|candidates| - 1]), turn, candidates[|candidates| - 1])
  }

  function Start(facts: seq<Fact>, hidden: set<string>, profiles: map<string, string>, session: string): Progress {
    Progress(facts,
             IndexByKey(Active(Visible(facts, hidden, {session}))),
             IndexByKey(Select(Active(Visible(facts, hidden, SessionsOf(profiles, session))), (f: Fact) => f.profile)))
  }

  class FactStore {
    const fold: Fold
    const profiles: map<string, string>
    var facts: seq<Fact>
    var hidden: set<string>

    constructor (fold: Fold, profiles: map<string, string>)
      ensures this.fold == fold && this.profiles == profiles && facts == [] && hidden == {}
    {
      this.fold, this.profiles := fold, profiles;
      facts, hidden := [], {};
    }

    /** Inserts the fact, or replaces the row that has its id. */
    method SaveFact(fact: Fact)
      modifies `facts
      ensures facts == if fact.id in Ids(old(facts)) then ReplaceById(old(facts), fact) else old(facts) + [fact]
    {
      var found := false;
      for i := 0 to |facts|
        invariant |facts| == |old(facts)|
        invariant found <==> exists j | 0 <= j < i :: old(facts)[j].id == fact.id
        invariant forall j | 0 <= j < |facts| ::
                    facts[j] == if j < i && old(facts)[j].id == fact.id then fact else old(facts)[j]
      {
        if facts[i].id == fact.id {
          facts, found := facts[i := fact], true;
        }
      }
      if !found {
        facts := facts + [fact];
      }
    }

    /** Compares one candidate with the indexed fact of its key, and confirms or supersedes it. */
    method CommitCandidate(turn: string, fact: Fact, index: map<Key, Fact>) returns (after: map<Key, Fact>)
      requires Stored(facts, index) && fact.id !in Ids(facts)
      modifies `facts
      ensures (facts, after) == Consolidated(fold, old(facts), index, turn, fact)
    {
      after := index;
      if fact.key in index && fold(index[fact.key].value) == fold(fact.value) {
        var prior := index[fact.key];
        if turn != prior.sourceTurn && turn !in prior.supporting {
          prior := Confirmed(prior, turn, fact.createdAt);
          SaveFact(prior);
          after := index[fact.key := prior];
        }
      } else {
        var saved := fact;
        if fact.key in index {
          saved := saved.(supersedes := Some(index[fact.key].id));
        }
        SaveFact(saved);
        after := index[fact.key := saved];
      }
    }

    method Commit(turn: string, session: string, candidates: seq<Fact>)
      requires forall i, j | 0 <= i < j < |candidates| :: candidates[i].id != candidates[j].id
      requires forall i | 0 <= i < |candidates| :: candidates[i].id !in Ids(facts)
      modifies `facts
      ensures facts == CommitAll(fold, Start(old(facts), hidden, profiles, session), turn, candidates).facts
    {
      hide IndexByKey, Active, Visible, Consolidated, Stored, Ids;
      var byKey := IndexByKey(Active(Visible(facts, hidden, {session})));
      var profileByKey :=
        IndexByKey(Select(Active(Visible(facts, hidden, SessionsOf(profiles, session))), (f: Fact) => f.profile));
      ghost var start := Start(facts, hidden, profiles, session);
      StartIsStored(facts, hidden, profiles, session);
      for n := 0 to |candidates|
        invariant Progress(facts, byKey, profileByKey) == CommitAll(fold, start, turn, candidates[..n])
        invariant Stored(facts, byKey) && Stored(facts, profileByKey)
        invariant forall i | n <= i < |candidates| :: candidates[i].id !in Ids(facts)
      {
        assert candidates[..n + 1][..n] == candidates[..n];
        var fact := candidates[n];
        ConsolidatedIsStored(fold, facts, byKey, byKey, turn, fact);
        ConsolidatedIsStored(fold, facts, byKey, profileByKey, turn, fact);
        ConsolidatedIsStored(fold, facts, profileByKey, byKey, turn, fact);
        ConsolidatedIsStored(fold, facts, profileByKey, profileByKey, turn, fact);
        if fact.profile {
          profileByKey := CommitCandidate(turn, fact, profileByKey);
        } else {
          byKey := CommitCandidate(turn, fact, byKey);
        }
      }
      assert candidates[..|candidates|] == candidates;
    }

    /** The turn was replaced by another: its facts are no longer read. */
    method Retract(turn: string)
      modifies `hidden
      ensures hidden == old(hidden) + {turn}
    {
      hidden := hidden + {turn};
    }
  }

  function Ids(facts: seq<Fact>): set<string> {
    set f | f in facts :: f.id
  }

  /** Every indexed fact's id is in the log. */
  ghost predicate Stored(facts: seq<Fact>, index: map<Key, Fact>) {
    forall k | k in index :: index[k].id in Ids(facts)
  }

  lemma {:induction false} IndexIsFromList(facts: seq<Fact>)
    ensures forall k | k in IndexByKey(facts) :: IndexByKey(facts)[k] in facts && IndexByKey(facts)[k].key == k
    ensures forall f | f in facts :: f.key in IndexByKey(facts)
  {
    if facts != [] {
      var before, last := facts[..|facts| - 1], facts[|facts| - 1];
      assert facts == before + [last];
      IndexIsFromList(before);
    }
  }

  lemma StartIsStored(facts: seq<Fact>, hidden: set<string>, profiles: map<string, string>, session: string)
    ensures Stored(facts, Start(facts, hidden, profiles, session).byKey)
    ensures Stored(facts, Start(facts, hidden, profiles, session).profileByKey)
  {
    IndexIsFromList(Active(Visible(facts, hidden, {session})));
    IndexIsFromList(Select(Active(Visible(facts, hidden, SessionsOf(profiles, session))), (f: Fact) => f.profile));
    hide IndexByKey;
  }

  lemma ConsolidatedIds(fold: Fold, facts: seq<Fact>, index: map<Key, Fact>, turn: string, fact: Fact)
    ensures Ids(facts) <= Ids(Consolidated(fold, facts, index, turn, fact).0) <= Ids(facts) + {fact.id}
  {
    var after := Consolidated(fold, facts, index, turn, fact).0;
    forall id | id in Ids(facts) ensures id in Ids(after) {
      var i :| 0 <= i < |facts| && facts[i].id == id;
      assert after[i] in after && after[i].id == id;
    }
    forall id | id in Ids(after) ensures id in Ids(facts) + {fact.id} {
      var i :| 0 <= i < |after| && after[i].id == id;
      assert i < |facts| ==> facts[i] in facts && facts[i].id == id;
    }
  }

  lemma ConsolidatedIsStored(fold: Fold, facts: seq<Fact>, index: map<Key, Fact>, other: map<Key, Fact>, turn: string,
                             fact: Fact)
    requires Stored(facts, index) && Stored(facts, other)
    ensures var (facts', index') := Consolidated(fold, facts, index, turn, fact);
            Stored(facts', index') && Stored(facts', other) && Ids(facts') <= Ids(facts) + {fact.id}
  {
    ConsolidatedIds(fold, facts, index, turn, fact);
    var (facts', index') := Consolidated(fold, facts, index, turn, fact);
    assert |facts'| > |facts| ==> facts'[|facts|].id == fact.id && facts'[|facts|] in facts';
    hide Ids;
  }
}
