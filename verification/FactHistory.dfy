/**
 Any history of the fact log: commits of new turns, turns hidden in any order, and retried
 answers. The active facts of a key are determined by the visible turns alone: by which of them
 recorded the key, and onto which earlier turn.
 */
module FactHistory {
  import opened Wrappers
  import opened ConversationFacts
  import opened FactRefinement
  import opened FactLog
  import opened FactChanges
  import opened FactRetries
  import opened FactOrder
  import opened FactCommits

  /**
   A visible turn with the turns visible when it was committed. A retried answer was committed
   `Twice`: first with the answer it replaces still visible, then with the turns that were left.
   */
  datatype Entry =
    | Once(turn: Turn, seen: seq<Entry>)
    | Twice(turn: Turn, seen: seq<Entry>, left: seq<Entry>)

  function Turns(live: seq<Entry>): seq<Turn> {
    seq(|live|, i requires 0 <= i < |live| => live[i].turn)
  }

  // ----- what a history says -----

  /** The latest visible turn that recorded the key. */
  function LastRecorder(fold: Fold, x: Scope, live: seq<Entry>, key: Key): Option<Entry>
    decreases live, 0
  {
    if live == [] then None
    else
      var n := |live| - 1;
      if Records(fold, x, live[n], key) then Some(live[n]) else LastRecorder(fold, x, live[..n], key)
  }

  /** The value the program then holds for the key. */
  function Said(fold: Fold, x: Scope, live: seq<Entry>, key: Key): Option<string>
    decreases live, 1
  {
    var last := LastRecorder(fold, x, live, key);
    if last.Some? then LatestOf(x, last.value.turn.candidates, key) else None
  }

  /** The turn gave the key another value than the visible turns did. */
  predicate RecordsFirst(fold: Fold, x: Scope, e: Entry, key: Key)
    decreases e, 0
  {
    Alters(fold, x, Said(fold, x, e.seen, key), e.turn.candidates, key)
  }

  predicate Records(fold: Fold, x: Scope, e: Entry, key: Key)
    decreases e, 1
  {
    RecordsFirst(fold, x, e, key) || (e.Twice? && Alters(fold, x, Said(fold, x, e.left, key), e.turn.candidates, key))
  }

  function IdOf(e: Option<Entry>): Option<string> {
    if e.Some? then Some(e.value.turn.id) else None
  }

  /** The turn whose fact of the key this turn superseded. */
  function BaseOf(fold: Fold, x: Scope, e: Entry, key: Key): Option<string> {
    if RecordsFirst(fold, x, e, key) then IdOf(LastRecorder(fold, x, e.seen, key))
    else if Records(fold, x, e, key) then IdOf(LastRecorder(fold, x, e.left, key))
    else None
  }

  /** The turn recorded the key, and no visible turn superseded what it recorded. */
  ghost predicate Stands(fold: Fold, x: Scope, live: seq<Entry>, i: nat, key: Key)
    requires i < |live|
  {
    Records(fold, x, live[i], key)
      && forall j | 0 <= j < |live| :: BaseOf(fold, x, live[j], key) != Some(live[i].turn.id)
  }

  // ----- what the log keeps of it -----

  function Own(x: Scope, cores: set<Fact>, e: Entry): set<Fact> {
    InScope(x, cores, {e.turn.id})
  }

  ghost predicate HasCap(fold: Fold, own: set<Fact>, key: Key, value: string) {
    exists cap :: IsCap(own, key, cap) && fold(cap.value) == fold(value)
  }

  /** The turn has facts of the key exactly when it recorded it, and one that caps the others. */
  ghost predicate EntryOk(fold: Fold, x: Scope, cores: set<Fact>, e: Entry, key: Key) {
    var own, stated, base := Own(x, cores, e), LatestOf(x, e.turn.candidates, key), BaseOf(fold, x, e, key);
    && (Recorded(own, key) <==> Records(fold, x, e, key))
    && (Records(fold, x, e, key) ==> stated.Some? && HasCap(fold, own, key, stated.value))
    && (base.Some? ==> exists f :: f in cores && f.sourceTurn == base.value)
  }

  ghost predicate Supersedes(facts: set<Fact>, f: Fact) {
    exists g :: g in facts && g.supersedes == Some(f.id)
  }

  /** Of another turn's facts of the key, this one supersedes the cap of its base. */
  ghost predicate LinkOk(fold: Fold, x: Scope, cores: set<Fact>, e: Entry, other: Entry, key: Key) {
    forall f | f in Own(x, cores, other) && f.key == key ::
      Supersedes(Own(x, cores, e), f) <==>
      BaseOf(fold, x, e, key) == Some(other.turn.id) && IsCap(Own(x, cores, other), key, f)
  }

  ghost predicate Kept(fold: Fold, x: Scope, cores: set<Fact>, live: seq<Entry>, key: Key) {
    && (forall i | 0 <= i < |live| :: EntryOk(fold, x, cores, live[i], key))
    && (forall i, j | 0 <= i < |live| && 0 <= j < |live| && i != j :: LinkOk(fold, x, cores, live[i], live[j], key))
    && (forall i, j | 0 <= i < |live| && 0 <= j < |live| ::
          BaseOf(fold, x, live[i], key) == Some(live[j].turn.id) ==> j < i)
  }

  ghost predicate Remembers(fold: Fold, x: Scope, log: Log, live: seq<Entry>) {
    && Sound(x, log, Turns(live)) && DistinctTurns(Turns(live)) && InOrder(x, log.facts, Turns(live))
    && forall key :: Kept(fold, x, CoreSet(log.facts), live, key)
  }

  // ----- which facts are active -----

  lemma ShownIsOwned(x: Scope, log: Log, live: seq<Entry>, f: Fact)
    ensures f in Shown(x, log, Turns(live)) <==> exists i :: 0 <= i < |live| && f in Own(x, CoreSet(log.facts), live[i])
  {
    var turns := Turns(live);
    hide CoreSet;
    if f in Shown(x, log, turns) {
      var t :| t in turns && t.id == f.sourceTurn;
      var i :| 0 <= i < |turns| && turns[i] == t;
      assert f in Own(x, CoreSet(log.facts), live[i]);
    }
    if i :| 0 <= i < |live| && f in Own(x, CoreSet(log.facts), live[i]) {
      assert turns[i] in turns;
    }
  }

  /** A fact of a visible turn is active exactly when it is the turn's cap and the turn stands. */
  lemma ActiveStands(fold: Fold, x: Scope, log: Log, live: seq<Entry>, i: nat, f: Fact)
    requires i < |live| && Kept(fold, x, CoreSet(log.facts), live, f.key) && f in Own(x, CoreSet(log.facts), live[i])
    ensures IsActive(Shown(x, log, Turns(live)), f) <==>
            IsCap(Own(x, CoreSet(log.facts), live[i]), f.key, f) && Stands(fold, x, live, i, f.key)
  {
    var cores, shown, key := CoreSet(log.facts), Shown(x, log, Turns(live)), f.key;
    hide Own, Shown, CoreSet, BaseOf, Records;
    ShownIsOwned(x, log, live, f);
    assert EntryOk(fold, x, cores, live[i], key);
    if IsActive(shown, f) {
      StandsWhenActive(fold, x, log, live, i, f);
    }
    if IsCap(Own(x, cores, live[i]), key, f) && Stands(fold, x, live, i, key) {
      forall g | g in shown ensures g.supersedes != Some(f.id) {
        ShownIsOwned(x, log, live, g);
        var j :| 0 <= j < |live| && g in Own(x, cores, live[j]);
        assert j != i ==> LinkOk(fold, x, cores, live[j], live[i], key);
      }
    }
  }

  lemma StandsWhenActive(fold: Fold, x: Scope, log: Log, live: seq<Entry>, i: nat, f: Fact)
    requires i < |live| && Kept(fold, x, CoreSet(log.facts), live, f.key) && f in Own(x, CoreSet(log.facts), live[i])
    requires IsActive(Shown(x, log, Turns(live)), f)
    ensures IsCap(Own(x, CoreSet(log.facts), live[i]), f.key, f) && Stands(fold, x, live, i, f.key)
  {
    var cores, shown, key := CoreSet(log.facts), Shown(x, log, Turns(live)), f.key;
    hide Own, Shown, CoreSet, BaseOf, Records;
    assert EntryOk(fold, x, cores, live[i], key);
    var own := Own(x, cores, live[i]);
    assert Recorded(own, key);
    var cap :| IsCap(own, key, cap);
    forall g, j | 0 <= j < |live| && g in Own(x, cores, live[j]) ensures g.supersedes != Some(f.id) {
      ShownIsOwned(x, log, live, g);
    }
    assert f == cap;
    forall j | 0 <= j < |live| ensures BaseOf(fold, x, live[j], key) != Some(live[i].turn.id) {
      if j != i {
        assert LinkOk(fold, x, cores, live[j], live[i], key);
        assert !Supersedes(Own(x, cores, live[j]), f);
      }
    }
  }

  // ----- the top fact of a key -----

  lemma {:induction false} LastRecorderIs(fold: Fold, x: Scope, live: seq<Entry>, key: Key) returns (m: int)
    ensures -1 <= m < |live| && forall i | m < i < |live| :: !Records(fold, x, live[i], key)
    ensures LastRecorder(fold, x, live, key) == if m >= 0 then Some(live[m]) else None
    ensures m >= 0 ==> Records(fold, x, live[m], key)
  {
    hide Records;
    if live == [] {
      m := -1;
    } else if Records(fold, x, live[|live| - 1], key) {
      m := |live| - 1;
    } else {
      m := LastRecorderIs(fold, x, live[..|live| - 1], key);
    }
  }

  lemma BaseMeansRecords(fold: Fold, x: Scope, e: Entry, key: Key)
    ensures BaseOf(fold, x, e, key).Some? ==> Records(fold, x, e, key)
  {
  }

  /** What the last recorder's cap is among the facts shown; if no turn recorded the key there are none. */
  ghost predicate TopIs(fold: Fold, facts: set<Fact>, live: seq<Turn>, key: Key, top: Option<Fact>,
                        said: Option<string>) {
    if top.Some? then said.Some? && IsTop(facts, live, key, top.value) && fold(top.value.value) == fold(said.value)
    else said.None? && forall f | f in facts :: f.key != key
  }

  lemma LastIsTop(fold: Fold, x: Scope, log: Log, live: seq<Entry>, key: Key) returns (top: Option<Fact>)
    requires Kept(fold, x, CoreSet(log.facts), live, key) && DistinctTurns(Turns(live))
    ensures TopIs(fold, Shown(x, log, Turns(live)), Turns(live), key, top, Said(fold, x, live, key))
    ensures var last := LastRecorder(fold, x, live, key);
            (top.Some? <==> last.Some?)
            && (top.Some? ==> last.value in live && IsCap(Own(x, CoreSet(log.facts), last.value), key, top.value))
  {
    var cores, turns := CoreSet(log.facts), Turns(live);
    var m := LastRecorderIs(fold, x, live, key);
    if m < 0 {
      top := None;
      NoneRecorded(fold, x, log, live, key);
    } else {
      assert EntryOk(fold, x, cores, live[m], key);
      var cap :| IsCap(Own(x, cores, live[m]), key, cap)
                 && fold(cap.value) == fold(LatestOf(x, live[m].turn.candidates, key).value);
      top := Some(cap);
      CapIsTop(fold, x, log, live, m, key, cap);
    }
  }

  lemma NoneRecorded(fold: Fold, x: Scope, log: Log, live: seq<Entry>, key: Key)
    requires Kept(fold, x, CoreSet(log.facts), live, key)
    requires forall i | 0 <= i < |live| :: !Records(fold, x, live[i], key)
    ensures forall f | f in Shown(x, log, Turns(live)) :: f.key != key
  {
    hide Own, Shown, CoreSet, BaseOf, Records;
    forall f | f in Shown(x, log, Turns(live)) ensures f.key != key {
      ShownIsOwned(x, log, live, f);
      var i :| 0 <= i < |live| && f in Own(x, CoreSet(log.facts), live[i]);
      assert EntryOk(fold, x, CoreSet(log.facts), live[i], key);
    }
  }

  lemma CapIsTop(fold: Fold, x: Scope, log: Log, live: seq<Entry>, m: nat, key: Key, cap: Fact)
    requires Kept(fold, x, CoreSet(log.facts), live, key) && DistinctTurns(Turns(live))
    requires m < |live| && Records(fold, x, live[m], key)
    requires forall i | m < i < |live| :: !Records(fold, x, live[i], key)
    requires IsCap(Own(x, CoreSet(log.facts), live[m]), key, cap)
    ensures IsTop(Shown(x, log, Turns(live)), Turns(live), key, cap)
  {
    var cores, shown, turns := CoreSet(log.facts), Shown(x, log, Turns(live)), Turns(live);
    assert cap in Own(x, cores, live[m]) && cap.key == key;
    LastStands(fold, x, cores, live, m, key);
    ActiveStands(fold, x, log, live, m, cap);
    hide Kept, DistinctTurns, BaseOf, Records, IsCap, CoreSet;
    forall b | IsActive(shown, b) && b.key == key && b != cap ensures Earlier(turns, b.sourceTurn, cap.sourceTurn) {
      OthersAreEarlier(fold, x, log, live, m, key, cap, b);
    }
  }

  lemma LastStands(fold: Fold, x: Scope, cores: set<Fact>, live: seq<Entry>, m: nat, key: Key)
    requires Kept(fold, x, cores, live, key) && m < |live| && Records(fold, x, live[m], key)
    requires forall i | m < i < |live| :: !Records(fold, x, live[i], key)
    ensures Stands(fold, x, live, m, key)
  {
    hide BaseOf, Records, EntryOk, LinkOk;
    forall j | 0 <= j < |live| ensures BaseOf(fold, x, live[j], key) != Some(live[m].turn.id) {
      BaseMeansRecords(fold, x, live[j], key);
    }
  }

  lemma OthersAreEarlier(fold: Fold, x: Scope, log: Log, live: seq<Entry>, m: nat, key: Key, cap: Fact, b: Fact)
    requires Kept(fold, x, CoreSet(log.facts), live, key)
    requires m < |live| && (forall i | m < i < |live| :: !Records(fold, x, live[i], key))
    requires IsCap(Own(x, CoreSet(log.facts), live[m]), key, cap)
    requires IsActive(Shown(x, log, Turns(live)), b) && b.key == key && b != cap
    ensures Earlier(Turns(live), b.sourceTurn, cap.sourceTurn)
  {
    var cores, turns := CoreSet(log.facts), Turns(live);
    ShownIsOwned(x, log, live, b);
    assert b in Shown(x, log, turns);
    var i :| 0 <= i < |live| && b in Own(x, cores, live[i]);
    ActiveStands(fold, x, log, live, i, b);
    hide Kept, BaseOf, Records, CoreSet;
    if i == m {
      OneCap(Own(x, cores, live[m]), key, b, cap);
    }
    assert turns[i].id == b.sourceTurn && turns[m].id == cap.sourceTurn;
  }

  // ----- one commit -----

  /** What a commit gains for the key: facts over the top one, when the turn gives another value than was said. */
  ghost predicate LaysOver(fold: Fold, x: Scope, visible: set<Fact>, added: set<Fact>, t: Turn, key: Key,
                           top: Option<Fact>, said: Option<string>) {
    var stated := LatestOf(x, t.candidates, key);
    && Over(visible, added, key, if Recorded(added, key) then top else None)
    && (Recorded(added, key) <==> Alters(fold, x, said, t.candidates, key))
    && (Recorded(added, key) ==> stated.Some? && HasCap(fold, added, key, stated.value))
  }

  lemma TopIsShows(fold: Fold, facts: set<Fact>, live: seq<Turn>, key: Key, top: Option<Fact>, said: Option<string>)
    requires TopIs(fold, facts, live, key, top, said)
    ensures Shows(fold, facts, live, key, said)
  {
    hide IsTop;
  }

  lemma CommitLaysOver(fold: Fold, profiles: map<string, string>, x: Scope, log: Log, turns: seq<Turn>, t: Turn,
                       key: Key, top: Option<Fact>, said: Option<string>)
    requires ReadyToCommit(x, log, turns, t) && IsScope(x, profiles)
    requires TopIs(fold, Shown(x, log, turns), turns, key, top, said)
    ensures var log' := Apply(fold, profiles, log, CommitTurn(t));
            LaysOver(fold, x, Shown(x, log, turns), Gained(x, log, log', t.id), t, key, top, said)
  {
    AgainIsWellKeyed(log.facts, t);
    hide Sound, InOrder, DistinctTurns, IsScope, AreCandidates, Apply, Agrees, Over, Base, IndexByKey, Indexed, Gained,
         Shown, Tells, Alters, ValueIn, Shows, LatestOf, Recorded, WellKeyed, IsUserKey, Gains;
    var log', index := Apply(fold, profiles, log, CommitTurn(t)), IndexByKey(Indexed(x, log));
    var visible, added := Shown(x, log, turns), Gained(x, log, log', t.id);
    CommitLays(fold, profiles, x, log, turns, t, key);
    CommitGains(fold, profiles, x, log, turns, t);
    GainedAre(x, log, log', turns, t.id);
    IndexAgrees(x, log, turns, key);
    TopIsShows(fold, visible, turns, key, top, said);
    IndexedIsAltered(fold, x, index, visible, turns, t.candidates, key, said);
    AltersStates(fold, x, said, t.candidates, key);
    BaseIsTop(x, index, visible, added, turns, key);
    assert Base(index, added, key) == if Recorded(added, key) then top else None;
    if Recorded(added, key) {
      OverHasCap(visible, added, key, top);
      CapTells(fold, index, added, key, LatestOf(x, t.candidates, key));
    }
  }

  lemma CapTells(fold: Fold, index: map<Key, Fact>, added: set<Fact>, key: Key, latest: Option<string>)
    requires Tells(fold, index, added, key, latest) && Recorded(added, key) && latest.Some?
    requires exists cap :: IsCap(added, key, cap)
    ensures HasCap(fold, added, key, latest.value)
  {
    hide IsCap;
  }

  // ----- a new turn -----

  /** The later facts are the earlier ones and new ones of one turn, of which there was none. */
  ghost predicate GrowsBy(cores: set<Fact>, cores': set<Fact>, turn: string) {
    && cores <= cores' && (forall g | g in cores' - cores :: g.sourceTurn == turn)
    && forall f | f in cores :: f.sourceTurn != turn
  }

  lemma OwnStays(x: Scope, cores: set<Fact>, cores': set<Fact>, e: Entry, turn: string)
    requires cores <= cores' && (forall g | g in cores' - cores && x.Contains(g) :: g.sourceTurn == turn)
    requires e.turn.id != turn
    ensures Own(x, cores', e) == Own(x, cores, e)
  {
    assert forall g | g in cores' :: g in cores || g in cores' - cores;
  }

  /** Facts outside the scope, or of a turn that is not visible, change nothing. */
  lemma KeptStays(fold: Fold, x: Scope, cores: set<Fact>, cores': set<Fact>, live: seq<Entry>, key: Key, turn: string)
    requires Kept(fold, x, cores, live, key)
    requires cores <= cores' && (forall g | g in cores' - cores && x.Contains(g) :: g.sourceTurn == turn)
    requires turn !in TurnIds(Turns(live))
    ensures Kept(fold, x, cores', live, key)
  {
    forall i | 0 <= i < |live| ensures Own(x, cores', live[i]) == Own(x, cores, live[i]) {
      assert Turns(live)[i] in Turns(live);
      OwnStays(x, cores, cores', live[i], turn);
    }
    hide Own, BaseOf, Records, IsCap, Recorded, Turns, TurnIds;
    forall i | 0 <= i < |live| ensures EntryOk(fold, x, cores', live[i], key) {
      assert EntryOk(fold, x, cores, live[i], key);
    }
    forall i, j | 0 <= i < |live| && 0 <= j < |live| && i != j ensures LinkOk(fold, x, cores', live[i], live[j], key) {
      assert LinkOk(fold, x, cores, live[i], live[j], key);
    }
  }

  /** The top fact belongs to the last recorder. */
  ghost predicate TopOwned(fold: Fold, x: Scope, cores: set<Fact>, live: seq<Entry>, key: Key, top: Option<Fact>) {
    var last := LastRecorder(fold, x, live, key);
    (top.Some? <==> last.Some?)
      && (top.Some? ==> last.value in live && IsCap(Own(x, cores, last.value), key, top.value))
  }

  lemma NewEntryOk(fold: Fold, x: Scope, cores: set<Fact>, cores': set<Fact>, live: seq<Entry>, t: Turn, key: Key,
                   visible: set<Fact>, top: Option<Fact>)
    requires GrowsBy(cores, cores', t.id) && TopOwned(fold, x, cores, live, key, top)
    requires LaysOver(fold, x, visible, Own(x, cores', Once(t, live)), t, key, top, Said(fold, x, live, key))
    ensures EntryOk(fold, x, cores', Once(t, live), key)
  {
    hide Over, HasCap, Alters, LastRecorder, Said, IsCap, Recorded, LatestOf;
    var e := Once(t, live);
    if top.Some? {
      CapIsAdded(Own(x, cores, LastRecorder(fold, x, live, key).value), key, top.value);
      assert top.value in cores;
    }
    assert Records(fold, x, e, key) <==> RecordsFirst(fold, x, e, key);
    assert RecordsFirst(fold, x, e, key) <==> Alters(fold, x, Said(fold, x, live, key), t.candidates, key);
    assert Recorded(Own(x, cores', e), key) <==> Records(fold, x, e, key);
    assert BaseOf(fold, x, e, key).Some? ==> BaseOf(fold, x, e, key) == IdOf(LastRecorder(fold, x, live, key));
  }

  lemma NewLinkOk(fold: Fold, x: Scope, cores: set<Fact>, live: seq<Entry>, e: Entry, other: Entry, key: Key,
                  visible: set<Fact>, added: set<Fact>, top: Option<Fact>)
    requires e.Once? && e.seen == live && TopOwned(fold, x, cores, live, key, top)
    requires LaysOver(fold, x, visible, added, e.turn, key, top, Said(fold, x, live, key))
    requires Own(x, cores, other) <= visible
    ensures forall f | f in Own(x, cores, other) && f.key == key ::
              Supersedes(added, f) <==>
                  BaseOf(fold, x, e, key) == Some(other.turn.id) && IsCap(Own(x, cores, other), key, f)
  {
    hide HasCap, Alters, LastRecorder, Said, LatestOf, Recorded;
    forall f | f in Own(x, cores, other) && f.key == key
      ensures Supersedes(added, f) <==>
                BaseOf(fold, x, e, key) == Some(other.turn.id) && IsCap(Own(x, cores, other), key, f)
    {
      var last := LastRecorder(fold, x, live, key);
      if top.Some? {
        CapIsAdded(Own(x, cores, last.value), key, top.value);
        if last.value.turn.id == other.turn.id && IsCap(Own(x, cores, other), key, f) {
          OneCap(Own(x, cores, other), key, f, top.value);
        }
      }
      hide IsCap;
    }
  }

  lemma NewTurnKept(fold: Fold, x: Scope, cores: set<Fact>, cores': set<Fact>, live: seq<Entry>, t: Turn, key: Key,
                    visible: set<Fact>, top: Option<Fact>)
    requires Kept(fold, x, cores, live, key) && GrowsBy(cores, cores', t.id) && TopOwned(fold, x, cores, live, key, top)
    requires t.id !in TurnIds(Turns(live)) && forall i | 0 <= i < |live| :: Own(x, cores, live[i]) <= visible
    requires LaysOver(fold, x, visible, Own(x, cores', Once(t, live)), t, key, top, Said(fold, x, live, key))
    ensures Kept(fold, x, cores', live + [Once(t, live)], key)
  {
    hide Kept, EntryOk, Own, BaseOf, Recorded, LaysOver;
    var e, added := Once(t, live), Own(x, cores', Once(t, live));
    KeptStays(fold, x, cores, cores', live, key, t.id);
    NewEntryOk(fold, x, cores, cores', live, t, key, visible, top);
    BasesAreKnown(fold, x, cores, live, t, key);
    NewBaseIsEarlier(fold, x, live, t, key);
    forall i | 0 <= i < |live|
      ensures LinkOk(fold, x, cores', e, live[i], key) && LinkOk(fold, x, cores', live[i], e, key)
    {
      TurnIsListed(live, i);
      OwnStays(x, cores, cores', live[i], t.id);
      NewLinkOk(fold, x, cores, live, e, live[i], key, visible, added, top);
      LaysOverNothing(fold, x, visible, added, t, key, top, Said(fold, x, live, key), Own(x, cores', live[i]));
    }
    KeptMore(fold, x, cores', live, e, key);
  }

  lemma TurnIsListed(live: seq<Entry>, i: nat)
    requires i < |live|
    ensures live[i].turn.id in TurnIds(Turns(live))
  {
    assert Turns(live)[i] in Turns(live);
  }

  lemma LaysOverNothing(fold: Fold, x: Scope, visible: set<Fact>, added: set<Fact>, t: Turn, key: Key,
                        top: Option<Fact>, said: Option<string>, own: set<Fact>)
    requires LaysOver(fold, x, visible, added, t, key, top, said) && own <= visible
    ensures forall f | f in added :: !Supersedes(own, f)
  {
    NothingLinksBack(visible, added, key, if Recorded(added, key) then top else None, own);
  }

  /** One more entry, after all others. */
  lemma KeptMore(fold: Fold, x: Scope, cores: set<Fact>, live: seq<Entry>, e: Entry, key: Key)
    requires Kept(fold, x, cores, live, key) && EntryOk(fold, x, cores, e, key)
    requires forall i | 0 <= i < |live| ::
               LinkOk(fold, x, cores, e, live[i], key) && LinkOk(fold, x, cores, live[i], e, key)
    requires forall i | 0 <= i < |live| :: BaseOf(fold, x, live[i], key) != Some(e.turn.id)
    requires BaseOf(fold, x, e, key) != Some(e.turn.id)
    ensures Kept(fold, x, cores, live + [e], key)
  {
    hide EntryOk, LinkOk, BaseOf;
  }

  lemma NothingLinksBack(visible: set<Fact>, added: set<Fact>, key: Key, base: Option<Fact>, own: set<Fact>)
    requires Over(visible, added, key, base) && own <= visible
    ensures forall f | f in added :: !Supersedes(own, f)
  {
  }

  lemma BasesAreKnown(fold: Fold, x: Scope, cores: set<Fact>, live: seq<Entry>, t: Turn, key: Key)
    requires Kept(fold, x, cores, live, key) && forall f | f in cores :: f.sourceTurn != t.id
    ensures forall i | 0 <= i < |live| :: BaseOf(fold, x, live[i], key) != Some(t.id)
  {
    hide BaseOf, Own, LinkOk;
    forall i | 0 <= i < |live| ensures BaseOf(fold, x, live[i], key) != Some(t.id) {
      assert EntryOk(fold, x, cores, live[i], key);
    }
  }

  lemma NewBaseIsEarlier(fold: Fold, x: Scope, live: seq<Entry>, t: Turn, key: Key)
    requires t.id !in TurnIds(Turns(live))
    ensures BaseOf(fold, x, Once(t, live), key) != Some(t.id)
  {
    var m := LastRecorderIs(fold, x, live, key);
    if m >= 0 {
      assert Turns(live)[m] in Turns(live);
    }
    hide LastRecorder, Records, TurnIds;
  }

  // ----- the second commit of a retried answer -----

  /** The same statements once more: candidates differ in id and time only. */
  ghost predicate SaysTheSame(t: Turn, again: Turn) {
    && again.id == t.id && again.session == t.session && |again.candidates| == |t.candidates|
    && forall i | 0 <= i < |t.candidates| ::
         again.candidates[i] ==
             t.candidates[i].(id := again.candidates[i].id, createdAt := again.candidates[i].createdAt)
  }

  lemma {:induction false} SameStatements(x: Scope, a: seq<Fact>, b: seq<Fact>, key: Key)
    requires |a| == |b| && forall i | 0 <= i < |a| :: b[i] == a[i].(id := b[i].id, createdAt := b[i].createdAt)
    ensures LatestOf(x, a, key) == LatestOf(x, b, key)
  {
    if a != [] {
      SameStatements(x, a[..|a| - 1], b[..|b| - 1], key);
    }
  }

  lemma {:induction false} SameAlterations(fold: Fold, x: Scope, start: Option<string>, a: seq<Fact>, b: seq<Fact>,
                                           key: Key)
    requires |a| == |b| && forall i | 0 <= i < |a| :: b[i] == a[i].(id := b[i].id, createdAt := b[i].createdAt)
    ensures Alters(fold, x, start, a, key) <==> Alters(fold, x, start, b, key)
  {
    if a != [] {
      SameAlterations(fold, x, start, a[..|a| - 1], b[..|b| - 1], key);
      SameStatements(x, a[..|a| - 1], b[..|b| - 1], key);
      hide LatestOf, Says;
    }
  }

  lemma AgainAlters(fold: Fold, x: Scope, upper: Turn, again: Turn, key: Key, said: Option<string>)
    requires SaysTheSame(upper, again)
    ensures again.id == upper.id && again.session == upper.session
    ensures LatestOf(x, again.candidates, key) == LatestOf(x, upper.candidates, key)
    ensures Alters(fold, x, said, again.candidates, key) <==> Alters(fold, x, said, upper.candidates, key)
  {
    SameStatements(x, upper.candidates, again.candidates, key);
    SameAlterations(fold, x, said, upper.candidates, again.candidates, key);
    hide LatestOf, Alters;
  }

  lemma RecorderOfMore(fold: Fold, x: Scope, rest: seq<Entry>, e: Entry, key: Key)
    ensures LastRecorder(fold, x, rest + [e], key) ==
              if Records(fold, x, e, key) then Some(e) else LastRecorder(fold, x, rest, key)
  {
    assert (rest + [e])[..|rest|] == rest;
    hide Records;
  }

  /** The cap of the second commit caps both, and where it recorded nothing that of the first does. */
  lemma CapOfBoth(visible: set<Fact>, own: set<Fact>, added: set<Fact>, key: Key, base: Option<Fact>)
    requires Over(visible, added, key, base) && own <= visible
    requires base.Some? && Recorded(own, key) ==> IsCap(own, key, base.value)
    requires Recorded(own, key) && Recorded(added, key) ==> base.Some?
    requires !Recorded(added, key) ==> base == None
    ensures forall cap | IsCap(added, key, cap) :: IsCap(own + added, key, cap)
    ensures !Recorded(added, key) ==> forall cap | IsCap(own, key, cap) :: IsCap(own + added, key, cap)
  {
    forall cap | IsCap(added, key, cap) ensures IsCap(own + added, key, cap) {
      assert Recorded(added, key);
      forall g | g in own && g.key == key ensures Supersedes(own + added, g) {
        SupersededInBoth(own, added, key, base, g);
      }
      forall g | g in added && g.key == key && g != cap ensures Supersedes(own + added, g) {
        var h :| h in added && h.supersedes == Some(g.id);
        assert h in own + added;
      }
    }
    forall cap | IsCap(own, key, cap) && !Recorded(added, key) ensures IsCap(own + added, key, cap) {
      forall g | g in own && g.key == key && g != cap ensures Supersedes(own + added, g) {
        var h :| h in own && h.supersedes == Some(g.id);
        assert h in own + added;
      }
    }
  }

  lemma SupersededInBoth(own: set<Fact>, added: set<Fact>, key: Key, base: Option<Fact>, g: Fact)
    requires g in own && g.key == key && base.Some? && IsCap(own, key, base.value)
    requires exists h :: h in added && h.supersedes == Some(base.value.id)
    ensures Supersedes(own + added, g)
  {
    if g == base.value {
      var h :| h in added && h.supersedes == Some(base.value.id);
      assert h in own + added;
    } else {
      var h :| h in own && h.supersedes == Some(g.id);
      assert h in own + added;
    }
  }

  /** The second commit of the last turn, onto the facts of the others and its own. */
  ghost predicate LaysTwice(fold: Fold, x: Scope, cores: set<Fact>, rest: seq<Entry>, first: Entry, again: Turn,
                            key: Key, visible: set<Fact>, added: set<Fact>, top: Option<Fact>) {
    && first.Once? && SaysTheSame(first.turn, again) && Kept(fold, x, cores, rest + [first], key)
    && TopOwned(fold, x, cores, rest + [first], key, top)
    && LaysOver(fold, x, visible, added, again, key, top, Said(fold, x, rest + [first], key))
    && Own(x, cores, first) <= visible && forall i | 0 <= i < |rest| :: Own(x, cores, rest[i]) <= visible
  }

  lemma KeptLast(fold: Fold, x: Scope, cores: set<Fact>, rest: seq<Entry>, e: Entry, key: Key)
    requires Kept(fold, x, cores, rest + [e], key)
    ensures Kept(fold, x, cores, rest, key) && EntryOk(fold, x, cores, e, key)
    ensures forall i | 0 <= i < |rest| ::
              LinkOk(fold, x, cores, e, rest[i], key) && LinkOk(fold, x, cores, rest[i], e, key)
    ensures forall i | 0 <= i < |rest| :: BaseOf(fold, x, rest[i], key) != Some(e.turn.id)
    ensures BaseOf(fold, x, e, key) != Some(e.turn.id)
  {
    var more := rest + [e];
    hide EntryOk, LinkOk, BaseOf;
    assert more[|rest|] == e && forall i | 0 <= i < |rest| :: more[i] == rest[i];
    forall i, j | 0 <= i < |rest| && 0 <= j < |rest| && i != j ensures LinkOk(fold, x, cores, rest[i], rest[j], key) {
      assert LinkOk(fold, x, cores, more[i], more[j], key);
    }
    forall i | 0 <= i < |rest|
      ensures LinkOk(fold, x, cores, e, rest[i], key) && LinkOk(fold, x, cores, rest[i], e, key)
    {
      assert LinkOk(fold, x, cores, more[|rest|], more[i], key) && LinkOk(fold, x, cores, more[i], more[|rest|], key);
    }
  }

  /** Which of the two commits recorded the key, and on what. */
  lemma TwiceRecords(fold: Fold, x: Scope, cores: set<Fact>, rest: seq<Entry>, first: Entry, again: Turn, key: Key,
                     visible: set<Fact>, added: set<Fact>, top: Option<Fact>)
    requires LaysTwice(fold, x, cores, rest, first, again, key, visible, added, top)
    ensures var e, own := Twice(first.turn, first.seen, rest), Own(x, cores, first);
            && (Recorded(own, key) <==> RecordsFirst(fold, x, first, key))
            && (RecordsFirst(fold, x, first, key) <==> RecordsFirst(fold, x, e, key))
            && (Recorded(own, key) || Recorded(added, key) <==> Records(fold, x, e, key))
            && (BaseOf(fold, x, e, key) ==
                if Recorded(own, key) then BaseOf(fold, x, first, key)
                else if Recorded(added, key) then IdOf(LastRecorder(fold, x, rest, key)) else None)
            && (Recorded(own, key) ==> top.Some? && IsCap(own, key, top.value))
            && (!Recorded(own, key) ==> TopOwned(fold, x, cores, rest, key, top))
  {
    var e, said := Twice(first.turn, first.seen, rest), Said(fold, x, rest + [first], key);
    KeptLast(fold, x, cores, rest, first, key);
    RecorderOfMore(fold, x, rest, first, key);
    AgainAlters(fold, x, first.turn, again, key, said);
    hide Kept, LinkOk, Own, IsCap, Recorded, Over, HasCap, LatestOf, Alters, LastRecorder, SaysTheSame;
    assert Records(fold, x, first, key) <==> RecordsFirst(fold, x, first, key);
    assert !Records(fold, x, first, key) ==> said == Said(fold, x, rest, key);
  }

  lemma RecordedInBoth(a: set<Fact>, b: set<Fact>, key: Key)
    ensures Recorded(a + b, key) <==> Recorded(a, key) || Recorded(b, key)
  {
    assert forall g :: g in a || g in b ==> g in a + b;
  }

  lemma TwiceHasCap(fold: Fold, x: Scope, cores: set<Fact>, rest: seq<Entry>, first: Entry, again: Turn, key: Key,
                    visible: set<Fact>, added: set<Fact>, top: Option<Fact>)
    requires LaysTwice(fold, x, cores, rest, first, again, key, visible, added, top)
    requires Recorded(Own(x, cores, first), key) || Recorded(added, key)
    ensures var stated := LatestOf(x, first.turn.candidates, key);
            stated.Some? && HasCap(fold, Own(x, cores, first) + added, key, stated.value)
  {
    var own := Own(x, cores, first);
    TwiceRecords(fold, x, cores, rest, first, again, key, visible, added, top);
    AgainAlters(fold, x, first.turn, again, key, Said(fold, x, rest + [first], key));
    KeptLast(fold, x, cores, rest, first, key);
    hide Kept, LinkOk, Own, Over, LatestOf, Alters, LastRecorder, SaysTheSame, BaseOf, TopOwned;
    var base := if Recorded(added, key) then top else None;
    CapOfBoth(visible, own, added, key, base) by {
      assert !Recorded(own, key) || !Recorded(added, key) || top.Some?;
    }
    if Recorded(added, key) {
      assert HasCap(fold, added, key, LatestOf(x, first.turn.candidates, key).value);
    } else {
      assert HasCap(fold, own, key, LatestOf(x, first.turn.candidates, key).value);
    }
    hide IsCap, Recorded;
  }

  lemma TwiceEntryOk(fold: Fold, x: Scope, cores: set<Fact>, cores': set<Fact>, rest: seq<Entry>, first: Entry,
                     again: Turn, key: Key, visible: set<Fact>, added: set<Fact>, top: Option<Fact>)
    requires LaysTwice(fold, x, cores, rest, first, again, key, visible, added, top)
    requires cores <= cores' && Own(x, cores', first) == Own(x, cores, first) + added
    ensures EntryOk(fold, x, cores', Twice(first.turn, first.seen, rest), key)
  {
    var e, own := Twice(first.turn, first.seen, rest), Own(x, cores, first);
    TwiceRecords(fold, x, cores, rest, first, again, key, visible, added, top);
    RecordedInBoth(own, added, key);
    KeptLast(fold, x, cores, rest, first, key);
    if Records(fold, x, e, key) {
      TwiceHasCap(fold, x, cores, rest, first, again, key, visible, added, top);
    }
    if !Recorded(own, key) && Recorded(added, key) && top.Some? {
      CapIsAdded(Own(x, cores, LastRecorder(fold, x, rest, key).value), key, top.value);
      assert top.value in cores;
    }
    assert Own(x, cores', e) == own + added;
    hide Kept, LinkOk, IsCap, Recorded, HasCap, LaysTwice, LatestOf, LastRecorder, Records, RecordsFirst, BaseOf, Own;
  }

  lemma SupersedesEither(a: set<Fact>, b: set<Fact>, f: Fact)
    ensures Supersedes(a + b, f) <==> Supersedes(a, f) || Supersedes(b, f)
  {
    assert forall g :: g in a || g in b ==> g in a + b;
  }

  lemma TwiceLinkOk(fold: Fold, x: Scope, cores: set<Fact>, cores': set<Fact>, rest: seq<Entry>, first: Entry,
                    again: Turn, key: Key, visible: set<Fact>, added: set<Fact>, top: Option<Fact>, i: nat)
    requires LaysTwice(fold, x, cores, rest, first, again, key, visible, added, top) && i < |rest|
    requires rest[i].turn.id != first.turn.id
    requires Own(x, cores', first) == Own(x, cores, first) + added && Own(x, cores', rest[i]) == Own(x, cores, rest[i])
    ensures LinkOk(fold, x, cores', Twice(first.turn, first.seen, rest), rest[i], key)
    ensures LinkOk(fold, x, cores', rest[i], Twice(first.turn, first.seen, rest), key)
  {
    hide Kept, IsCap, LaysTwice, BaseOf, Own, EntryOk, Supersedes;
    var e, own, other := Twice(first.turn, first.seen, rest), Own(x, cores, first), Own(x, cores, rest[i]);
    OwnIs(x, cores', first);
    OwnIs(x, cores', e);
    forall f | f in other && f.key == key
      ensures Supersedes(own + added, f) <==> BaseOf(fold, x, e, key) == Some(rest[i].turn.id) && IsCap(other, key, f)
    {
      SupersedesEither(own, added, f);
      TwiceLinks(fold, x, cores, rest, first, again, key, visible, added, top, i, f);
    }
    TwiceLinksBack(fold, x, cores, rest, first, again, key, visible, added, top, i);
  }

  lemma TwiceLinksBack(fold: Fold, x: Scope, cores: set<Fact>, rest: seq<Entry>, first: Entry, again: Turn, key: Key,
                       visible: set<Fact>, added: set<Fact>, top: Option<Fact>, i: nat)
    requires LaysTwice(fold, x, cores, rest, first, again, key, visible, added, top) && i < |rest|
    ensures BaseOf(fold, x, rest[i], key) != Some(first.turn.id)
    ensures forall f | f in Own(x, cores, first) + added && f.key == key :: !Supersedes(Own(x, cores, rest[i]), f)
  {
    KeptLast(fold, x, cores, rest, first, key);
    assert LinkOk(fold, x, cores, rest[i], first, key);
    LaysOverNothing(fold, x, visible, added, again, key, top, Said(fold, x, rest + [first], key),
                    Own(x, cores, rest[i]));
    hide Kept, IsCap, LaysTwice, BaseOf, Own, EntryOk, Supersedes;
  }

  lemma TwiceLinks(fold: Fold, x: Scope, cores: set<Fact>, rest: seq<Entry>, first: Entry, again: Turn, key: Key,
                   visible: set<Fact>, added: set<Fact>, top: Option<Fact>, i: nat, f: Fact)
    requires LaysTwice(fold, x, cores, rest, first, again, key, visible, added, top) && i < |rest|
    requires rest[i].turn.id != first.turn.id
    requires f in Own(x, cores, rest[i]) && f.key == key
    ensures var e := Twice(first.turn, first.seen, rest);
            Supersedes(Own(x, cores, first), f) || Supersedes(added, f) <==>
            BaseOf(fold, x, e, key) == Some(rest[i].turn.id) && IsCap(Own(x, cores, rest[i]), key, f)
  {
    var e, own, base := Twice(first.turn, first.seen, rest), Own(x, cores, first),
                        if Recorded(added, key) then top else None;
    TwiceRecords(fold, x, cores, rest, first, again, key, visible, added, top);
    KeptLast(fold, x, cores, rest, first, key);
    assert LinkOk(fold, x, cores, first, rest[i], key);
    BaseMeansRecords(fold, x, first, key);
    OverSupersedes(visible, added, key, base, f);
    hide Kept, Over, HasCap, LatestOf, LastRecorder, Alters, Said, SaysTheSame, Recorded;
    var last := LastRecorder(fold, x, rest, key);
    if top.Some? {
      if Recorded(own, key) {
        CapIsAdded(own, key, top.value);
      } else {
        CapIsAdded(Own(x, cores, last.value), key, top.value);
        if last.value.turn.id == rest[i].turn.id && IsCap(Own(x, cores, rest[i]), key, f) {
          OneCap(Own(x, cores, rest[i]), key, f, top.value);
        }
      }
    }
    hide IsCap;
  }

  lemma OverSupersedes(visible: set<Fact>, added: set<Fact>, key: Key, base: Option<Fact>, f: Fact)
    requires Over(visible, added, key, base) && f in visible && f.key == key
    ensures Supersedes(added, f) <==> base == Some(f)
  {
  }

  lemma TwiceKept(fold: Fold, x: Scope, cores: set<Fact>, cores': set<Fact>, rest: seq<Entry>, first: Entry,
                  again: Turn, key: Key, visible: set<Fact>, added: set<Fact>, top: Option<Fact>)
    requires LaysTwice(fold, x, cores, rest, first, again, key, visible, added, top)
    requires first.turn.id !in TurnIds(Turns(rest))
    requires cores <= cores' && Own(x, cores', first) == Own(x, cores, first) + added
    requires forall g | g in cores' - cores :: g.sourceTurn == first.turn.id
    ensures Kept(fold, x, cores', rest + [Twice(first.turn, first.seen, rest)], key)
  {
    var e := Twice(first.turn, first.seen, rest);
    KeptLast(fold, x, cores, rest, first, key);
    TwiceEntryOk(fold, x, cores, cores', rest, first, again, key, visible, added, top);
    TwiceRecords(fold, x, cores, rest, first, again, key, visible, added, top);
    RestBaseIsEarlier(fold, x, rest, first.turn, key);
    hide Kept, EntryOk, LinkOk, Own, BaseOf, LaysTwice, Recorded, TopOwned, Records, RecordsFirst, TurnIds, IsCap;
    KeptStays(fold, x, cores, cores', rest, key, first.turn.id);
    forall i | 0 <= i < |rest|
      ensures LinkOk(fold, x, cores', e, rest[i], key) && LinkOk(fold, x, cores', rest[i], e, key)
    {
      TurnIsListed(rest, i);
      OwnStays(x, cores, cores', rest[i], first.turn.id);
      TwiceLinkOk(fold, x, cores, cores', rest, first, again, key, visible, added, top, i);
    }
    KeptMore(fold, x, cores', rest, e, key);
  }

  lemma RestBaseIsEarlier(fold: Fold, x: Scope, rest: seq<Entry>, t: Turn, key: Key)
    requires t.id !in TurnIds(Turns(rest))
    ensures IdOf(LastRecorder(fold, x, rest, key)) != Some(t.id)
  {
    var m := LastRecorderIs(fold, x, rest, key);
    if m >= 0 {
      TurnIsListed(rest, m);
    }
    hide LastRecorder, Records, TurnIds;
  }

  // ----- steps -----

  lemma TurnsMore(live: seq<Entry>, e: Entry)
    ensures Turns(live + [e]) == Turns(live) + [e.turn]
    ensures TurnIds(Turns(live + [e])) == TurnIds(Turns(live)) + {e.turn.id}
  {
    var turns := Turns(live) + [e.turn];
    assert turns[|live|] == e.turn && forall t | t in turns :: t in Turns(live) || t == e.turn;
    assert forall i | 0 <= i < |live| :: turns[i] == Turns(live)[i];
  }

  lemma OwnIsShown(x: Scope, log: Log, live: seq<Entry>, i: nat)
    requires i < |live|
    ensures Own(x, CoreSet(log.facts), live[i]) <= Shown(x, log, Turns(live))
  {
    TurnIsListed(live, i);
    hide CoreSet, TurnIds;
  }

  lemma NewTurnRemembered(fold: Fold, profiles: map<string, string>, x: Scope, log: Log, live: seq<Entry>, t: Turn)
    requires Remembers(fold, x, log, live) && IsScope(x, profiles) && IsNewTurn(log, Turns(live), t)
    requires t.session in x.Sessions()
    ensures Remembers(fold, x, Apply(fold, profiles, log, CommitTurn(t)), live + [Once(t, live)])
  {
    hide Sound, InOrder, DistinctTurns, Kept, Apply, IsScope, CoreSet, TurnIds, AreCandidates, Shown, IsNewTurn;
    var log', turns := Apply(fold, profiles, log, CommitTurn(t)), Turns(live) + [t];
    NewTurnIsReady(x, log, Turns(live), t);
    TurnsMore(live, Once(t, live));
    CommitKeepsReady(fold, profiles, x, log, turns, t);
    forall key ensures Kept(fold, x, CoreSet(log'.facts), live + [Once(t, live)], key) {
      NewTurnKeeps(fold, profiles, x, log, live, t, key);
    }
  }

  lemma NewTurnKeeps(fold: Fold, profiles: map<string, string>, x: Scope, log: Log, live: seq<Entry>, t: Turn, key: Key)
    requires Remembers(fold, x, log, live) && IsScope(x, profiles) && IsNewTurn(log, Turns(live), t)
    requires t.session in x.Sessions()
    ensures Kept(fold, x, CoreSet(Apply(fold, profiles, log, CommitTurn(t)).facts), live + [Once(t, live)], key)
  {
    hide Sound, InOrder, DistinctTurns, Kept, Apply, IsScope, CoreSet, TurnIds, AreCandidates, Shown, IsNewTurn, TopIs,
         LaysOver, Own, Gained, IsCap;
    var log', turns := Apply(fold, profiles, log, CommitTurn(t)), Turns(live) + [t];
    NewTurnIsReady(x, log, Turns(live), t);
    var top := LastIsTop(fold, x, log, live, key);
    TopGrows(fold, Shown(x, log, turns), Turns(live), t, key, top, Said(fold, x, live, key)) by {
      NewIsUnseen(log, Turns(live), t);
    }
    CommitLaysOver(fold, profiles, x, log, turns, t, key, top, Said(fold, x, live, key));
    OwnOfNew(fold, profiles, x, log, live, t);
    forall i | 0 <= i < |live| ensures Own(x, CoreSet(log.facts), live[i]) <= Shown(x, log, turns) {
      OwnIsShown(x, log, live, i);
    }
    NewTurnKept(fold, x, CoreSet(log.facts), CoreSet(log'.facts), live, t, key, Shown(x, log, turns), top);
  }

  lemma NewIsUnseen(log: Log, live: seq<Turn>, t: Turn)
    requires IsNewTurn(log, live, t)
    ensures t.id !in TurnIds(live) && t.id !in log.hidden
    ensures (forall f | f in CoreSet(log.facts) :: f.sourceTurn != t.id)
    ensures AreCandidates(log.facts, t.id, t.session, t.candidates)
  {
  }

  lemma OwnOfNew(fold: Fold, profiles: map<string, string>, x: Scope, log: Log, live: seq<Entry>, t: Turn)
    requires ReadyToCommit(x, log, Turns(live) + [t], t) && IsScope(x, profiles) && IsNewTurn(log, Turns(live), t)
    requires InScope(x, CoreSet(log.facts), {t.id}) == {}
    ensures var log' := Apply(fold, profiles, log, CommitTurn(t));
            && Own(x, CoreSet(log'.facts), Once(t, live)) == Gained(x, log, log', t.id)
            && GrowsBy(CoreSet(log.facts), CoreSet(log'.facts), t.id) && t.id !in TurnIds(Turns(live))
  {
    NewIsUnseen(log, Turns(live), t);
    hide IsNewTurn, Apply, IsScope, AreCandidates, Sound, InOrder, DistinctTurns, TurnIds, CoreSet;
    GainedIsAll(fold, profiles, x, log, Turns(live) + [t], t);
    CommitGains(fold, profiles, x, log, Turns(live) + [t], t);
  }

  lemma TopGrows(fold: Fold, facts: set<Fact>, live: seq<Turn>, t: Turn, key: Key, top: Option<Fact>,
                 said: Option<string>)
    requires t.id !in TurnIds(live) && TopIs(fold, facts, live, key, top, said)
    ensures TopIs(fold, facts, live + [t], key, top, said)
  {
    hide IsActive, Earlier, TurnIds;
    if top.Some? {
      forall b | IsActive(facts, b) && b.key == key && b != top.value
        ensures Earlier(live + [t], b.sourceTurn, top.value.sourceTurn)
      {
        EarlierGrows(live, t, b.sourceTurn, top.value.sourceTurn);
      }
    }
  }

  lemma ForeignCommitRemembered(fold: Fold, profiles: map<string, string>, x: Scope, log: Log, live: seq<Entry>,
                                t: Turn)
    requires Remembers(fold, x, log, live) && IsScope(x, profiles) && t.session !in x.Sessions()
    requires AreCandidates(log.facts, t.id, t.session, t.candidates)
    ensures Remembers(fold, x, Apply(fold, profiles, log, CommitTurn(t)), live)
  {
    var log' := Apply(fold, profiles, log, CommitTurn(t));
    ForeignGains(fold, profiles, x, log, Turns(live), t);
    CommitAppends(fold, profiles, x, log, t);
    hide Sound, InOrder, Kept, Apply, IsScope, AreCandidates, DistinctTurns, CoreSet, Appends;
    AppendsInOrder(x, log.facts, log'.facts, t.id, t.session, Turns(live));
    forall key ensures Kept(fold, x, CoreSet(log'.facts), live, key) {
      ForeignKept(fold, x, CoreSet(log.facts), CoreSet(log'.facts), live, key);
    }
  }

  /** Facts outside the scope change nothing. */
  lemma ForeignKept(fold: Fold, x: Scope, cores: set<Fact>, cores': set<Fact>, live: seq<Entry>, key: Key)
    requires Kept(fold, x, cores, live, key) && cores <= cores' && forall g | g in cores' - cores :: !x.Contains(g)
    ensures Kept(fold, x, cores', live, key)
  {
    forall e: Entry ensures Own(x, cores', e) == Own(x, cores, e) {
      assert forall g | g in cores' :: g in cores || g in cores' - cores;
    }
    hide Own, BaseOf, Records, IsCap, Recorded;
    forall i | 0 <= i < |live| ensures EntryOk(fold, x, cores', live[i], key) {
      assert EntryOk(fold, x, cores, live[i], key);
    }
    forall i, j | 0 <= i < |live| && 0 <= j < |live| && i != j ensures LinkOk(fold, x, cores', live[i], live[j], key) {
      assert LinkOk(fold, x, cores, live[i], live[j], key);
    }
  }

  // ----- hiding -----

  /** The visible turns once one is hidden. */
  function Without(live: seq<Entry>, id: string): seq<Entry> {
    if live == [] then []
    else
      var before, last := Without(live[..|live| - 1], id), live[|live| - 1];
      if last.turn.id == id then before else before + [last]
  }

  /** The turns left, and where they stood. */
  ghost predicate Picks(live: seq<Entry>, fewer: seq<Entry>, at: seq<nat>) {
    && |at| == |fewer| && (forall i | 0 <= i < |at| :: at[i] < |live| && fewer[i] == live[at[i]])
    && forall i, j | 0 <= i < j < |at| :: at[i] < at[j]
  }

  lemma {:induction false} WithoutPicks(live: seq<Entry>, id: string) returns (at: seq<nat>)
    ensures Picks(live, Without(live, id), at)
    ensures TurnIds(Turns(Without(live, id))) == TurnIds(Turns(live)) - {id}
  {
    at := [];
    if live != [] {
      var before, last := live[..|live| - 1], live[|live| - 1];
      at := WithoutPicks(before, id);
      assert live == before + [last];
      TurnsMore(before, last);
      TurnsMore(Without(before, id), last);
      hide TurnIds, Turns;
      if last.turn.id != id {
        at := at + [|live| - 1];
      }
    }
  }

  lemma FewerKept(fold: Fold, x: Scope, cores: set<Fact>, live: seq<Entry>, fewer: seq<Entry>, at: seq<nat>, key: Key)
    requires Kept(fold, x, cores, live, key) && Picks(live, fewer, at)
    ensures Kept(fold, x, cores, fewer, key)
  {
    hide EntryOk, LinkOk, BaseOf;
    forall i, j | 0 <= i < |fewer| && 0 <= j < |fewer| && BaseOf(fold, x, fewer[i], key) == Some(fewer[j].turn.id)
      ensures j < i
    {
      assert at[j] < at[i];
    }
    forall i, j | 0 <= i < |fewer| && 0 <= j < |fewer| && i != j
      ensures LinkOk(fold, x, cores, fewer[i], fewer[j], key)
    {
      assert at[i] != at[j];
    }
  }

  lemma FewerTurns(live: seq<Entry>, fewer: seq<Entry>, at: seq<nat>)
    requires Picks(live, fewer, at) && DistinctTurns(Turns(live))
    ensures DistinctTurns(Turns(fewer)) && forall a, b :: Earlier(Turns(fewer), a, b) ==> Earlier(Turns(live), a, b)
  {
    forall a, b | Earlier(Turns(fewer), a, b) ensures Earlier(Turns(live), a, b) {
      var i, j :| 0 <= i < j < |fewer| && Turns(fewer)[i].id == a && Turns(fewer)[j].id == b;
      assert Turns(live)[at[i]].id == a && Turns(live)[at[j]].id == b;
    }
    assert forall i | 0 <= i < |fewer| :: Turns(fewer)[i] == Turns(live)[at[i]];
  }

  lemma HidingIsRemembered(fold: Fold, x: Scope, log: Log, live: seq<Entry>, id: string)
    requires Remembers(fold, x, log, live)
    ensures Remembers(fold, x, log.(hidden := log.hidden + {id}), Without(live, id))
  {
    var fewer := Without(live, id);
    var at := WithoutPicks(live, id);
    FewerTurns(live, fewer, at);
    HidingIsSound(x, log, Turns(live), Turns(fewer), id);
    hide Sound, Kept, Earlier, DistinctTurns, Without, TurnIds, CoreSet;
    OrderShrinks(x, log.facts, Turns(live), Turns(fewer));
    forall key ensures Kept(fold, x, CoreSet(log.facts), fewer, key) {
      FewerKept(fold, x, CoreSet(log.facts), live, fewer, at, key);
    }
  }

  lemma HidingIsSound(x: Scope, log: Log, live: seq<Turn>, fewer: seq<Turn>, id: string)
    requires Sound(x, log, live) && TurnIds(fewer) == TurnIds(live) - {id}
    ensures Sound(x, log.(hidden := log.hidden + {id}), fewer)
  {
    hide LogOk, Separated, TurnIds;
  }

  // ----- a retry -----

  lemma OwnGrows(x: Scope, log: Log, log': Log, live: seq<Turn>, turn: string)
    requires Gains(x, log, log', live, turn)
    ensures InScope(x, CoreSet(log'.facts), {turn}) ==
              InScope(x, CoreSet(log.facts), {turn}) + Gained(x, log, log', turn)
  {
    hide Sound, UniqueIds, IsUserKey, CoreSet;
    assert forall g | g in CoreSet(log'.facts) ::
             g in CoreSet(log.facts) || g in CoreSet(log'.facts) - CoreSet(log.facts);
  }

  lemma AgainMayCommit(x: Scope, log: Log, rest: seq<Entry>, first: Entry, again: Turn)
    requires Sound(x, log, Turns(rest + [first])) && DistinctTurns(Turns(rest + [first]))
    requires InOrder(x, log.facts, Turns(rest + [first]))
    requires SaysTheSame(first.turn, again) && first.turn.session in x.Sessions() && first.turn.id !in log.hidden
    requires AreCandidates(log.facts, again.id, again.session, again.candidates)
    ensures ReadyToCommit(x, log, Turns(rest + [first]), again) && first.turn.id !in TurnIds(Turns(rest))
  {
    var turns := Turns(rest + [first]);
    TurnsMore(rest, first);
    assert turns[|rest|] == first.turn && forall i | 0 <= i < |rest| :: turns[i] == Turns(rest)[i];
    hide Sound, InOrder, AreCandidates;
  }

  lemma SecondCommitRemembered(fold: Fold, profiles: map<string, string>, x: Scope, log: Log, rest: seq<Entry>,
                               first: Entry, again: Turn)
    requires first.Once? && Remembers(fold, x, log, rest + [first]) && IsScope(x, profiles)
    requires SaysTheSame(first.turn, again)
    requires first.turn.session in x.Sessions() && first.turn.id !in log.hidden
    requires AreCandidates(log.facts, again.id, again.session, again.candidates)
    ensures Remembers(fold, x, Apply(fold, profiles, log, CommitTurn(again)),
                      rest + [Twice(first.turn, first.seen, rest)])
  {
    hide Sound, InOrder, DistinctTurns, Kept, Apply, IsScope, CoreSet, TurnIds, AreCandidates, SaysTheSame,
         ReadyToCommit;
    var log', e := Apply(fold, profiles, log, CommitTurn(again)), Twice(first.turn, first.seen, rest);
    AgainMayCommit(x, log, rest, first, again);
    CommitKeepsReady(fold, profiles, x, log, Turns(rest + [first]), again);
    TurnsMore(rest, first);
    TurnsMore(rest, e);
    forall key ensures Kept(fold, x, CoreSet(log'.facts), rest + [e], key) {
      SecondCommitKeeps(fold, profiles, x, log, rest, first, again, key);
    }
  }

  lemma SecondCommitKeeps(fold: Fold, profiles: map<string, string>, x: Scope, log: Log, rest: seq<Entry>, first: Entry,
                          again: Turn, key: Key)
    requires first.Once? && Remembers(fold, x, log, rest + [first]) && IsScope(x, profiles)
    requires SaysTheSame(first.turn, again)
    requires ReadyToCommit(x, log, Turns(rest + [first]), again) && first.turn.id !in TurnIds(Turns(rest))
    ensures Kept(fold, x, CoreSet(Apply(fold, profiles, log, CommitTurn(again)).facts),
                 rest + [Twice(first.turn, first.seen, rest)], key)
  {
    hide Sound, InOrder, DistinctTurns, Kept, Apply, IsScope, CoreSet, TurnIds, AreCandidates, Shown, TopIs, LaysOver,
         Own, Gained, IsCap, SaysTheSame;
    var live, log' := rest + [first], Apply(fold, profiles, log, CommitTurn(again));
    var visible, added := Shown(x, log, Turns(live)), Gained(x, log, log', first.turn.id);
    var top := LastIsTop(fold, x, log, live, key);
    SameTurn(first.turn, again);
    CommitLaysOver(fold, profiles, x, log, Turns(live), again, key, top, Said(fold, x, live, key));
    CommitGains(fold, profiles, x, log, Turns(live), again);
    OwnGrows(x, log, log', Turns(live), first.turn.id);
    assert live[|rest|] == first && forall i | 0 <= i < |rest| :: live[i] == rest[i];
    OwnIsShown(x, log, live, |rest|);
    forall i | 0 <= i < |rest| ensures Own(x, CoreSet(log.facts), rest[i]) <= visible {
      OwnIsShown(x, log, live, i);
    }
    OwnIs(x, CoreSet(log.facts), first);
    OwnIs(x, CoreSet(log'.facts), first);
    TwiceKept(fold, x, CoreSet(log.facts), CoreSet(log'.facts), rest, first, again, key, visible, added, top);
  }

  lemma OwnIs(x: Scope, cores: set<Fact>, e: Entry)
    ensures Own(x, cores, e) == InScope(x, cores, {e.turn.id})
  {
  }

  lemma SameTurn(t: Turn, again: Turn)
    requires SaysTheSame(t, again)
    ensures again.id == t.id && again.session == t.session
  {
  }

  // ----- histories -----

  /** `Retry` replaces the turn with id `lower` by `upper`; `again` is the second commit of `upper`. */
  datatype Step = Plain(event: Event) | Retry(lower: string, upper: Turn, again: Turn)

  function Take(fold: Fold, profiles: map<string, string>, log: Log, step: Step): Log {
    match step
    case Plain(event) => Apply(fold, profiles, log, event)
    case Retry(lower, upper, again) =>
      Apply(fold, profiles, Hidden(fold, profiles, log, lower, upper), CommitTurn(again))
  }

  /** The log after the first commit of the replacement and the hiding. */
  function Hidden(fold: Fold, profiles: map<string, string>, log: Log, lower: string, upper: Turn): Log {
    Apply(fold, profiles, Apply(fold, profiles, log, CommitTurn(upper)), RetractTurn(lower))
  }

  function LogOf(fold: Fold, profiles: map<string, string>, steps: seq<Step>): Log {
    if steps == [] then Log([], {})
    else Take(fold, profiles, LogOf(fold, profiles, steps[..|steps| - 1]), steps[|steps| - 1])
  }

  /** The scope's visible turns, oldest first. */
  function Entries(x: Scope, steps: seq<Step>): seq<Entry> {
    if steps == [] then []
    else
      var before := Entries(x, steps[..|steps| - 1]);
      match steps[|steps| - 1]
      case Plain(CommitTurn(t)) => if t.session in x.Sessions() then before + [Once(t, before)] else before
      case Plain(RetractTurn(id)) => Without(before, id)
      case Retry(lower, upper, _) =>
        var left := Without(before, lower);
        if upper.session in x.Sessions() then left + [Twice(upper, before, left)] else left
  }

  /** The replacement is a new turn, not the one it replaces, and says the same in both of its commits. */
  ghost predicate MayRetry(fold: Fold, profiles: map<string, string>, log: Log, live: seq<Turn>, lower: string,
                           upper: Turn, again: Turn) {
    && IsNewTurn(log, live, upper) && lower != upper.id && SaysTheSame(upper, again)
    && AreCandidates(Hidden(fold, profiles, log, lower, upper).facts, again.id, again.session, again.candidates)
  }

  /** Commits are of new turns. Any turn may be hidden, or retried, at any time. */
  ghost predicate IsHistory(fold: Fold, profiles: map<string, string>, x: Scope, steps: seq<Step>) {
    steps == []
    || (var before, last := steps[..|steps| - 1], steps[|steps| - 1];
        var log, live := LogOf(fold, profiles, before), Turns(Entries(x, before));
        && IsHistory(fold, profiles, x, before)
        && match last
           case Plain(CommitTurn(t)) => IsNewTurn(log, live, t)
           case Plain(RetractTurn(_)) => true
           case Retry(lower, upper, again) => MayRetry(fold, profiles, log, live, lower, upper, again))
  }

  lemma RetryRemembered(fold: Fold, profiles: map<string, string>, x: Scope, log: Log, live: seq<Entry>, lower: string,
                        upper: Turn, again: Turn)
    requires Remembers(fold, x, log, live) && IsScope(x, profiles)
    requires MayRetry(fold, profiles, log, Turns(live), lower, upper, again)
    requires upper.session in x.Sessions()
    ensures Remembers(fold, x, Take(fold, profiles, log, Retry(lower, upper, again)),
                      Without(live, lower) + [Twice(upper, live, Without(live, lower))])
  {
    hide Remembers, IsScope, IsNewTurn, Apply, SaysTheSame, AreCandidates, Without, Hidden;
    var log1, first := Apply(fold, profiles, log, CommitTurn(upper)), Once(upper, live);
    NewTurnRemembered(fold, profiles, x, log, live, upper);
    HidingIsRemembered(fold, x, log1, live + [first], lower);
    WithoutMore(live, first, lower);
    HiddenIs(fold, profiles, log, lower, upper);
    NewIsUnseen(log, Turns(live), upper);
    SecondCommitRemembered(fold, profiles, x, Hidden(fold, profiles, log, lower, upper), Without(live, lower), first,
                           again);
  }

  lemma WithoutMore(live: seq<Entry>, e: Entry, id: string)
    requires e.turn.id != id
    ensures Without(live + [e], id) == Without(live, id) + [e]
  {
    assert (live + [e])[..|live|] == live;
  }

  lemma HiddenIs(fold: Fold, profiles: map<string, string>, log: Log, lower: string, upper: Turn)
    ensures var log1 := Apply(fold, profiles, log, CommitTurn(upper));
            Hidden(fold, profiles, log, lower, upper) == log1.(hidden := log1.hidden + {lower})
              && log1.hidden == log.hidden
  {
    hide Start, CommitAll;
  }

  lemma ForeignRetryRemembered(fold: Fold, profiles: map<string, string>, x: Scope, log: Log, live: seq<Entry>,
                               lower: string, upper: Turn, again: Turn)
    requires Remembers(fold, x, log, live) && IsScope(x, profiles)
    requires MayRetry(fold, profiles, log, Turns(live), lower, upper, again)
    requires upper.session !in x.Sessions()
    ensures Remembers(fold, x, Take(fold, profiles, log, Retry(lower, upper, again)), Without(live, lower))
  {
    hide Remembers, IsScope, IsNewTurn, Apply, AreCandidates, Without, Hidden, CoreSet, TurnIds;
    var log1 := Apply(fold, profiles, log, CommitTurn(upper));
    NewIsUnseen(log, Turns(live), upper);
    SameTurn(upper, again);
    ForeignCommitRemembered(fold, profiles, x, log, live, upper);
    HidingIsRemembered(fold, x, log1, live, lower);
    HiddenIs(fold, profiles, log, lower, upper);
    ForeignCommitRemembered(fold, profiles, x, Hidden(fold, profiles, log, lower, upper), Without(live, lower), again);
  }

  lemma StepRemembered(fold: Fold, profiles: map<string, string>, x: Scope, steps: seq<Step>)
    requires steps != [] && IsScope(x, profiles) && IsHistory(fold, profiles, x, steps)
    requires var before := steps[..|steps| - 1]; Remembers(fold, x, LogOf(fold, profiles, before), Entries(x, before))
    ensures Remembers(fold, x, LogOf(fold, profiles, steps), Entries(x, steps))
  {
    hide Remembers, IsScope, IsNewTurn, Without, CommitAll, Start, AreCandidates, CoreSet, TurnIds;
    var before, last := steps[..|steps| - 1], steps[|steps| - 1];
    var log, live := LogOf(fold, profiles, before), Entries(x, before);
    match last
    case Plain(CommitTurn(t)) =>
      if t.session in x.Sessions() {
        NewTurnRemembered(fold, profiles, x, log, live, t);
      } else {
        NewIsUnseen(log, Turns(live), t);
        ForeignCommitRemembered(fold, profiles, x, log, live, t);
      }
    case Plain(RetractTurn(id)) =>
      HidingIsRemembered(fold, x, log, live, id);
    case Retry(lower, upper, again) =>
      hide Apply, MayRetry, Take;
      if upper.session in x.Sessions() {
        RetryRemembered(fold, profiles, x, log, live, lower, upper, again);
      } else {
        ForeignRetryRemembered(fold, profiles, x, log, live, lower, upper, again);
      }
  }

  lemma {:induction false} HistoryIsRemembered(fold: Fold, profiles: map<string, string>, x: Scope, steps: seq<Step>)
    requires IsScope(x, profiles) && IsHistory(fold, profiles, x, steps)
    ensures Remembers(fold, x, LogOf(fold, profiles, steps), Entries(x, steps))
  {
    hide Remembers, IsScope;
    if steps == [] {
      NothingToRemember(fold, x);
    } else {
      HistoryIsRemembered(fold, profiles, x, steps[..|steps| - 1]);
      StepRemembered(fold, profiles, x, steps);
    }
  }

  lemma NothingToRemember(fold: Fold, x: Scope)
    ensures Remembers(fold, x, Log([], {}), [])
  {
    assert CoreSet([]) == {} && Turns([]) == [];
  }

  // ----- one row for each id -----

  lemma CommitKeepsRows(fold: Fold, profiles: map<string, string>, log: Log, t: Turn)
    requires OneRowPerId(log.facts) && AreCandidates(log.facts, t.id, t.session, t.candidates)
    ensures OneRowPerId(Apply(fold, profiles, log, CommitTurn(t)).facts)
  {
    assert t.candidates[..|t.candidates|] == t.candidates;
    assert Start(log.facts, log.hidden, profiles, t.session).facts == log.facts;
    hide Start, CommitAll, OneRowPerId, AreCandidates;
    CommitAllKeepsRows(fold, Start(log.facts, log.hidden, profiles, t.session), t.id, t.session, t.candidates,
                       |t.candidates|);
  }

  lemma {:induction false} RunKeepsOneRow(fold: Fold, profiles: map<string, string>, x: Scope, steps: seq<Step>)
    requires IsHistory(fold, profiles, x, steps)
    ensures OneRowPerId(LogOf(fold, profiles, steps).facts)
  {
    hide OneRowPerId, Entries, SaysTheSame, Apply;
    if steps == [] {
      NoRows();
    } else {
      var before, last := steps[..|steps| - 1], steps[|steps| - 1];
      RunKeepsOneRow(fold, profiles, x, before);
      var log := LogOf(fold, profiles, before);
      match last
      case Plain(CommitTurn(t)) => CommitKeepsRows(fold, profiles, log, t);
      case Plain(RetractTurn(id)) => RetractKeepsRows(fold, profiles, log, id);
      case Retry(lower, upper, again) =>
        CommitKeepsRows(fold, profiles, log, upper);
        RetractKeepsRows(fold, profiles, Apply(fold, profiles, log, CommitTurn(upper)), lower);
        CommitKeepsRows(fold, profiles, Hidden(fold, profiles, log, lower, upper), again);
    }
  }

  lemma RetractKeepsRows(fold: Fold, profiles: map<string, string>, log: Log, id: string)
    ensures Apply(fold, profiles, log, RetractTurn(id)).facts == log.facts
  {
  }

  // ----- main results -----

  /** An active row of the key is the one that the visible turn `e` left. */
  ghost predicate IsLeftBy(fold: Fold, x: Scope, f: Fact, e: Entry, key: Key) {
    var stated := LatestOf(x, e.turn.candidates, key);
    f.key == key && f.sourceTurn == e.turn.id && stated.Some? && fold(f.value) == fold(stated.value)
  }

  /** The key's rows are those of the turns that stand: each has exactly one, and no other turn has any. */
  ghost predicate AreLeft(fold: Fold, x: Scope, live: seq<Entry>, active: seq<Fact>, key: Key) {
    && (forall f | f in active && f.key == key ::
          exists i :: 0 <= i < |live| && Stands(fold, x, live, i, key) && IsLeftBy(fold, x, f, live[i], key))
    && (forall i | 0 <= i < |live| && Stands(fold, x, live, i, key) ::
          exists f :: f in active && IsLeftBy(fold, x, f, live[i], key))
    && (forall f, g | f in active && g in active && f.key == key && g.key == key && f.sourceTurn == g.sourceTurn ::
          f == g)
  }

  /**
   After any history the active facts of a key are those of the turns that stand: each such turn
   has exactly one, with the value it stated last, and no other turn has any.
   */
  lemma ActiveFactsStand(fold: Fold, profiles: map<string, string>, x: Scope, steps: seq<Step>, key: Key)
    requires IsScope(x, profiles) && IsHistory(fold, profiles, x, steps)
    ensures AreLeft(fold, x, Entries(x, steps), ActiveFacts(x, LogOf(fold, profiles, steps)), key)
  {
    HistoryIsRemembered(fold, profiles, x, steps);
    RunKeepsOneRow(fold, profiles, x, steps);
    hide IsScope, IsHistory, LogOf, Entries;
    ActiveRowsStand(fold, x, LogOf(fold, profiles, steps), Entries(x, steps), key);
  }

  lemma ActiveRowsStand(fold: Fold, x: Scope, log: Log, live: seq<Entry>, key: Key)
    requires Remembers(fold, x, log, live) && OneRowPerId(log.facts)
    ensures AreLeft(fold, x, live, ActiveFacts(x, log), key)
  {
    hide Remembers, ActiveFacts, OneRowPerId, Stands, IsLeftBy;
    var active := ActiveFacts(x, log);
    forall f | f in active && f.key == key
      ensures exists i :: 0 <= i < |live| && Stands(fold, x, live, i, key) && IsLeftBy(fold, x, f, live[i], key)
    {
      var i := StandingOf(fold, x, log, live, f);
    }
    forall i | 0 <= i < |live| && Stands(fold, x, live, i, key)
      ensures exists f :: f in active && IsLeftBy(fold, x, f, live[i], key)
    {
      var f := RowOf(fold, x, log, live, i, key);
    }
    forall f, g | f in active && g in active && f.key == key && g.key == key && f.sourceTurn == g.sourceTurn
      ensures f == g
    {
      OneRowEach(fold, x, log, live, f, g);
    }
  }

  lemma ActiveIsShown(x: Scope, log: Log, live: seq<Turn>)
    requires Sound(x, log, live)
    ensures forall f ::
              f in ActiveFacts(x, log) <==> f in log.facts && x.Contains(f) && IsActive(Shown(x, log, live), CoreOf(f))
  {
    ActiveExactly(x, log, live);
    hide ActiveFacts, LogOk, Separated, VisibleAreLive, IsActive, CoreOf;
  }

  lemma StandingOf(fold: Fold, x: Scope, log: Log, live: seq<Entry>, f: Fact) returns (i: nat)
    requires Remembers(fold, x, log, live) && f in ActiveFacts(x, log)
    ensures i < |live| && CoreOf(f) in Own(x, CoreSet(log.facts), live[i])
    ensures IsCap(Own(x, CoreSet(log.facts), live[i]), f.key, CoreOf(f))
    ensures Stands(fold, x, live, i, f.key) && IsLeftBy(fold, x, f, live[i], f.key)
  {
    ActiveIsShown(x, log, Turns(live));
    SameCore(f, CoreOf(f));
    hide Sound, ActiveFacts, Shown, Own, CoreOf, Kept, CoreSet, Stands, IsCap, Turns;
    ShownIsOwned(x, log, live, CoreOf(f));
    ActiveIsIn(Shown(x, log, Turns(live)));
    var k :| 0 <= k < |live| && CoreOf(f) in Own(x, CoreSet(log.facts), live[k]);
    i := k;
    ActiveStands(fold, x, log, live, i, CoreOf(f));
    CapIsLeft(fold, x, CoreSet(log.facts), live, i, CoreOf(f));
  }

  lemma CapIsLeft(fold: Fold, x: Scope, cores: set<Fact>, live: seq<Entry>, i: nat, cap: Fact)
    requires i < |live| && Kept(fold, x, cores, live, cap.key) && Stands(fold, x, live, i, cap.key)
    requires IsCap(Own(x, cores, live[i]), cap.key, cap)
    ensures IsLeftBy(fold, x, cap, live[i], cap.key)
  {
    hide BaseOf, Records, LatestOf;
    assert EntryOk(fold, x, cores, live[i], cap.key);
    var own := Own(x, cores, live[i]);
    var other :| IsCap(own, cap.key, other)
                 && fold(other.value) == fold(LatestOf(x, live[i].turn.candidates, cap.key).value);
    OneCap(own, cap.key, other, cap);
  }

  lemma RowOf(fold: Fold, x: Scope, log: Log, live: seq<Entry>, i: nat, key: Key) returns (f: Fact)
    requires Remembers(fold, x, log, live) && i < |live| && Stands(fold, x, live, i, key)
    ensures f in ActiveFacts(x, log) && IsLeftBy(fold, x, f, live[i], key)
  {
    ActiveIsShown(x, log, Turns(live));
    var cores := CoreSet(log.facts);
    assert Kept(fold, x, cores, live, key) && EntryOk(fold, x, cores, live[i], key);
    var cap :| IsCap(Own(x, cores, live[i]), key, cap);
    CapIsAdded(Own(x, cores, live[i]), key, cap);
    ActiveStands(fold, x, log, live, i, cap);
    CapIsLeft(fold, x, cores, live, i, cap);
    hide Sound, ActiveFacts, Shown, Kept, Stands, IsCap, Turns, EntryOk, IsActive, Records;
    f :| f in log.facts && CoreOf(f) == cap;
    SameCore(f, cap);
    hide CoreOf;
  }

  lemma OneRowEach(fold: Fold, x: Scope, log: Log, live: seq<Entry>, f: Fact, g: Fact)
    requires Remembers(fold, x, log, live) && OneRowPerId(log.facts) && f in ActiveFacts(x, log)
    requires g in ActiveFacts(x, log)
    requires f.key == g.key && f.sourceTurn == g.sourceTurn
    ensures f == g
  {
    var i := StandingOf(fold, x, log, live, f);
    var j := StandingOf(fold, x, log, live, g);
    assert live[i].turn.id == live[j].turn.id;
    assert Own(x, CoreSet(log.facts), live[i]) == Own(x, CoreSet(log.facts), live[j]);
    ActiveIsShown(x, log, Turns(live));
    hide Remembers, ActiveFacts, Own, CoreSet, OneRowPerId, IsCap, CoreOf, Stands;
    OneCap(Own(x, CoreSet(log.facts), live[i]), f.key, CoreOf(f), CoreOf(g));
    SameCoreSameRow(log.facts, f, g);
  }

  ghost predicate HasTwo(facts: seq<Fact>, key: Key) {
    exists f, g :: f in facts && g in facts && f.key == key && g.key == key && f != g
  }

  ghost predicate TwoStand(fold: Fold, x: Scope, live: seq<Entry>, key: Key) {
    exists i, j :: 0 <= i < j < |live| && Stands(fold, x, live, i, key) && Stands(fold, x, live, j, key)
  }

  /** A key has two active facts exactly when two turns stand for it. */
  lemma TwoActiveExactly(fold: Fold, profiles: map<string, string>, x: Scope, steps: seq<Step>, key: Key)
    requires IsScope(x, profiles) && IsHistory(fold, profiles, x, steps)
    ensures HasTwo(ActiveFacts(x, LogOf(fold, profiles, steps)), key) <==> TwoStand(fold, x, Entries(x, steps), key)
  {
    hide IsScope, IsHistory, LogOf, Entries, Sound, Kept, InOrder, ActiveFacts, AreLeft, HasTwo, TwoStand;
    HistoryIsRemembered(fold, profiles, x, steps);
    ActiveFactsStand(fold, profiles, x, steps, key);
    TwoLeft(fold, x, Entries(x, steps), ActiveFacts(x, LogOf(fold, profiles, steps)), key);
  }

  lemma TwoLeft(fold: Fold, x: Scope, live: seq<Entry>, active: seq<Fact>, key: Key)
    requires AreLeft(fold, x, live, active, key) && DistinctTurns(Turns(live))
    ensures HasTwo(active, key) <==> TwoStand(fold, x, live, key)
  {
    hide AreLeft, HasTwo, TwoStand, DistinctTurns;
    if HasTwo(active, key) {
      TwoRowsStand(fold, x, live, active, key);
    }
    if TwoStand(fold, x, live, key) {
      StandingLeaveTwo(fold, x, live, active, key);
    }
  }

  lemma TwoRowsStand(fold: Fold, x: Scope, live: seq<Entry>, active: seq<Fact>, key: Key)
    requires AreLeft(fold, x, live, active, key) && HasTwo(active, key)
    ensures TwoStand(fold, x, live, key)
  {
    hide Stands;
    var f, g :| f in active && g in active && f.key == key && g.key == key && f != g;
    var i :| 0 <= i < |live| && Stands(fold, x, live, i, key) && IsLeftBy(fold, x, f, live[i], key);
    var j :| 0 <= j < |live| && Stands(fold, x, live, j, key) && IsLeftBy(fold, x, g, live[j], key);
    hide AreLeft;
    assert i != j;
    assert i < j || j < i;
  }

  lemma StandingLeaveTwo(fold: Fold, x: Scope, live: seq<Entry>, active: seq<Fact>, key: Key)
    requires AreLeft(fold, x, live, active, key) && DistinctTurns(Turns(live)) && TwoStand(fold, x, live, key)
    ensures HasTwo(active, key)
  {
    TwoTurns(live);
    hide Stands, DistinctTurns, Turns;
    var i, j :| 0 <= i < j < |live| && Stands(fold, x, live, i, key) && Stands(fold, x, live, j, key);
    var f :| f in active && IsLeftBy(fold, x, f, live[i], key);
    var g :| g in active && IsLeftBy(fold, x, g, live[j], key);
    assert f.sourceTurn != g.sourceTurn;
  }

  lemma TwoTurns(live: seq<Entry>)
    requires DistinctTurns(Turns(live))
    ensures forall i, j | 0 <= i < j < |live| :: live[i].turn.id != live[j].turn.id
  {
    assert forall i | 0 <= i < |live| :: Turns(live)[i].id == live[i].turn.id;
  }

  /** The program's dictionary holds what was said last; a key of which nothing was said has no active fact. */
  lemma IndexHoldsSaid(fold: Fold, profiles: map<string, string>, x: Scope, steps: seq<Step>, key: Key)
    requires IsScope(x, profiles) && IsHistory(fold, profiles, x, steps)
    ensures var log, said := LogOf(fold, profiles, steps), Said(fold, x, Entries(x, steps), key);
            var index, active := IndexByKey(Indexed(x, log)), ActiveFacts(x, log);
            if said.None? then forall f | f in active :: f.key != key
            else key in index && fold(index[key].value) == fold(said.value)
                 && exists f :: f in active && f.key == key && fold(f.value) == fold(said.value)
  {
    HistoryIsRemembered(fold, profiles, x, steps);
    hide IsScope, IsHistory, LogOf, Entries;
    var log, live := LogOf(fold, profiles, steps), Entries(x, steps);
    assert Kept(fold, x, CoreSet(log.facts), live, key);
    var top := LastIsTop(fold, x, log, live, key);
    hide Kept, LastRecorder, DistinctTurns;
    TopIsActive(fold, x, log, Turns(live), key, top, Said(fold, x, live, key));
  }

  lemma TopIsActive(fold: Fold, x: Scope, log: Log, live: seq<Turn>, key: Key, top: Option<Fact>, said: Option<string>)
    requires Sound(x, log, live) && InOrder(x, log.facts, live)
    requires TopIs(fold, Shown(x, log, live), live, key, top, said)
    ensures var active, index := ActiveFacts(x, log), IndexByKey(Indexed(x, log));
            if said.None? then forall f | f in active :: f.key != key
            else key in index && fold(index[key].value) == fold(said.value)
                 && exists f :: f in active && f.key == key && fold(f.value) == fold(said.value)
  {
    ActiveIsShown(x, log, live);
    ActiveIsIn(Shown(x, log, live));
    hide ActiveFacts, Sound, InOrder, Indexed, IndexByKey, TurnIds, Earlier;
    if top.Some? {
      IndexIsTop(x, log, live, key, top.value);
      SameCore(top.value, IndexByKey(Indexed(x, log))[key]);
      var f :| f in log.facts && CoreOf(f) == top.value;
      assert x.Contains(f) && f in ActiveFacts(x, log) && f.key == key && f.value == top.value.value;
    } else {
      forall f | f in ActiveFacts(x, log) ensures f.key != key {
        assert CoreOf(f) in Shown(x, log, live) && CoreOf(f).key == f.key;
      }
    }
  }

  // ----- what one turn changes -----

  /** Hiding the turn just committed restores the scope's facts exactly, confirmations aside. */
  lemma RetractionRestores(fold: Fold, profiles: map<string, string>, x: Scope, steps: seq<Step>, t: Turn)
    requires IsScope(x, profiles) && IsHistory(fold, profiles, x, steps)
    requires IsNewTurn(LogOf(fold, profiles, steps), Turns(Entries(x, steps)), t)
    ensures var before := LogOf(fold, profiles, steps);
            var after := Apply(fold, profiles, Apply(fold, profiles, before, CommitTurn(t)), RetractTurn(t.id));
            CoreSet(ActiveFacts(x, after)) == CoreSet(ActiveFacts(x, before))
  {
    HistoryIsRemembered(fold, profiles, x, steps);
    var before, turns := LogOf(fold, profiles, steps), Turns(Entries(x, steps));
    var middle := Apply(fold, profiles, before, CommitTurn(t));
    var after := Apply(fold, profiles, middle, RetractTurn(t.id));
    NewIsUnseen(before, turns, t);
    hide IsScope, IsHistory, LogOf, Entries, IsNewTurn, Kept, InOrder, CoreSet, ActiveFacts, DistinctTurns,
         AreCandidates, TurnIds, CommitAll, Start;
    CommitOfOther(fold, profiles, x, before, turns, t);
    hide Apply, Shown, IsActive, Sound;
    forall f ensures f in CoreSet(ActiveFacts(x, after)) <==> f in CoreSet(ActiveFacts(x, before)) {
      ActiveCoresAre(x, before, turns, f);
      ActiveCoresAre(x, after, turns, f);
    }
  }

  lemma ActiveCoresAre(x: Scope, log: Log, live: seq<Turn>, f: Fact)
    requires Sound(x, log, live)
    ensures f in CoreSet(ActiveFacts(x, log)) <==> IsActive(Shown(x, log, live), f)
  {
    ActiveCores(x, log, live, f);
  }

  /** A turn committed and hidden again leaves the facts shown as they were. */
  lemma CommitOfOther(fold: Fold, profiles: map<string, string>, x: Scope, log: Log, live: seq<Turn>, t: Turn)
    requires Sound(x, log, live) && DistinctTurns(live) && InOrder(x, log.facts, live) && IsScope(x, profiles)
    requires IsNewTurn(log, live, t)
    ensures var log' := Apply(fold, profiles, Apply(fold, profiles, log, CommitTurn(t)), RetractTurn(t.id));
            Sound(x, log', live) && Shown(x, log', live) == Shown(x, log, live)
  {
    NewIsUnseen(log, live, t);
    var log1 := Apply(fold, profiles, log, CommitTurn(t));
    if t.session in x.Sessions() {
      NewTurnIsReady(x, log, live, t);
      hide IsScope, IsNewTurn, AreCandidates, InOrder, DistinctTurns, CommitAll, Start;
      CommitGains(fold, profiles, x, log, live + [t], t);
      TurnIdsOfPrefix(live + [t], |live|);
      assert (live + [t])[..|live|] == live;
      HidingIsSound(x, log1, live + [t], live, t.id);
      SameShown(x, log, log1, live, t.id);
    } else {
      hide IsScope, IsNewTurn, InOrder, DistinctTurns, CommitAll, Start;
      ForeignGains(fold, profiles, x, log, live, t);
      HidingIsSound(x, log1, live, live, t.id);
      SameShown(x, log, log1, live, t.id);
    }
  }

  lemma SameShown(x: Scope, log: Log, log': Log, live: seq<Turn>, turn: string)
    requires CoreSet(log.facts) <= CoreSet(log'.facts) && turn !in TurnIds(live)
    requires forall g | g in CoreSet(log'.facts) - CoreSet(log.facts) :: !x.Contains(g) || g.sourceTurn == turn
    ensures Shown(x, log', live) == Shown(x, log, live)
  {
    hide CoreSet, TurnIds;
    assert forall g | g in CoreSet(log'.facts) ::
             g in CoreSet(log.facts) || g in CoreSet(log'.facts) - CoreSet(log.facts);
  }

  /** The turn gives no key a value other than the one said. */
  ghost predicate OnlyRepeats(fold: Fold, x: Scope, live: seq<Entry>, t: Turn) {
    forall key :: !RecordsFirst(fold, x, Once(t, live), key)
  }

  /** A turn leaves the active facts as they were, confirmations aside, exactly when it only repeats what was said. */
  lemma OnlyRepetitionChangesNothing(fold: Fold, profiles: map<string, string>, x: Scope, steps: seq<Step>, t: Turn)
    requires IsScope(x, profiles) && IsHistory(fold, profiles, x, steps) && t.session in x.Sessions()
    requires IsNewTurn(LogOf(fold, profiles, steps), Turns(Entries(x, steps)), t)
    ensures var before, live := LogOf(fold, profiles, steps), Entries(x, steps);
            var after := Apply(fold, profiles, before, CommitTurn(t));
            CoreSet(ActiveFacts(x, after)) == CoreSet(ActiveFacts(x, before)) <==> OnlyRepeats(fold, x, live, t)
  {
    hide Remembers, IsScope, IsHistory, LogOf, Entries, IsNewTurn, ActiveFacts, Apply, OnlyRepeats;
    HistoryIsRemembered(fold, profiles, x, steps);
    OnlyRepetitionOnLog(fold, profiles, x, LogOf(fold, profiles, steps), Entries(x, steps), t);
  }

  lemma OnlyRepetitionOnLog(fold: Fold, profiles: map<string, string>, x: Scope, log: Log, live: seq<Entry>, t: Turn)
    requires Remembers(fold, x, log, live) && IsScope(x, profiles) && IsNewTurn(log, Turns(live), t)
    requires t.session in x.Sessions()
    ensures var after := Apply(fold, profiles, log, CommitTurn(t));
            CoreSet(ActiveFacts(x, after)) == CoreSet(ActiveFacts(x, log)) <==> OnlyRepeats(fold, x, live, t)
  {
    hide IsScope, IsNewTurn, Kept, InOrder, Sound, CoreSet, ActiveFacts, DistinctTurns, Apply, RecordsFirst, Shown,
         Gained, IsActive, Recorded, TurnIds;
    var log', turns := Apply(fold, profiles, log, CommitTurn(t)), Turns(live) + [t];
    CommitShowsMore(fold, profiles, x, log, live, t);
    var visible, added := Shown(x, log, turns), Gained(x, log, log', t.id);
    forall key ensures Recorded(added, key) <==> RecordsFirst(fold, x, Once(t, live), key) {
      GainedIsRecorded(fold, profiles, x, log, live, t, key);
    }
    forall f ensures f in CoreSet(ActiveFacts(x, log)) <==> IsActive(visible, f) {
      ActiveCoresAre(x, log, Turns(live), f);
    }
    forall f ensures f in CoreSet(ActiveFacts(x, log')) <==> IsActive(visible + added, f) {
      ActiveCoresAre(x, log', turns, f);
    }
    var before, after := CoreSet(ActiveFacts(x, log)), CoreSet(ActiveFacts(x, log'));
    if key :| Recorded(added, key) {
      var cap := NewActive(fold, profiles, x, log, live, t, key);
      ActiveIsIn(visible);
      assert cap in after && cap !in before;
      assert RecordsFirst(fold, x, Once(t, live), key);
    } else {
      NothingRecorded(added);
      assert visible + added == visible;
      assert after == before;
    }
  }

  lemma CommitShowsMore(fold: Fold, profiles: map<string, string>, x: Scope, log: Log, live: seq<Entry>, t: Turn)
    requires Remembers(fold, x, log, live) && IsScope(x, profiles) && IsNewTurn(log, Turns(live), t)
    requires t.session in x.Sessions()
    ensures var log', turns := Apply(fold, profiles, log, CommitTurn(t)), Turns(live) + [t];
            && Sound(x, log', turns) && Shown(x, log, turns) == Shown(x, log, Turns(live))
            && Shown(x, log', turns) == Shown(x, log, turns) + Gained(x, log, log', t.id)
  {
    NewTurnIsReady(x, log, Turns(live), t);
    hide IsScope, IsNewTurn, Kept, InOrder, Sound, CoreSet, DistinctTurns, AreCandidates, Apply, Shown, Gained, TurnIds;
    CommitGains(fold, profiles, x, log, Turns(live) + [t], t);
  }

  lemma GainedIsRecorded(fold: Fold, profiles: map<string, string>, x: Scope, log: Log, live: seq<Entry>, t: Turn,
                         key: Key)
    requires Remembers(fold, x, log, live) && IsScope(x, profiles) && IsNewTurn(log, Turns(live), t)
    requires t.session in x.Sessions()
    ensures var added := Gained(x, log, Apply(fold, profiles, log, CommitTurn(t)), t.id);
            Recorded(added, key) <==> RecordsFirst(fold, x, Once(t, live), key)
  {
    NewTurnKeeps(fold, profiles, x, log, live, t, key);
    NewTurnIsReady(x, log, Turns(live), t);
    OwnOfNew(fold, profiles, x, log, live, t);
    var log', e := Apply(fold, profiles, log, CommitTurn(t)), Once(t, live);
    hide Kept, Apply, IsScope, IsNewTurn, Own, Gained, RecordsFirst, HasCap, Alters, LinkOk, CoreSet;
    KeptLast(fold, x, CoreSet(log'.facts), live, e, key);
  }

  /** What was recorded has an active fact that was not there before. */
  lemma NewActive(fold: Fold, profiles: map<string, string>, x: Scope, log: Log, live: seq<Entry>, t: Turn, key: Key)
    returns (cap: Fact)
    requires Remembers(fold, x, log, live) && IsScope(x, profiles) && IsNewTurn(log, Turns(live), t)
    requires t.session in x.Sessions()
    requires var turns, log' := Turns(live) + [t], Apply(fold, profiles, log, CommitTurn(t));
             Recorded(Gained(x, log, log', t.id), key)
    ensures var turns, added := Turns(live) + [t], Gained(x, log, Apply(fold, profiles, log, CommitTurn(t)), t.id);
            IsActive(Shown(x, log, turns) + added, cap) && cap !in Shown(x, log, turns)
  {
    NewTurnIsReady(x, log, Turns(live), t);
    NewIsUnseen(log, Turns(live), t);
    hide Sound, InOrder, DistinctTurns, IsScope, AreCandidates, Apply, IndexByKey, Indexed, Gained, Shown, Tells,
         Alters, Kept, CoreSet;
    var log', turns := Apply(fold, profiles, log, CommitTurn(t)), Turns(live) + [t];
    var visible, added := Shown(x, log, turns), Gained(x, log, log', t.id);
    CommitLays(fold, profiles, x, log, turns, t, key);
    CommitGains(fold, profiles, x, log, turns, t);
    var base := Base(IndexByKey(Indexed(x, log)), added, key);
    OverHasCap(visible, added, key, base);
    cap :| IsCap(added, key, cap);
    CapIsAdded(added, key, cap);
    hide Base, IsCap;
    AddedOver(visible, added, key, base, cap);
  }
}
