/**
 Histories in which only the scope's latest turn is retracted or retried. Every key then shows
 the latest value its visible turns state, and a second fact stays active exactly where a
 replaced turn had changed a key and its replacement changed it again.
 */
module RetryRuns {
  import opened Wrappers
  import opened ConversationFacts
  import opened FactRefinement
  import opened FactLog
  import opened FactChanges
  import opened FactRetries
  import opened FactOrder
  import opened FactCommits
  import opened FactHistory

  /** What is hidden is the scope's latest visible turn, or none of the scope's. */
  ghost predicate HidesLast(live: seq<Entry>, id: string) {
    id in TurnIds(Turns(live)) ==> live[|live| - 1].turn.id == id
  }

  ghost predicate IsOrderly(x: Scope, steps: seq<Step>) {
    steps == []
    || (var live := Entries(x, steps[..|steps| - 1]);
        && IsOrderly(x, steps[..|steps| - 1])
        && match steps[|steps| - 1]
           case Plain(CommitTurn(_)) => true
           case Plain(RetractTurn(id)) => HidesLast(live, id)
           case Retry(lower, upper, _) =>
             HidesLast(live, lower) && (upper.session in x.Sessions() ==> lower in TurnIds(Turns(live))))
  }

  // ----- which turns leave a second fact active -----

  /** The answer that a retried one replaced. */
  function Replaced(e: Entry): Entry
    requires e.seen != []
  {
    e.seen[|e.seen| - 1]
  }

  /** The turn gives the key another value, in one of its commits. */
  ghost predicate Gives(fold: Fold, x: Scope, before: seq<Turn>, e: Entry, key: Key) {
    || (e.Twice? && e.seen != [] && Changes(fold, x, before + [Replaced(e).turn], e.turn, key))
    || Changes(fold, x, before, e.turn, key)
  }

  /** The key had a value, the lower turn changed it, and the upper one changed it again. */
  ghost predicate ChangesTwice(fold: Fold, x: Scope, before: seq<Turn>, lower: Entry, upper: Turn, key: Key) {
    && Latest(x, before, key).Some? && Gives(fold, x, before, lower, key)
    && Changes(fold, x, before + [lower.turn], upper, key)
  }

  /** The turn replaced another, and both changed the key. */
  ghost predicate Breaks(fold: Fold, x: Scope, before: seq<Turn>, e: Entry, key: Key) {
    e.Twice? && e.seen != [] && ChangesTwice(fold, x, before, Replaced(e), e.turn, key)
  }

  ghost predicate SomeBreaks(fold: Fold, x: Scope, live: seq<Entry>, key: Key) {
    live != []
    && (SomeBreaks(fold, x, live[..|live| - 1], key)
        || Breaks(fold, x, Turns(live[..|live| - 1]), live[|live| - 1], key))
  }

  // ----- the entries of an orderly history -----

  /** Every turn saw those before it, and a retried answer also the one it replaced. */
  ghost predicate Layered(live: seq<Entry>)
    decreases live
  {
    live == []
    || (var before, last := live[..|live| - 1], live[|live| - 1];
        && Layered(before)
        && if last.Once? then last.seen == before
           else last.left == before && last.seen != [] && last.seen[..|last.seen| - 1] == before
                && Layered(last.seen) && DistinctTurns(Turns(last.seen)))
  }

  lemma {:induction false} WithoutAbsent(live: seq<Entry>, id: string)
    requires id !in TurnIds(Turns(live))
    ensures Without(live, id) == live
  {
    if live != [] {
      var before, last := live[..|live| - 1], live[|live| - 1];
      assert live == before + [last];
      TurnsMore(before, last);
      hide TurnIds;
      WithoutAbsent(before, id);
    }
  }

  lemma WithoutLast(live: seq<Entry>, id: string)
    requires DistinctTurns(Turns(live)) && HidesLast(live, id)
    ensures Without(live, id) == if id in TurnIds(Turns(live)) then live[..|live| - 1] else live
  {
    if id in TurnIds(Turns(live)) {
      var before, last := live[..|live| - 1], live[|live| - 1];
      SplitLast(live);
      WithoutAbsent(before, id);
    } else {
      WithoutAbsent(live, id);
    }
  }

  lemma SplitLast(live: seq<Entry>)
    requires live != [] && DistinctTurns(Turns(live))
    ensures var before, last := live[..|live| - 1], live[|live| - 1];
            && Turns(live) == Turns(before) + [last.turn] && last.turn.id !in TurnIds(Turns(before))
            && DistinctTurns(Turns(before))
            && TurnIds(Turns(live)) == TurnIds(Turns(before)) + {last.turn.id}
  {
    var before, last := live[..|live| - 1], live[|live| - 1];
    assert live == before + [last];
    TurnsMore(before, last);
    assert forall i | 0 <= i < |before| ::
             Turns(live)[i] == before[i].turn && Turns(live)[i].id != Turns(live)[|before|].id;
  }

  lemma {:induction false} OrderlyIsLayered(fold: Fold, profiles: map<string, string>, x: Scope, steps: seq<Step>)
    requires IsScope(x, profiles) && IsHistory(fold, profiles, x, steps) && IsOrderly(x, steps)
    ensures Layered(Entries(x, steps))
  {
    if steps != [] {
      var before := steps[..|steps| - 1];
      OrderlyIsLayered(fold, profiles, x, before);
      HistoryIsRemembered(fold, profiles, x, before);
      hide IsScope, IsHistory, Sound, Kept, InOrder, DistinctTurns, HidesLast, TurnIds;
      OrderlyStep(x, steps);
    }
  }

  lemma OrderlyStep(x: Scope, steps: seq<Step>)
    requires steps != [] && IsOrderly(x, steps)
    requires var live := Entries(x, steps[..|steps| - 1]); Layered(live) && DistinctTurns(Turns(live))
    ensures Layered(Entries(x, steps))
  {
    var live := Entries(x, steps[..|steps| - 1]);
    hide DistinctTurns, TurnIds;
    match steps[|steps| - 1]
    case Plain(CommitTurn(t)) =>
      assert (live + [Once(t, live)])[..|live|] == live;
    case Plain(RetractTurn(id)) =>
      WithoutLast(live, id);
    case Retry(lower, upper, _) =>
      WithoutLast(live, lower);
      var left := Without(live, lower);
      assert (left + [Twice(upper, live, left)])[..|left|] == left;
  }

  // ----- what is said is the latest -----

  ghost predicate SameSaying(fold: Fold, a: Option<string>, b: Option<string>) {
    if a.Some? then b.Some? && fold(a.value) == fold(b.value) else b.None?
  }

  /** A turn that alters nothing repeats. */
  lemma {:induction false} UnalteredRepeats(fold: Fold, x: Scope, start: Option<string>, candidates: seq<Fact>,
                                            key: Key)
    requires !Alters(fold, x, start, candidates, key)
    ensures SameSaying(fold, Stated(x, start, candidates, key), start)
  {
    if candidates != [] {
      UnalteredRepeats(fold, x, start, candidates[..|candidates| - 1], key);
    }
  }

  lemma AltersFrom(fold: Fold, x: Scope, a: Option<string>, history: seq<Turn>, turn: Turn, key: Key)
    requires SameSaying(fold, a, Latest(x, history, key))
    ensures Alters(fold, x, a, turn.candidates, key) <==> Changes(fold, x, history, turn, key)
  {
    AltersUpToFold(fold, x, a, Latest(x, history, key), turn.candidates, key);
    TurnChanges(fold, x, history, turn, key);
    hide Alters, Changes, Latest;
  }

  lemma {:induction false} SaidIsLatest(fold: Fold, x: Scope, live: seq<Entry>, key: Key)
    requires Layered(live)
    ensures SameSaying(fold, Said(fold, x, live, key), Latest(x, Turns(live), key))
  {
    hide Turns, Said, Latest, DistinctTurns;
    if live == [] {
      NothingSaid(fold, x, key);
    } else {
      var before, last := live[..|live| - 1], live[|live| - 1];
      assert live == before + [last];
      TurnsMore(before, last);
      SaidIsLatest(fold, x, before, key);
      SaidMore(fold, x, before, last, key);
    }
  }

  lemma NothingSaid(fold: Fold, x: Scope, key: Key)
    ensures SameSaying(fold, Said(fold, x, [], key), Latest(x, Turns([]), key))
  {
  }

  /** What the last turn recorded is what it changed. */
  lemma LastGives(fold: Fold, x: Scope, live: seq<Entry>, key: Key)
    requires Layered(live) && live != []
    ensures var before, last := live[..|live| - 1], live[|live| - 1];
            && (Records(fold, x, last, key) <==> Gives(fold, x, Turns(before), last, key))
            && (last.Twice? ==>
                (RecordsFirst(fold, x, last, key) <==>
                 Changes(fold, x, Turns(before) + [Replaced(last).turn], last.turn, key)))
  {
    var before, last := live[..|live| - 1], live[|live| - 1];
    SaidIsLatest(fold, x, before, key);
    AltersFrom(fold, x, Said(fold, x, before, key), Turns(before), last.turn, key);
    if last.Twice? {
      SaidIsLatest(fold, x, last.seen, key);
      assert last.seen == before + [Replaced(last)];
      TurnsMore(before, Replaced(last));
      AltersFrom(fold, x, Said(fold, x, last.seen, key), Turns(before) + [Replaced(last).turn], last.turn, key);
    }
    hide Turns, Changes, DistinctTurns, Said, Alters, SameSaying;
  }

  /** One more turn says what it states, or what was said. */
  lemma SaidMore(fold: Fold, x: Scope, before: seq<Entry>, e: Entry, key: Key)
    requires SameSaying(fold, Said(fold, x, before, key), Latest(x, Turns(before), key))
    requires if e.Once? then e.seen == before else e.left == before
    ensures SameSaying(fold, Said(fold, x, before + [e], key), Latest(x, Turns(before) + [e.turn], key))
  {
    var said := Said(fold, x, before, key);
    RecorderOfMore(fold, x, before, e, key);
    LatestIsStated(x, Turns(before), e.turn, key);
    if Records(fold, x, e, key) {
      AltersStates(fold, x, Said(fold, x, e.seen, key), e.turn.candidates, key);
      AltersStates(fold, x, said, e.turn.candidates, key);
    } else {
      UnalteredRepeats(fold, x, said, e.turn.candidates, key);
    }
    hide Alters, LatestOf, LastRecorder, Latest;
  }

  // ----- which turns stand -----

  /** No turn rests on a later one, and no two turns share an id. */
  ghost predicate Grounded(fold: Fold, x: Scope, live: seq<Entry>, key: Key) {
    && (forall i, j | 0 <= i < |live| && 0 <= j < |live| && BaseOf(fold, x, live[i], key) == Some(live[j].turn.id) ::
          j < i)
    && forall i, j | 0 <= i < j < |live| :: live[i].turn.id != live[j].turn.id
  }

  lemma RememberedIsGrounded(fold: Fold, x: Scope, log: Log, live: seq<Entry>, key: Key)
    requires Remembers(fold, x, log, live)
    ensures Grounded(fold, x, live, key)
  {
    assert Kept(fold, x, CoreSet(log.facts), live, key);
    TwoTurns(live);
    hide BaseOf, EntryOk, LinkOk, Sound, InOrder, DistinctTurns;
  }

  lemma StandsMore(fold: Fold, x: Scope, before: seq<Entry>, e: Entry, key: Key)
    requires Grounded(fold, x, before + [e], key)
    ensures var live := before + [e];
            && (Stands(fold, x, live, |before|, key) <==> Records(fold, x, e, key))
            && forall i | 0 <= i < |before| ::
                 Stands(fold, x, live, i, key) <==>
                     Stands(fold, x, before, i, key) && BaseOf(fold, x, e, key) != Some(before[i].turn.id)
  {
    hide BaseOf, Records;
    var live := before + [e];
    assert live[|before|] == e && forall i | 0 <= i < |before| :: live[i] == before[i];
    forall i | 0 <= i < |before|
      ensures Stands(fold, x, live, i, key) <==>
                Stands(fold, x, before, i, key) && BaseOf(fold, x, e, key) != Some(before[i].turn.id)
    {
      if Stands(fold, x, live, i, key) {
        assert BaseOf(fold, x, live[|before|], key) != Some(live[i].turn.id);
        forall j | 0 <= j < |before| ensures BaseOf(fold, x, before[j], key) != Some(before[i].turn.id) {
          assert BaseOf(fold, x, live[j], key) != Some(live[i].turn.id);
        }
      }
    }
  }

  ghost predicate OneStands(fold: Fold, x: Scope, live: seq<Entry>, key: Key) {
    exists i :: 0 <= i < |live| && Stands(fold, x, live, i, key)
  }

  /** A turn that recorded nothing leaves the standing ones as they were. */
  lemma IdleStands(fold: Fold, x: Scope, before: seq<Entry>, e: Entry, key: Key)
    requires Grounded(fold, x, before + [e], key) && !Records(fold, x, e, key)
    ensures TwoStand(fold, x, before + [e], key) <==> TwoStand(fold, x, before, key)
  {
    StandsMore(fold, x, before, e, key);
    BaseMeansRecords(fold, x, e, key);
    hide BaseOf, Records, Grounded, Stands;
    if TwoStand(fold, x, before, key) {
      var i, j :| 0 <= i < j < |before| && Stands(fold, x, before, i, key) && Stands(fold, x, before, j, key);
      assert Stands(fold, x, before + [e], i, key) && Stands(fold, x, before + [e], j, key);
    }
  }

  /** A turn that takes the place of a standing one leaves their number as it was. */
  lemma ReplacingStands(fold: Fold, x: Scope, before: seq<Entry>, e: Entry, m: nat, key: Key)
    requires Grounded(fold, x, before + [e], key) && Records(fold, x, e, key)
    requires m < |before| && Stands(fold, x, before, m, key) && BaseOf(fold, x, e, key) == Some(before[m].turn.id)
    ensures TwoStand(fold, x, before + [e], key) <==> TwoStand(fold, x, before, key)
  {
    StandsMore(fold, x, before, e, key);
    var live := before + [e];
    assert forall i | 0 <= i < |before| && i != m :: before[i].turn.id != before[m].turn.id by {
      assert forall i | 0 <= i < |before| :: live[i] == before[i];
    }
    hide BaseOf, Records, Grounded, Stands;
    if TwoStand(fold, x, before, key) {
      var i, j :| 0 <= i < j < |before| && Stands(fold, x, before, i, key) && Stands(fold, x, before, j, key);
      var k := if i == m then j else i;
      assert Stands(fold, x, live, k, key) && Stands(fold, x, live, |before|, key);
    }
    if TwoStand(fold, x, live, key) {
      var i, j :| 0 <= i < j < |live| && Stands(fold, x, live, i, key) && Stands(fold, x, live, j, key);
      assert i < |before| && i != m;
      assert Stands(fold, x, before, i, key) && (i < m || m < i);
    }
  }

  /** A turn that rests on none of the others stands beside all of them. */
  lemma FreeStands(fold: Fold, x: Scope, before: seq<Entry>, e: Entry, key: Key)
    requires Grounded(fold, x, before + [e], key) && Records(fold, x, e, key)
    requires forall i | 0 <= i < |before| :: BaseOf(fold, x, e, key) != Some(before[i].turn.id)
    ensures TwoStand(fold, x, before + [e], key) <==> OneStands(fold, x, before, key)
  {
    StandsMore(fold, x, before, e, key);
    hide BaseOf, Records, Grounded, Stands;
    var live := before + [e];
    if i :| 0 <= i < |before| && Stands(fold, x, before, i, key) {
      assert Stands(fold, x, live, i, key) && Stands(fold, x, live, |before|, key);
    }
    if TwoStand(fold, x, live, key) {
      var i, j :| 0 <= i < j < |live| && Stands(fold, x, live, i, key) && Stands(fold, x, live, j, key);
      assert Stands(fold, x, before, i, key);
    }
  }

  /** The last recorder stands; without one no turn does. */
  lemma RecorderStands(fold: Fold, x: Scope, live: seq<Entry>, key: Key) returns (m: int)
    requires Grounded(fold, x, live, key)
    ensures -1 <= m < |live| && LastRecorder(fold, x, live, key) == (if m >= 0 then Some(live[m]) else None)
    ensures m >= 0 ==> Stands(fold, x, live, m, key)
    ensures OneStands(fold, x, live, key) <==> m >= 0
  {
    m := LastRecorderIs(fold, x, live, key);
    hide BaseOf, Records, LastRecorder;
    if m >= 0 {
      forall j | 0 <= j < |live| ensures BaseOf(fold, x, live[j], key) != Some(live[m].turn.id) {
        BaseMeansRecords(fold, x, live[j], key);
      }
    }
  }

  lemma GroundedPrefix(fold: Fold, x: Scope, before: seq<Entry>, e: Entry, key: Key)
    requires Grounded(fold, x, before + [e], key)
    ensures Grounded(fold, x, before, key)
  {
    hide BaseOf;
    var live := before + [e];
    assert forall i | 0 <= i < |before| :: live[i] == before[i];
  }

  /** A turn over the last recorder takes its place; over nothing it is the only one. */
  lemma OverRecorder(fold: Fold, x: Scope, before: seq<Entry>, e: Entry, key: Key)
    requires Grounded(fold, x, before + [e], key) && Records(fold, x, e, key)
    requires BaseOf(fold, x, e, key) == IdOf(LastRecorder(fold, x, before, key))
    ensures TwoStand(fold, x, before + [e], key) <==> TwoStand(fold, x, before, key)
  {
    GroundedPrefix(fold, x, before, e, key);
    var m := RecorderStands(fold, x, before, key);
    hide BaseOf, Records, Grounded, Stands, LastRecorder;
    if m >= 0 {
      ReplacingStands(fold, x, before, e, m, key);
    } else {
      FreeStands(fold, x, before, e, key);
      assert TwoStand(fold, x, before, key) ==> OneStands(fold, x, before, key);
    }
  }

  lemma SaidByRecorder(fold: Fold, x: Scope, live: seq<Entry>, key: Key)
    ensures LastRecorder(fold, x, live, key).Some? <==> Said(fold, x, live, key).Some?
  {
    var m := LastRecorderIs(fold, x, live, key);
    if m >= 0 {
      AltersStates(fold, x, Said(fold, x, live[m].seen, key), live[m].turn.candidates, key);
      if live[m].Twice? {
        AltersStates(fold, x, Said(fold, x, live[m].left, key), live[m].turn.candidates, key);
      }
    }
    hide Alters, LatestOf, LastRecorder;
  }

  /** A turn that recorded the key over an answer hidden since: two stand if that answer had changed a value. */
  lemma OverAnswer(fold: Fold, x: Scope, before: seq<Entry>, lower: Entry, e: Entry, key: Key)
    requires e.seen == before + [lower] && Layered(before + [lower]) && DistinctTurns(Turns(before + [lower]))
    requires Grounded(fold, x, before + [e], key) && RecordsFirst(fold, x, e, key)
    ensures TwoStand(fold, x, before + [e], key) <==>
            TwoStand(fold, x, before, key)
              || (Latest(x, Turns(before), key).Some? && Gives(fold, x, Turns(before), lower, key))
  {
    var seen := before + [lower];
    assert seen[..|before|] == before;
    LastGives(fold, x, seen, key);
    RecorderOfMore(fold, x, before, lower, key);
    SplitLast(seen);
    assert Records(fold, x, e, key) && BaseOf(fold, x, e, key) == IdOf(LastRecorder(fold, x, seen, key));
    hide RecordsFirst, BaseOf, Gives, Layered, DistinctTurns, Latest, LastRecorder;
    if Records(fold, x, lower, key) {
      hide Records, Grounded;
      OverHidden(fold, x, before, lower, e, key);
    } else {
      hide Records, Grounded;
      OverRecorder(fold, x, before, e, key);
    }
  }

  lemma OverHidden(fold: Fold, x: Scope, before: seq<Entry>, lower: Entry, e: Entry, key: Key)
    requires Layered(before) && Grounded(fold, x, before + [e], key) && Records(fold, x, e, key)
    requires BaseOf(fold, x, e, key) == Some(lower.turn.id) && lower.turn.id !in TurnIds(Turns(before))
    ensures TwoStand(fold, x, before + [e], key) <==>
              TwoStand(fold, x, before, key) || Latest(x, Turns(before), key).Some?
  {
    forall i | 0 <= i < |before| ensures before[i].turn.id != lower.turn.id {
      TurnIsListed(before, i);
    }
    hide TurnIds, BaseOf, Records, Layered, Grounded, Latest, LastRecorder, Stands, Said;
    FreeStands(fold, x, before, e, key);
    GroundedPrefix(fold, x, before, e, key);
    var m := RecorderStands(fold, x, before, key);
    SaidByRecorder(fold, x, before, key);
    SaidIsLatest(fold, x, before, key);
    assert TwoStand(fold, x, before, key) ==> OneStands(fold, x, before, key);
  }

  lemma {:induction false} TwoStandIsBreaks(fold: Fold, x: Scope, live: seq<Entry>, key: Key)
    requires Layered(live) && Grounded(fold, x, live, key)
    ensures TwoStand(fold, x, live, key) <==> SomeBreaks(fold, x, live, key)
  {
    if live != [] {
      var before, last := live[..|live| - 1], live[|live| - 1];
      assert live == before + [last];
      GroundedPrefix(fold, x, before, last, key);
      TwoStandIsBreaks(fold, x, before, key);
      BreaksOver(fold, x, before, last, key);
      hide TwoStand, Breaks, Layered, Grounded;
    }
  }

  lemma BreaksOver(fold: Fold, x: Scope, before: seq<Entry>, e: Entry, key: Key)
    requires Layered(before + [e]) && Grounded(fold, x, before + [e], key)
    ensures TwoStand(fold, x, before + [e], key) <==>
              TwoStand(fold, x, before, key) || Breaks(fold, x, Turns(before), e, key)
  {
    var live := before + [e];
    assert live[..|before|] == before;
    LastGives(fold, x, live, key);
    hide TwoStand, Grounded, Gives, Changes, Latest, DistinctTurns;
    if e.Twice? && RecordsFirst(fold, x, e, key) {
      assert e.seen == before + [Replaced(e)];
      hide RecordsFirst;
      OverAnswer(fold, x, before, Replaced(e), e, key);
    } else if Records(fold, x, e, key) {
      assert BaseOf(fold, x, e, key) == IdOf(LastRecorder(fold, x, before, key));
      hide RecordsFirst, BaseOf, LastRecorder, Records;
      OverRecorder(fold, x, before, e, key);
    } else {
      hide RecordsFirst;
      IdleStands(fold, x, before, e, key);
    }
  }

  // ----- main results -----

  lemma {:induction false} SomeBreaksAt(fold: Fold, x: Scope, live: seq<Entry>, key: Key)
    ensures SomeBreaks(fold, x, live, key) <==>
              exists i :: 0 <= i < |live| && Breaks(fold, x, Turns(live[..i]), live[i], key)
  {
    hide Breaks;
    if live != [] {
      var n := |live| - 1;
      SomeBreaksAt(fold, x, live[..n], key);
      assert forall i | 0 <= i < n :: live[..n][..i] == live[..i] && live[..n][i] == live[i];
      if SomeBreaks(fold, x, live[..n], key) {
        var i :| 0 <= i < n && Breaks(fold, x, Turns(live[..n][..i]), live[..n][i], key);
        assert Breaks(fold, x, Turns(live[..i]), live[i], key);
      }
      if i :| 0 <= i < |live| && Breaks(fold, x, Turns(live[..i]), live[i], key) {
        assert i < n ==> Breaks(fold, x, Turns(live[..n][..i]), live[..n][i], key);
      }
    }
  }

  /**
   After any orderly history with retries a key shows the latest value of the visible turns, in
   some active fact and in the program's dictionary. It has a second active fact exactly when
   some visible turn replaced another, the key had a value before both, the replaced turn had
   changed it, and the replacement changed it again.
   */
  lemma RetriesShowTheLatest(fold: Fold, profiles: map<string, string>, x: Scope, steps: seq<Step>, key: Key)
    requires IsScope(x, profiles) && IsHistory(fold, profiles, x, steps) && IsOrderly(x, steps)
    ensures var log, live := LogOf(fold, profiles, steps), Entries(x, steps);
            var active, index, latest := ActiveFacts(x, log), IndexByKey(Indexed(x, log)), Latest(x, Turns(live), key);
            && (if latest.None? then forall f | f in active :: f.key != key
                else (exists f :: f in active && f.key == key && fold(f.value) == fold(latest.value))
                     && key in index && fold(index[key].value) == fold(latest.value))
            && (HasTwo(active, key) <==> exists i :: 0 <= i < |live| && Breaks(fold, x, Turns(live[..i]), live[i], key))
  {
    hide IsHistory, IsOrderly, LogOf, Entries, Latest, Said, Breaks, SomeBreaks, IsScope, Remembers, Indexed,
         IndexByKey, HasTwo, TwoStand, Layered, Grounded, ActiveFacts;
    var log, live := LogOf(fold, profiles, steps), Entries(x, steps);
    HistoryIsRemembered(fold, profiles, x, steps);
    OrderlyIsLayered(fold, profiles, x, steps);
    RememberedIsGrounded(fold, x, log, live, key);
    TwoActiveExactly(fold, profiles, x, steps, key);
    TwoStandIsBreaks(fold, x, live, key);
    SomeBreaksAt(fold, x, live, key);
    SaidIsLatest(fold, x, live, key);
    IndexHoldsSaid(fold, profiles, x, steps, key);
  }

  ghost predicate NothingRetried(steps: seq<Step>) {
    forall s | s in steps :: s.Plain?
  }

  lemma {:induction false} PlainEntries(x: Scope, steps: seq<Step>)
    requires NothingRetried(steps)
    ensures forall e | e in Entries(x, steps) :: e.Once?
  {
    if steps != [] {
      var before := steps[..|steps| - 1];
      PlainEntries(x, before);
      assert steps[|steps| - 1] in steps && forall s | s in before :: s in steps;
      match steps[|steps| - 1]
      case Plain(CommitTurn(t)) =>
      case Plain(RetractTurn(id)) =>
        WithoutHolds(Entries(x, before), id);
      case _ =>
    }
  }

  lemma {:induction false} WithoutHolds(live: seq<Entry>, id: string)
    ensures forall e | e in Without(live, id) :: e in live
  {
    if live != [] {
      WithoutHolds(live[..|live| - 1], id);
    }
  }

  /**
   Without retries a key that some visible turn stated has exactly one active fact, whose value is
   the latest stated one up to letter case; other keys have none.
   */
  lemma ActiveFactsAreTheLatest(fold: Fold, profiles: map<string, string>, x: Scope, steps: seq<Step>, key: Key)
    requires IsScope(x, profiles) && IsHistory(fold, profiles, x, steps) && IsOrderly(x, steps) && NothingRetried(steps)
    ensures var active, latest := ActiveFacts(x, LogOf(fold, profiles, steps)),
                                  Latest(x, Turns(Entries(x, steps)), key);
            if latest.None? then forall f | f in active :: f.key != key
            else && (exists f :: f in active && f.key == key && fold(f.value) == fold(latest.value))
                 && forall f, g | f in active && g in active && f.key == key && g.key == key :: f == g
  {
    hide IsHistory, IsOrderly, LogOf, Entries, Latest, IsScope, NothingRetried, ActiveFacts, ChangesTwice;
    PlainEntries(x, steps);
    RetriesShowTheLatest(fold, profiles, x, steps, key);
    assert !HasTwo(ActiveFacts(x, LogOf(fold, profiles, steps)), key) by {
      var live := Entries(x, steps);
      assert forall i | 0 <= i < |live| :: live[i] in live;
    }
  }

  // ----- halfway through a retry -----

  lemma HalfwaySteps(fold: Fold, profiles: map<string, string>, x: Scope, steps: seq<Step>, lower: string, upper: Turn)
    requires IsHistory(fold, profiles, x, steps) && upper.session in x.Sessions()
    requires IsNewTurn(LogOf(fold, profiles, steps), Turns(Entries(x, steps)), upper)
    ensures var half, live := steps + [Plain(CommitTurn(upper))] + [Plain(RetractTurn(lower))], Entries(x, steps);
            && IsHistory(fold, profiles, x, half)
            && LogOf(fold, profiles, half) == Hidden(fold, profiles, LogOf(fold, profiles, steps), lower, upper)
            && Entries(x, half) == Without(live + [Once(upper, live)], lower)
  {
    var one := steps + [Plain(CommitTurn(upper))];
    var half := one + [Plain(RetractTurn(lower))];
    assert one[..|steps|] == steps && half[..|one|] == one;
    hide IsNewTurn, Apply, Without, Turns;
    assert IsHistory(fold, profiles, x, one)
           && LogOf(fold, profiles, one) == Apply(fold, profiles, LogOf(fold, profiles, steps), CommitTurn(upper));
  }

  /**
   Once a retried answer is hidden, before the second commit, a key has two active facts exactly
   when it had two beneath that answer, or the answer changed a value it had and the replacement
   changed it again.
   */
  lemma HidingBeneathLeavesTwo(fold: Fold, profiles: map<string, string>, x: Scope, steps: seq<Step>, upper: Turn,
                               key: Key)
    requires IsScope(x, profiles) && IsHistory(fold, profiles, x, steps) && IsOrderly(x, steps)
    requires upper.session in x.Sessions()
    requires Entries(x, steps) != [] && IsNewTurn(LogOf(fold, profiles, steps), Turns(Entries(x, steps)), upper)
    ensures var log, live := LogOf(fold, profiles, steps), Entries(x, steps);
            var before, lower := live[..|live| - 1], live[|live| - 1];
            HasTwo(ActiveFacts(x, Hidden(fold, profiles, log, lower.turn.id, upper)), key) <==>
              SomeBreaks(fold, x, before, key) || ChangesTwice(fold, x, Turns(before), lower, upper, key)
  {
    hide IsHistory, IsOrderly, LogOf, Entries, IsScope, IsNewTurn, Remembers, HasTwo, TwoStand, ActiveFacts, Hidden,
         SomeBreaks, ChangesTwice;
    var log, live := LogOf(fold, profiles, steps), Entries(x, steps);
    var before, lower := live[..|live| - 1], live[|live| - 1];
    var half := steps + [Plain(CommitTurn(upper))] + [Plain(RetractTurn(lower.turn.id))];
    assert live == before + [lower];
    HalfwaySteps(fold, profiles, x, steps, lower.turn.id, upper);
    HistoryIsRemembered(fold, profiles, x, steps);
    HistoryIsRemembered(fold, profiles, x, half);
    OrderlyIsLayered(fold, profiles, x, steps);
    TwoActiveExactly(fold, profiles, x, half, key);
    HalfwayEntries(fold, x, log, live, upper) by { NewIsUnseen(log, Turns(live), upper); }
    RememberedIsGrounded(fold, x, LogOf(fold, profiles, half), Entries(x, half), key);
    HalfwayStands(fold, x, before, lower, upper, key) by { RememberedTurns(fold, x, log, live); }
  }

  lemma RememberedTurns(fold: Fold, x: Scope, log: Log, live: seq<Entry>)
    requires Remembers(fold, x, log, live)
    ensures DistinctTurns(Turns(live))
  {
  }

  lemma HalfwayEntries(fold: Fold, x: Scope, log: Log, live: seq<Entry>, upper: Turn)
    requires Remembers(fold, x, log, live) && live != [] && upper.id !in TurnIds(Turns(live))
    ensures Without(live + [Once(upper, live)], live[|live| - 1].turn.id) == live[..|live| - 1] + [Once(upper, live)]
  {
    hide Sound, Kept, InOrder, DistinctTurns;
    TurnIsListed(live, |live| - 1);
    WithoutMore(live, Once(upper, live), live[|live| - 1].turn.id);
    WithoutLast(live, live[|live| - 1].turn.id);
  }

  lemma HalfwayStands(fold: Fold, x: Scope, before: seq<Entry>, lower: Entry, upper: Turn, key: Key)
    requires Layered(before + [lower]) && DistinctTurns(Turns(before + [lower]))
    requires Grounded(fold, x, before + [Once(upper, before + [lower])], key)
    ensures TwoStand(fold, x, before + [Once(upper, before + [lower])], key) <==>
            SomeBreaks(fold, x, before, key) || ChangesTwice(fold, x, Turns(before), lower, upper, key)
  {
    var live, e := before + [lower], Once(upper, before + [lower]);
    assert live[..|before|] == before;
    TurnsMore(before, lower);
    GroundedPrefix(fold, x, before, e, key);
    TwoStandIsBreaks(fold, x, before, key);
    SaidIsLatest(fold, x, live, key);
    AltersFrom(fold, x, Said(fold, x, live, key), Turns(live), upper, key);
    assert RecordsFirst(fold, x, e, key) <==> Changes(fold, x, Turns(before) + [lower.turn], upper, key);
    assert Records(fold, x, e, key) <==> RecordsFirst(fold, x, e, key);
    hide Layered, DistinctTurns, Grounded, TwoStand, RecordsFirst, Records, Changes, Gives, SomeBreaks, Latest;
    if RecordsFirst(fold, x, e, key) {
      OverAnswer(fold, x, before, lower, e, key);
    } else {
      IdleStands(fold, x, before, e, key);
    }
  }

  /** In an orderly history what a new turn records is what it changes of the latest values. */
  lemma RecordsWhatItChanges(fold: Fold, profiles: map<string, string>, x: Scope, steps: seq<Step>, t: Turn, key: Key)
    requires IsScope(x, profiles) && IsHistory(fold, profiles, x, steps) && IsOrderly(x, steps)
    ensures var live := Entries(x, steps);
            RecordsFirst(fold, x, Once(t, live), key) <==> Changes(fold, x, Turns(live), t, key)
  {
    hide IsHistory, IsOrderly, Entries, IsScope, Changes, Alters, Layered, Said, Latest;
    var live := Entries(x, steps);
    OrderlyIsLayered(fold, profiles, x, steps);
    SaidIsLatest(fold, x, live, key);
    AltersFrom(fold, x, Said(fold, x, live, key), Turns(live), t, key);
  }
}
