/** Retries after which two facts of a key are active. */
module RetryExamples {
  import opened Wrappers
  import opened ConversationFacts
  import opened FactRefinement
  import opened FactLog
  import opened FactChanges
  import opened FactRetries
  import opened FactHistory

  /** A turn with one statement; facts about the user are profile facts. */
  function Telling(key: Key, session: string, turn: string, fact: string, value: string): Turn {
    Turn(turn, session, [Fact(fact, session, key, value, IsUserKey(key), 1.0, turn, 0, [], None, None)])
  }

  // ----- such turns make a history -----

  /** Every fact of the log is the fact of one of the turns. */
  ghost predicate OnlyFrom(facts: seq<Fact>, turns: map<string, string>) {
    forall g | g in CoreSet(facts) :: g.sourceTurn in turns && turns[g.sourceTurn] == g.id
  }

  /** The history so far consists of these turns, with one fact each, and none is hidden. */
  ghost predicate Consists(fold: Fold, profiles: map<string, string>, x: Scope, steps: seq<Step>,
                           turns: map<string, string>) {
    var log := LogOf(fold, profiles, steps);
    && IsHistory(fold, profiles, x, steps) && OnlyFrom(log.facts, turns) && log.hidden == {}
    && forall e | e in Entries(x, steps) :: e.turn.id in turns
  }

  lemma NothingYet(fold: Fold, profiles: map<string, string>, x: Scope)
    ensures Consists(fold, profiles, x, [], map[])
  {
    assert CoreSet([]) == {};
  }

  lemma TellingIsFresh(facts: seq<Fact>, turns: map<string, string>, key: Key, session: string, turn: string,
                       fact: string, value: string)
    requires OnlyFrom(facts, turns) && forall t | t in turns :: turns[t] != fact
    ensures AreCandidates(facts, turn, session, Telling(key, session, turn, fact, value).candidates)
  {
    hide CoreSet, IsUserKey;
  }

  lemma TellingAdds(fold: Fold, profiles: map<string, string>, x: Scope, log: Log, live: seq<Turn>,
                    turns: map<string, string>, key: Key, session: string, turn: string, fact: string, value: string)
    requires Sound(x, log, live) && IsScope(x, profiles) && OnlyFrom(log.facts, turns) && turn !in turns
    requires forall t | t in turns :: turns[t] != fact
    ensures var log' := Apply(fold, profiles, log, CommitTurn(Telling(key, session, turn, fact, value)));
            OnlyFrom(log'.facts, turns[turn := fact]) && log'.hidden == log.hidden
  {
    hide LogOk, Separated, IsScope, Start, Mid, AreCandidates, CommitAll, CoreSet;
    var t := Telling(key, session, turn, fact, value);
    var p := Start(log.facts, log.hidden, profiles, session);
    assert t.candidates[..1] == t.candidates && t.session == session && t.id == turn;
    assert p.facts == log.facts by { StartFacts(log.facts, log.hidden, profiles, session); }
    TellingIsFresh(log.facts, turns, key, session, turn, fact, value);
    StartIsMid(x, profiles, log, session);
    CommitAllKeepsMid(fold, x, turn, session, p, t.candidates, 1);
    var q := CommitAll(fold, p, turn, t.candidates);
    forall g | g in CoreSet(q.facts)
      ensures g.sourceTurn in turns[turn := fact] && turns[turn := fact][g.sourceTurn] == g.id
    {
      assert g in CoreSet(log.facts) || g in CoreSet(q.facts) - CoreSet(log.facts);
    }
  }

  lemma StartFacts(facts: seq<Fact>, hidden: set<string>, profiles: map<string, string>, session: string)
    ensures Start(facts, hidden, profiles, session).facts == facts
  {
  }

  lemma TellingIsNew(fold: Fold, profiles: map<string, string>, x: Scope, steps: seq<Step>, turns: map<string, string>,
                     key: Key, session: string, turn: string, fact: string, value: string)
    requires Consists(fold, profiles, x, steps, turns) && turn !in turns && forall t | t in turns :: turns[t] != fact
    ensures IsNewTurn(LogOf(fold, profiles, steps), Turns(Entries(x, steps)), Telling(key, session, turn, fact, value))
  {
    hide IsHistory, LogOf, Entries, AreCandidates, CoreSet;
    TellingIsFresh(LogOf(fold, profiles, steps).facts, turns, key, session, turn, fact, value);
  }

  /** One more such turn. */
  lemma TellingGoesOn(fold: Fold, profiles: map<string, string>, x: Scope, steps: seq<Step>, turns: map<string, string>,
                      key: Key, session: string, turn: string, fact: string, value: string)
    requires IsScope(x, profiles) && Consists(fold, profiles, x, steps, turns) && session in x.Sessions()
    requires turn !in turns && forall t | t in turns :: turns[t] != fact
    ensures var t := Telling(key, session, turn, fact, value);
            var more := steps + [Plain(CommitTurn(t))];
            && Consists(fold, profiles, x, more, turns[turn := fact])
            && Entries(x, more) == Entries(x, steps) + [Once(t, Entries(x, steps))]
  {
    var t := Telling(key, session, turn, fact, value);
    TellingIsNew(fold, profiles, x, steps, turns, key, session, turn, fact, value);
    HistoryIsRemembered(fold, profiles, x, steps);
    assert t.id == turn && t.session == session;
    hide IsScope, IsNewTurn, Apply, Sound, Kept, DistinctTurns, Telling, OnlyFrom;
    TellingAdds(fold, profiles, x, LogOf(fold, profiles, steps), Turns(Entries(x, steps)), turns, key, session, turn,
                fact, value);
    CommitGoesOn(fold, profiles, x, steps, t);
  }

  lemma CommitGoesOn(fold: Fold, profiles: map<string, string>, x: Scope, steps: seq<Step>, t: Turn)
    requires IsHistory(fold, profiles, x, steps) && t.session in x.Sessions()
    requires IsNewTurn(LogOf(fold, profiles, steps), Turns(Entries(x, steps)), t)
    ensures var more := steps + [Plain(CommitTurn(t))];
            && IsHistory(fold, profiles, x, more)
            && Entries(x, more) == Entries(x, steps) + [Once(t, Entries(x, steps))]
            && LogOf(fold, profiles, more) == Apply(fold, profiles, LogOf(fold, profiles, steps), CommitTurn(t))
  {
    assert (steps + [Plain(CommitTurn(t))])[..|steps|] == steps;
    hide IsNewTurn, Apply, Turns;
  }

  /** A retry of one of the turns by another. */
  lemma TellingIsRetried(fold: Fold, profiles: map<string, string>, x: Scope, steps: seq<Step>,
                         turns: map<string, string>, lower: string, key: Key, session: string, turn: string,
                         fact: string, again: string, value: string)
    requires IsScope(x, profiles) && Consists(fold, profiles, x, steps, turns) && session in x.Sessions()
    requires lower in turns
    requires turn !in turns && fact != again && forall t | t in turns :: turns[t] != fact && turns[t] != again
    ensures var t, live := Telling(key, session, turn, fact, value), Entries(x, steps);
            var more := steps + [Retry(lower, t, Telling(key, session, turn, again, value))];
            && IsHistory(fold, profiles, x, more)
            && Entries(x, more) == Without(live, lower) + [Twice(t, live, Without(live, lower))]
  {
    var t, t' := Telling(key, session, turn, fact, value), Telling(key, session, turn, again, value);
    var log := LogOf(fold, profiles, steps);
    assert (steps + [Retry(lower, t, t')])[..|steps|] == steps;
    TellingIsNew(fold, profiles, x, steps, turns, key, session, turn, fact, value);
    HistoryIsRemembered(fold, profiles, x, steps);
    hide IsScope, IsNewTurn, Apply, Sound, Kept, DistinctTurns, AreCandidates, Hidden;
    TellingAdds(fold, profiles, x, log, Turns(Entries(x, steps)), turns, key, session, turn, fact, value);
    HiddenIs(fold, profiles, log, lower, t);
    TellingIsFresh(Hidden(fold, profiles, log, lower, t).facts, turns[turn := fact], key, session, turn, again, value);
    assert SaysTheSame(t, t');
    assert MayRetry(fold, profiles, log, Turns(Entries(x, steps)), lower, t, t');
    hide MayRetry, LogOf, Without, SaysTheSame, Telling;
  }

  // ----- what such a turn records -----

  /** It records its value when that is not what was said, on the turn that said it. */
  lemma TellingRecords(fold: Fold, x: Scope, e: Entry, key: Key, session: string, turn: string, fact: string,
                       value: string)
    requires e.turn == Telling(key, session, turn, fact, value) && x.Takes(session, IsUserKey(key))
    requires !Says(fold, Said(fold, x, e.seen, key), value)
    ensures RecordsFirst(fold, x, e, key) && Records(fold, x, e, key)
    ensures BaseOf(fold, x, e, key) == IdOf(LastRecorder(fold, x, e.seen, key))
    ensures forall live ::
              Said(fold, x, live + [e], key) == Some(value) && LastRecorder(fold, x, live + [e], key) == Some(e)
  {
    var c := e.turn.candidates[0];
    assert e.turn.candidates == [] + [c] && x.Contains(c);
    AltersOneMore(fold, x, Said(fold, x, e.seen, key), [], c, key);
    LatestOfMore(x, [], c, key);
    hide IsUserKey, Telling;
    forall live
      ensures Said(fold, x, live + [e], key) == Some(value) && LastRecorder(fold, x, live + [e], key) == Some(e)
    {
      RecorderOfMore(fold, x, live, e, key);
    }
  }

  // ----- one session -----

  const OBJECTIVE := Key("conversation.active_objective", "is", "REPORTED")
  const FIRST := Telling(OBJECTIVE, "s", "t0", "f0", "fix the parser")
  const ANSWER := Telling(OBJECTIVE, "s", "t1", "f1", "write tests")
  const REPLACEMENT := Telling(OBJECTIVE, "s", "t2", "f2", "write documentation")
  const AGAIN := Telling(OBJECTIVE, "s", "t2", "f3", "write documentation")
  const OPENED: seq<Step> := [] + [Plain(CommitTurn(FIRST))]
  const ANSWERED: seq<Step> := OPENED + [Plain(CommitTurn(ANSWER))]
  const RETRIED: seq<Step> := ANSWERED + [Retry("t1", REPLACEMENT, AGAIN)]

  function FirstEntry(): Entry {
    Once(FIRST, [])
  }

  function AnswerEntry(): Entry {
    Once(ANSWER, [FirstEntry()])
  }

  function ReplacementEntry(): Entry {
    Twice(REPLACEMENT, [FirstEntry(), AnswerEntry()], [FirstEntry()])
  }

  lemma OpenedRun(fold: Fold, profiles: map<string, string>, x: Scope)
    requires IsScope(x, profiles) && "s" in x.Sessions()
    ensures Consists(fold, profiles, x, OPENED, map["t0" := "f0"]) && Entries(x, OPENED) == [FirstEntry()]
  {
    NothingYet(fold, profiles, x);
    assert Entries(x, []) == [] && [] + [FirstEntry()] == [FirstEntry()];
    hide Telling, Consists, IsScope;
    var none: map<string, string> := map[];
    TellingGoesOn(fold, profiles, x, [], none, OBJECTIVE, "s", "t0", "f0", "fix the parser");
    assert none["t0" := "f0"] == map["t0" := "f0"];
  }

  lemma AnsweredRun(fold: Fold, profiles: map<string, string>, x: Scope)
    requires IsScope(x, profiles) && "s" in x.Sessions()
    ensures Consists(fold, profiles, x, ANSWERED, map["t0" := "f0"]["t1" := "f1"])
    ensures Entries(x, ANSWERED) == [FirstEntry(), AnswerEntry()]
  {
    OpenedRun(fold, profiles, x);
    hide Telling, Consists, IsScope;
    TellingGoesOn(fold, profiles, x, OPENED, map["t0" := "f0"], OBJECTIVE, "s", "t1", "f1", "write tests");
  }

  lemma RetriedRun(fold: Fold)
    ensures var x := OneSession("s");
            IsHistory(fold, map[], x, RETRIED) && Entries(x, RETRIED) == [FirstEntry(), ReplacementEntry()]
  {
    var x := OneSession("s");
    AnsweredRun(fold, map[], x);
    AnswerIsHidden();
    hide Telling, Consists, Without;
    TellingIsRetried(fold, map[], x, ANSWERED, map["t0" := "f0"]["t1" := "f1"], "t1", OBJECTIVE, "s", "t2", "f2", "f3",
                     "write documentation");
  }

  lemma AnswerIsHidden()
    ensures Without([FirstEntry(), AnswerEntry()], "t1") == [FirstEntry()]
  {
    assert [FirstEntry(), AnswerEntry()][..1] == [FirstEntry()] && [FirstEntry()][..0] == [];
  }

  lemma FirstAndReplacementStand(fold: Fold)
    requires fold("fix the parser") != fold("write tests") && fold("write tests") != fold("write documentation")
    ensures TwoStand(fold, OneSession("s"), [FirstEntry(), ReplacementEntry()], OBJECTIVE)
  {
    var x := OneSession("s");
    assert OBJECTIVE.subject[0] == 'c' && "user."[0] == 'u' && !IsUserKey(OBJECTIVE);
    var live := [FirstEntry(), ReplacementEntry()];
    assert [] + [FirstEntry()] == [FirstEntry()] && [FirstEntry()] + [AnswerEntry()] == [FirstEntry(), AnswerEntry()];
    TellingRecords(fold, x, FirstEntry(), OBJECTIVE, "s", "t0", "f0", "fix the parser");
    assert Said(fold, x, [] + [FirstEntry()], OBJECTIVE) == Some("fix the parser");
    TellingRecords(fold, x, AnswerEntry(), OBJECTIVE, "s", "t1", "f1", "write tests");
    assert Said(fold, x, [FirstEntry()] + [AnswerEntry()], OBJECTIVE) == Some("write tests");
    TellingRecords(fold, x, ReplacementEntry(), OBJECTIVE, "s", "t2", "f2", "write documentation");
    hide Records, BaseOf, RecordsFirst, Said;
    assert BaseOf(fold, x, live[0], OBJECTIVE) == None;
    assert BaseOf(fold, x, live[1], OBJECTIVE) == Some("t1");
    assert Stands(fold, x, live, 0, OBJECTIVE) && Stands(fold, x, live, 1, OBJECTIVE);
  }

  /**
   The session's objective was to fix the parser. A message is read as aiming to write tests; the
   retry reads the same message as aiming to write documentation. Two objectives are active then,
   which the second commit does not mend.
   */
  lemma RetryCanLeaveTwo(fold: Fold)
    requires fold("fix the parser") != fold("write tests") && fold("write tests") != fold("write documentation")
    ensures IsHistory(fold, map[], OneSession("s"), RETRIED)
    ensures HasTwo(ActiveFacts(OneSession("s"), LogOf(fold, map[], RETRIED)), OBJECTIVE)
  {
    RetriedRun(fold);
    FirstAndReplacementStand(fold);
    hide IsHistory, LogOf, Entries, ActiveFacts, HasTwo, TwoStand;
    TwoActiveExactly(fold, map[], OneSession("s"), RETRIED, OBJECTIVE);
  }

  // ----- two sessions of one profile -----

  const EDITOR := Key("user.editor", "is", "PREFERENCE")
  const PROFILES: map<string, string> := map["s" := "p", "v" := "p"]
  const PROFILE := OneProfile({"s", "v"})
  const VIM := Telling(EDITOR, "s", "t0", "f0", "vim")
  const EMACS := Telling(EDITOR, "s", "t1", "f1", "emacs")
  const NANO := Telling(EDITOR, "v", "t2", "f2", "nano")
  const HELIX := Telling(EDITOR, "s", "t3", "f3", "helix")
  const HELIX_AGAIN := Telling(EDITOR, "s", "t3", "f4", "helix")
  const VIM_STEPS: seq<Step> := [] + [Plain(CommitTurn(VIM))]
  const EMACS_STEPS: seq<Step> := VIM_STEPS + [Plain(CommitTurn(EMACS))]
  const NANO_STEPS: seq<Step> := EMACS_STEPS + [Plain(CommitTurn(NANO))]
  const HELIX_STEPS: seq<Step> := NANO_STEPS + [Retry("t1", HELIX, HELIX_AGAIN)]

  function VimEntry(): Entry {
    Once(VIM, [])
  }

  function EmacsEntry(): Entry {
    Once(EMACS, [VimEntry()])
  }

  function NanoEntry(): Entry {
    Once(NANO, [VimEntry(), EmacsEntry()])
  }

  function HelixEntry(): Entry {
    Twice(HELIX, [VimEntry(), EmacsEntry(), NanoEntry()], [VimEntry(), NanoEntry()])
  }

  lemma ProfileIsScope()
    ensures IsScope(PROFILE, PROFILES) && PROFILE.Sessions() == {"s", "v"}
  {
    assert SessionsOf(PROFILES, "s") == {"s", "v"} && SessionsOf(PROFILES, "v") == {"s", "v"};
  }

  lemma VimRun(fold: Fold)
    ensures Consists(fold, PROFILES, PROFILE, VIM_STEPS, map["t0" := "f0"])
    ensures Entries(PROFILE, VIM_STEPS) == [VimEntry()]
  {
    ProfileIsScope();
    NothingYet(fold, PROFILES, PROFILE);
    assert Entries(PROFILE, []) == [] && [] + [VimEntry()] == [VimEntry()];
    hide Telling, Consists, IsScope;
    var none: map<string, string> := map[];
    TellingGoesOn(fold, PROFILES, PROFILE, [], none, EDITOR, "s", "t0", "f0", "vim");
    assert none["t0" := "f0"] == map["t0" := "f0"];
  }

  lemma EmacsRun(fold: Fold)
    ensures Consists(fold, PROFILES, PROFILE, EMACS_STEPS, map["t0" := "f0"]["t1" := "f1"])
    ensures Entries(PROFILE, EMACS_STEPS) == [VimEntry(), EmacsEntry()]
  {
    ProfileIsScope();
    VimRun(fold);
    hide Telling, Consists, IsScope;
    TellingGoesOn(fold, PROFILES, PROFILE, VIM_STEPS, map["t0" := "f0"], EDITOR, "s", "t1", "f1", "emacs");
  }

  lemma NanoRun(fold: Fold)
    ensures Consists(fold, PROFILES, PROFILE, NANO_STEPS, map["t0" := "f0"]["t1" := "f1"]["t2" := "f2"])
    ensures Entries(PROFILE, NANO_STEPS) == [VimEntry(), EmacsEntry(), NanoEntry()]
  {
    ProfileIsScope();
    EmacsRun(fold);
    hide Telling, Consists, IsScope;
    TellingGoesOn(fold, PROFILES, PROFILE, EMACS_STEPS, map["t0" := "f0"]["t1" := "f1"], EDITOR, "v", "t2", "f2",
                  "nano");
  }

  lemma HelixRun(fold: Fold)
    ensures IsHistory(fold, PROFILES, PROFILE, HELIX_STEPS)
    ensures Entries(PROFILE, HELIX_STEPS) == [VimEntry(), NanoEntry(), HelixEntry()]
  {
    ProfileIsScope();
    NanoRun(fold);
    EmacsIsHidden();
    hide Telling, Consists, Without, IsScope;
    TellingIsRetried(fold, PROFILES, PROFILE, NANO_STEPS, map["t0" := "f0"]["t1" := "f1"]["t2" := "f2"], "t1", EDITOR,
                     "s", "t3", "f3", "f4", "helix");
  }

  lemma EmacsIsHidden()
    ensures Without([VimEntry(), EmacsEntry(), NanoEntry()], "t1") == [VimEntry(), NanoEntry()]
  {
    assert [VimEntry(), EmacsEntry(), NanoEntry()][..2] == [VimEntry(), EmacsEntry()];
    assert [VimEntry(), EmacsEntry()][..1] == [VimEntry()] && [VimEntry()][..0] == [];
    assert [VimEntry()] + [NanoEntry()] == [VimEntry(), NanoEntry()];
  }

  lemma VimAndHelixStand(fold: Fold)
    requires fold("vim") != fold("emacs") && fold("emacs") != fold("nano") && fold("nano") != fold("helix")
    ensures TwoStand(fold, PROFILE, [VimEntry(), NanoEntry(), HelixEntry()], EDITOR)
  {
    assert IsUserKey(EDITOR) by { assert EDITOR.subject == "user." + "editor"; }
    var live := [VimEntry(), NanoEntry(), HelixEntry()];
    assert [] + [VimEntry()] == [VimEntry()] && [VimEntry()] + [EmacsEntry()] == [VimEntry(), EmacsEntry()];
    assert [VimEntry(), EmacsEntry()] + [NanoEntry()] == [VimEntry(), EmacsEntry(), NanoEntry()];
    TellingRecords(fold, PROFILE, VimEntry(), EDITOR, "s", "t0", "f0", "vim");
    assert Said(fold, PROFILE, [] + [VimEntry()], EDITOR) == Some("vim");
    TellingRecords(fold, PROFILE, EmacsEntry(), EDITOR, "s", "t1", "f1", "emacs");
    assert Said(fold, PROFILE, [VimEntry()] + [EmacsEntry()], EDITOR) == Some("emacs");
    TellingRecords(fold, PROFILE, NanoEntry(), EDITOR, "v", "t2", "f2", "nano");
    assert Said(fold, PROFILE, [VimEntry(), EmacsEntry()] + [NanoEntry()], EDITOR) == Some("nano");
    TellingRecords(fold, PROFILE, HelixEntry(), EDITOR, "s", "t3", "f3", "helix");
    hide Records, BaseOf, RecordsFirst, Said;
    assert BaseOf(fold, PROFILE, live[0], EDITOR) == None;
    assert BaseOf(fold, PROFILE, live[1], EDITOR) == Some("t1");
    assert BaseOf(fold, PROFILE, live[2], EDITOR) == Some("t2");
    assert Stands(fold, PROFILE, live, 0, EDITOR) && Stands(fold, PROFILE, live, 2, EDITOR);
  }

  /**
   A user says in one session that the editor is vim, then emacs; in another session of the same
   profile that it is nano. Then the answer about emacs is retried and read as helix. Hiding emacs
   brings vim back, and helix supersedes nano: vim and helix are both active.
   */
  lemma ProfileRetryCanLeaveTwo(fold: Fold)
    requires fold("vim") != fold("emacs") && fold("emacs") != fold("nano") && fold("nano") != fold("helix")
    ensures IsScope(PROFILE, PROFILES) && IsHistory(fold, PROFILES, PROFILE, HELIX_STEPS)
    ensures HasTwo(ActiveFacts(PROFILE, LogOf(fold, PROFILES, HELIX_STEPS)), EDITOR)
  {
    ProfileIsScope();
    HelixRun(fold);
    VimAndHelixStand(fold);
    hide IsHistory, LogOf, Entries, ActiveFacts, HasTwo, TwoStand, IsScope;
    TwoActiveExactly(fold, PROFILES, PROFILE, HELIX_STEPS, EDITOR);
  }
}
