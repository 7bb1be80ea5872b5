/**
 Why the runner's loop ends, and in which order it takes tickets, when no other code makes a
 ticket ready while it runs; and what a stop call still lets it do.
 */
module TicketTermination {
  import opened Wrappers
  import opened TicketRunner
  import opened TicketRuns

  /** Other code may change the store, but a ticket that is ready afterwards was so before, unchanged. */
  ghost predicate Calm(s: State, a: Action) {
    a.Change? ==>
        forall id | id in a.tickets && a.tickets[id].status == Ready ::
          id in s.tickets && s.tickets[id] == a.tickets[id]
  }

  /** A stretch of an interleaving during which worker `i` is live. */
  ghost predicate During(s: State, i: nat, actions: seq<Action>)
    decreases |actions|
  {
    actions == [] || (IsLive(s, i) && Enabled(s, actions[0]) && During(Apply(s, actions[0]), i, actions[1..]))
  }

  ghost predicate AllCalm(s: State, actions: seq<Action>)
    decreases |actions|
  {
    actions == [] || (Calm(s, actions[0]) && AllCalm(Apply(s, actions[0]), actions[1..]))
  }

  function Replay(s: State, actions: seq<Action>): State
    decreases |actions|
  {
    if actions == [] then s else Replay(Apply(s, actions[0]), actions[1..])
  }

  // ----- the worker never gets stuck -----

  lemma {:induction false} OldestExists(s: State, ids: set<string>) returns (oldest: string)
    requires ids != {} && forall id | id in ids :: id in s.tickets
    ensures oldest in ids && forall id | id in ids :: NotAfter(s.tickets[oldest], s.tickets[id])
    decreases |ids|
  {
    var id :| id in ids;
    if ids == {id} {
      oldest := id;
    } else {
      assert ids == (ids - {id}) + {id};
      oldest := OldestExists(s, ids - {id});
      if !NotAfter(s.tickets[oldest], s.tickets[id]) {
        oldest := id;
      }
    }
  }

  /** A live worker always has a step it can take without raising. */
  lemma LiveWorkersCanStep(s: State, i: nat)
    requires IsLive(s, i)
    ensures exists choice :: choice != Raises && Enabled(s, Step(i, choice))
  {
    var project := s.workers[i].project;
    if s.workers[i].phase.Authorised? && ReadyIds(s, project) != {} {
      var oldest := OldestExists(s, ReadyIds(s, project));
      assert IsOldest(s, project, oldest);
      assert Enabled(s, Step(i, Takes(oldest)));
    } else {
      assert Enabled(s, Step(i, Proceeds));
    }
  }

  // ----- the measure -----

  function OpRank(op: Op): nat {
    match op
    case Deliver => 11
    case Reconcile => 12
    case AwaitPromotion => 13
    case Promote => 14
    case ApprovePromotion => 15
    case Validate => 16
    case AwaitSandbox => 17
    case StartSandbox => 18
    case ApprovePlan => 19
    case AwaitPlan => 20
    case StartPlan => 21
    case Activate => 22
  }

  /** How many steps the worker has at most before it would take another ticket. */
  function Rank(phase: Phase): nat {
    match phase
    case Finished => 0
    case Crashing => 1
    case Closing(_) => 2
    case Ending => 3
    case Authorised(_) => 4
    case Reading => 5
    case Looping => 6
    case Counting(_, _) => 7
    case CountingFailure(_, _) => 7
    case Succeeded(_) => 8
    case Unsuccessful(_) => 8
    case Blocking(_) => 9
    case Failing(_) => 10
    case Working(_, _, op) => OpRank(op)
    case Chosen(_, _, _) => 23
  }

  predicate IsLeaving(phase: Phase) {
    phase.Ending? || phase.Closing? || phase.Crashing? || phase.Finished?
  }

  /** The tickets the worker may still take. */
  function Left(s: State, project: string, phase: Phase): set<string> {
    if IsLeaving(phase) then {}
    else ReadyIds(s, project) - if InHand(phase).Some? then {InHand(phase).value} else {}
  }

  function Measure(s: State, i: nat): nat {
    if i >= |s.workers| then 0 else 24 * |Left(s, s.workers[i].project, s.workers[i].phase)| + Rank(s.workers[i].phase)
  }

  /** A ticket already moved on is not ready. */
  predicate Handled(phase: Phase) {
    phase.Succeeded? || phase.Counting? || phase.Unsuccessful? || phase.CountingFailure?
  }

  ghost predicate HandledIsNotReady(s: State, project: string, phase: Phase) {
    Handled(phase) ==> !IsReady(s, project, InHand(phase).value)
  }

  lemma NextOpRank(mode: Mode, op: Op)
    ensures op != Deliver ==> OpRank(NextOp(mode, op)) < OpRank(op)
    ensures 11 <= OpRank(op) <= 22
  {
  }

  /** A step leaves the worker's own ticket aside, changes no other ticket and makes none ready. */
  lemma StepOnlyMovesItsTicket(s: State, project: string, phase: Phase, choice: Choice, id: string)
    ensures var t := Effect(s, project, phase, choice);
            && t.target == s.target
            && (IsReady(t, project, id) ==> IsReady(s, project, id) && t.tickets[id] == s.tickets[id])
            && (IsReady(s, project, id) && InHand(phase) != Some(id) ==> IsReady(t, project, id))
  {
    hide ReadyIds, TakesEffect;
  }

  lemma HandledStays(s: State, project: string, phase: Phase, choice: Choice)
    requires HandledIsNotReady(s, project, phase)
    ensures HandledIsNotReady(Effect(s, project, phase, choice), project, Next(s, project, phase, choice))
  {
    hide ReadyIds, NextOp;
  }

  lemma StepShrinksLeft(s: State, project: string, phase: Phase, choice: Choice)
    requires HandledIsNotReady(s, project, phase) && phase != Finished
    requires choice.Takes? ==> phase.Authorised? && IsReady(s, project, choice.ticket)
    ensures var t, next := Effect(s, project, phase, choice), Next(s, project, phase, choice);
            && Left(t, project, next) <= Left(s, project, phase)
            && (if choice.Takes? then choice.ticket in Left(s, project, phase) - Left(t, project, next)
                   && Rank(next) == 23
                else Rank(next) < Rank(phase))
  {
    forall id ensures IsReady(Effect(s, project, phase, choice), project, id) ==> IsReady(s, project, id) {
      StepOnlyMovesItsTicket(s, project, phase, choice, id);
    }
    HandChanges(s, project, phase, choice);
    RankFalls(s, project, phase, choice);
    hide Effect, IsReady, Next, Rank;
  }

  lemma RankFalls(s: State, project: string, phase: Phase, choice: Choice)
    requires phase != Finished && (choice.Takes? ==> phase.Authorised? && choice.ticket in s.tickets)
    ensures var next := Next(s, project, phase, choice);
            && (if choice.Takes? then next.Chosen? && Rank(next) == 23 && !IsLeaving(next)
                else Rank(next) < Rank(phase))
            && (IsLeaving(phase) ==> IsLeaving(next))
  {
    hide ReadyIds, NextOp, TakesEffect, OpRank;
    if phase.Working? {
      NextOpRank(phase.mode, phase.op);
    }
    NextOpRank(AutonomousSandbox, Activate);
  }

  /** A ticket leaves the hand only once it is handled, or in a crash. */
  lemma HandChanges(s: State, project: string, phase: Phase, choice: Choice)
    ensures var before, after := InHand(phase), InHand(Next(s, project, phase, choice));
            && (before.None? ==>
                after == if choice.Takes? && phase.Authorised? && choice.ticket in s.tickets then Some(choice.ticket)
                         else None)
            && (before.Some? ==>
                after == before || (after == None && (Handled(phase) || Next(s, project, phase, choice).Crashing?)))
  {
    hide ReadyIds, NextOp, TakesEffect;
  }

  // ----- a calm stretch -----

  lemma SmallerSet(a: set<string>, b: set<string>)
    requires a <= b
    ensures |a| <= |b| && forall id | id in b - a :: |a| < |b|
  {
    assert b == a + (b - a);
  }

  ghost predicate WorkerCalm(s: State, i: nat) {
    i < |s.workers| && HandledIsNotReady(s, s.workers[i].project, s.workers[i].phase)
  }

  /** The worker's own steps bring the end nearer. */
  lemma StepLowersMeasure(s: State, i: nat, choice: Choice)
    requires IsLive(s, i) && WorkerCalm(s, i) && Enabled(s, Step(i, choice))
    ensures WorkerCalm(Work(s, i, choice), i) && Measure(Work(s, i, choice), i) < Measure(s, i)
  {
    var w := s.workers[i];
    var t := Work(s, i, choice);
    HandledStays(s, w.project, w.phase, choice);
    StepShrinksLeft(s, w.project, w.phase, choice);
    SameTickets(Effect(s, w.project, w.phase, choice), t, w.project, t.workers[i].phase);
    hide Effect, Next, Rank, Left, ReadyIds, HandledIsNotReady, IsReady;
    SmallerSet(Left(t, w.project, t.workers[i].phase), Left(s, w.project, w.phase));
  }

  /** Only the tickets and the target decide what is ready. */
  lemma SameTickets(s: State, t: State, project: string, phase: Phase)
    requires s.tickets == t.tickets && s.target == t.target
    ensures ReadyIds(s, project) == ReadyIds(t, project) && Left(s, project, phase) == Left(t, project, phase)
    ensures HandledIsNotReady(s, project, phase) <==> HandledIsNotReady(t, project, phase)
    ensures forall id :: IsReady(s, project, id) <==> IsReady(t, project, id)
  {
  }

  /** Whatever else happens calmly leaves the live worker where it is, and makes nothing ready. */
  lemma OthersDoNotReady(s: State, i: nat, a: Action)
    requires Inv(s) && IsLive(s, i) && Enabled(s, a) && Calm(s, a) && !a.Step?
    ensures var t := Apply(s, a);
            && t.workers == s.workers && t.target == s.target && t.taken == s.taken && t.status == s.status
            && (s.stop ==> t.stop)
            && forall project, id ::
                 IsReady(t, project, id) ==> IsReady(s, project, id) && t.tickets[id] == s.tickets[id]
  {
    hide LogSound, LiveOk, RestOk;
    assert s.status == Running;
  }

  lemma OthersKeepMeasure(s: State, i: nat, a: Action)
    requires Inv(s) && IsLive(s, i) && Enabled(s, a) && Calm(s, a) && !a.Step? && WorkerCalm(s, i)
    ensures WorkerCalm(Apply(s, a), i) && Measure(Apply(s, a), i) <= Measure(s, i)
  {
    OthersDoNotReady(s, i, a);
    hide Inv, Enabled, Calm, Apply, IsReady, Rank;
    var w := s.workers[i];
    SmallerSet(Left(Apply(s, a), w.project, w.phase), Left(s, w.project, w.phase));
  }

  function StepsOf(actions: seq<Action>, i: nat): nat {
    if actions == [] then 0
    else (if actions[0].Step? && actions[0].worker == i then 1 else 0) + StepsOf(actions[1..], i)
  }

  /** However starts, stops and calm changes are interleaved, the worker takes boundedly many steps. */
  lemma {:induction false} LoopTerminates(s: State, i: nat, actions: seq<Action>)
    requires Inv(s) && WorkerCalm(s, i) && During(s, i, actions) && AllCalm(s, actions)
    ensures StepsOf(actions, i) + Measure(Replay(s, actions), i) <= Measure(s, i)
    decreases |actions|
  {
    hide Inv, WorkerCalm, Measure, Work;
    if actions != [] {
      var a := actions[0];
      ActionKeepsInv(s, a);
      if a.Step? {
        OnlyOneSteps(s, i, a);
        StepLowersMeasure(s, i, a.choice);
      } else {
        OthersKeepMeasure(s, i, a);
      }
      hide Apply, Enabled;
      LoopTerminates(Apply(s, a), i, actions[1..]);
    }
  }

  lemma OnlyOneSteps(s: State, i: nat, a: Action)
    requires Inv(s) && IsLive(s, i) && Enabled(s, a) && a.Step?
    ensures a.worker == i && i < |s.workers| && Apply(s, a) == Work(s, i, a.choice)
  {
    hide LogSound, LiveOk, RestOk, Work;
  }

  // ----- the order in which tickets are taken -----

  /** A taken ticket is ready again only while it is in the worker's hand. */
  ghost predicate TakenAreNotReady(s: State, project: string, phase: Phase) {
    IsLeaving(phase)
      || forall k | 0 <= k < |s.taken| && IsReady(s, project, s.taken[k].ticket) ::
           InHand(phase) == Some(s.taken[k].ticket)
  }

  ghost predicate NoneTwice(taken: seq<Taken>) {
    forall j, k | 0 <= j < k < |taken| :: taken[j].ticket != taken[k].ticket
  }

  ghost predicate OldestFirst(taken: seq<Taken>) {
    forall j, k | 0 <= j < k < |taken| :: NotAfter(taken[j].row, taken[k].row)
  }

  /** Every ready ticket is at least as young as the taken ones, and was ready at the start; so were the taken ones. */
  ghost predicate ReadyAreLater(s: State, project: string, start: set<string>) {
    && (forall k, id | 0 <= k < |s.taken| && IsReady(s, project, id) :: NotAfter(s.taken[k].row, s.tickets[id]))
    && (forall k | 0 <= k < |s.taken| :: s.taken[k].ticket in start)
    && (forall id | IsReady(s, project, id) :: id in start)
  }

  /** A worker that leaves the loop unstopped found no ready ticket. */
  ghost predicate LeftNothing(s: State, project: string, phase: Phase) {
    (phase.Ending? && !s.stop) || phase == Closing(Completed) || (phase.Finished? && s.status == Completed) ==>
        ReadyIds(s, project) == {}
  }

  ghost predicate OrderOk(s: State, project: string, phase: Phase, start: set<string>) {
    && HandledIsNotReady(s, project, phase) && TakenAreNotReady(s, project, phase)
    && NoneTwice(s.taken) && OldestFirst(s.taken) && ReadyAreLater(s, project, start) && LeftNothing(s, project, phase)
  }

  lemma TakingKeepsOrder(s: State, project: string, phase: Phase, id: string, start: set<string>)
    requires OrderOk(s, project, phase, start) && phase.Authorised? && IsOldest(s, project, id)
    ensures OrderOk(Effect(s, project, phase, Takes(id)), project, Next(s, project, phase, Takes(id)), start)
  {
    var t := Effect(s, project, phase, Takes(id));
    assert forall other :: IsReady(t, project, other) <==> IsReady(s, project, other);
    assert forall k | 0 <= k < |s.taken| ::
             t.taken[k] == s.taken[k] && s.taken[k].ticket != id && NotAfter(s.taken[k].row, s.tickets[id]);
    assert forall other | IsReady(s, project, other) :: NotAfter(s.tickets[id], s.tickets[other]);
    hide ReadyIds, IsReady;
  }

  lemma OtherStepKeepsOrder(s: State, project: string, phase: Phase, choice: Choice, start: set<string>)
    requires OrderOk(s, project, phase, start) && phase != Finished && !choice.Takes?
    requires phase.Authorised? && choice != Raises ==> ReadyIds(s, project) == {}
    ensures OrderOk(Effect(s, project, phase, choice), project, Next(s, project, phase, choice), start)
  {
    var t, next := Effect(s, project, phase, choice), Next(s, project, phase, choice);
    forall id ensures IsReady(t, project, id) ==> IsReady(s, project, id) && t.tickets[id] == s.tickets[id] {
      StepOnlyMovesItsTicket(s, project, phase, choice, id);
    }
    HandledStays(s, project, phase, choice);
    HandChanges(s, project, phase, choice);
    TakenStays(s, project, phase, choice);
    hide IsReady, Effect, Next, NoneTwice, OldestFirst, Handled;
  }

  lemma TakenStays(s: State, project: string, phase: Phase, choice: Choice)
    requires !choice.Takes? && phase != Finished
    ensures var t, next := Effect(s, project, phase, choice), Next(s, project, phase, choice);
            && t.taken == s.taken && t.stop == s.stop
            && (IsLeaving(phase) ==> IsLeaving(next))
            && (next.Ending? && !t.stop ==> phase.Authorised? && choice != Raises)
            && (next == Closing(Completed) ==> phase.Ending? && !s.stop)
            && (next.Finished? && t.status == Completed ==> phase == Closing(Completed))
  {
    hide ReadyIds, TakesEffect, NextOp, SetStatus;
  }

  /** Calm changes and calls of others leave a worker's order as it is. */
  lemma ShrinkingKeepsOrder(s: State, t: State, project: string, phase: Phase, start: set<string>)
    requires OrderOk(s, project, phase, start) && t.taken == s.taken && t.status == s.status && (s.stop ==> t.stop)
    requires forall id :: IsReady(t, project, id) ==> IsReady(s, project, id) && t.tickets[id] == s.tickets[id]
    ensures OrderOk(t, project, phase, start)
  {
    assert ReadyIds(t, project) <= ReadyIds(s, project);
    hide IsReady, ReadyIds, NoneTwice, OldestFirst;
  }

  ghost predicate WorkerInOrder(s: State, i: nat, start: set<string>) {
    i < |s.workers| && OrderOk(s, s.workers[i].project, s.workers[i].phase, start)
  }

  lemma ActionKeepsOrder(s: State, i: nat, a: Action, start: set<string>)
    requires Inv(s) && IsLive(s, i) && Enabled(s, a) && Calm(s, a) && WorkerInOrder(s, i, start)
    ensures WorkerInOrder(Apply(s, a), i, start)
  {
    var w := s.workers[i];
    if a.Step? {
      OnlyOneSteps(s, i, a);
      var t := Work(s, i, a.choice);
      if a.choice.Takes? {
        TakingKeepsOrder(s, w.project, w.phase, a.choice.ticket, start);
      } else {
        OtherStepKeepsOrder(s, w.project, w.phase, a.choice, start);
      }
      SameTickets(Effect(s, w.project, w.phase, a.choice), t, w.project, t.workers[i].phase);
      hide Inv, Effect, Next, OrderOk, IsReady, ReadyIds;
      ShrinkingKeepsOrder(Effect(s, w.project, w.phase, a.choice), t, w.project, t.workers[i].phase, start);
    } else {
      OthersDoNotReady(s, i, a);
      hide Inv, Enabled, Calm, Apply, OrderOk, IsReady;
      ShrinkingKeepsOrder(s, Apply(s, a), w.project, w.phase, start);
    }
  }

  lemma {:induction false} StretchKeepsOrder(s: State, i: nat, actions: seq<Action>, start: set<string>)
    requires Inv(s) && WorkerInOrder(s, i, start) && During(s, i, actions) && AllCalm(s, actions)
    ensures WorkerInOrder(Replay(s, actions), i, start)
    decreases |actions|
  {
    hide Inv, WorkerInOrder, Apply, Enabled;
    if actions != [] {
      ActionKeepsInv(s, actions[0]);
      ActionKeepsOrder(s, i, actions[0], start);
      StretchKeepsOrder(Apply(s, actions[0]), i, actions[1..], start);
    }
  }

  lemma {:induction false} DistinctAreFew(taken: seq<Taken>, start: set<string>)
    requires NoneTwice(taken) && forall k | 0 <= k < |taken| :: taken[k].ticket in start
    ensures |taken| <= |start|
  {
    if taken != [] {
      var n := |taken| - 1;
      var id := taken[n].ticket;
      DistinctAreFew(taken[..n], start - {id});
      assert start == (start - {id}) + {id};
    }
  }

  /**
   From a start on, while only calm changes are made and however other calls are interleaved: no
   ticket is taken twice, each taken ticket was ready at the start, the oldest are taken first, the
   worker takes at most 24 steps a ready ticket and 6 more, and a completed run leaves nothing ready.
   */
  lemma CalmRunTakesReadyTicketsInOrder(s: State, r: Request, actions: seq<Action>)
    requires Inv(s) && Enter(s, r).1.Ok?
    requires During(Enter(s, r).0, |s.workers|, actions) && AllCalm(Enter(s, r).0, actions)
    ensures var begun, i := Enter(s, r).0, |s.workers|;
            var end, ready := Replay(begun, actions), ReadyIds(begun, r.project);
            && NoneTwice(end.taken) && OldestFirst(end.taken)
            && (forall k | 0 <= k < |end.taken| :: end.taken[k].ticket in ready)
            && |end.taken| <= |ready| && StepsOf(actions, i) <= 24 * |ready| + 6
            && (!IsLive(end, i) && end.status == Completed ==> ReadyIds(end, r.project) == {})
  {
    var begun, i := Enter(s, r).0, |s.workers|;
    var ready := ReadyIds(begun, r.project);
    assert begun.workers[i] == Worker(r.project, Looping) && begun.taken == [];
    assert WorkerInOrder(begun, i, ready) && WorkerCalm(begun, i) && Measure(begun, i) == 24 * |ready| + 6;
    EnterKeepsInv(s, r);
    StretchKeepsOrder(begun, i, actions, ready);
    LoopTerminates(begun, i, actions);
    SameProject(begun, i, actions);
    var end := Replay(begun, actions);
    hide Inv, Enter, During, AllCalm, Replay, Measure, ReadyIds, IsReady;
    DistinctAreFew(end.taken, ready);
  }

  lemma {:induction false} SameProject(s: State, i: nat, actions: seq<Action>)
    requires Inv(s) && i < |s.workers| && During(s, i, actions)
    ensures i < |Replay(s, actions).workers| && Replay(s, actions).workers[i].project == s.workers[i].project
    decreases |actions|
  {
    if actions != [] {
      var a := actions[0];
      ActionKeepsInv(s, a);
      ActionKeepsProject(s, i, a);
      hide Inv, Apply, Enabled;
      SameProject(Apply(s, a), i, actions[1..]);
    }
  }

  lemma ActionKeepsProject(s: State, i: nat, a: Action)
    requires i < |s.workers|
    ensures i < |Apply(s, a).workers| && Apply(s, a).workers[i].project == s.workers[i].project
  {
    if a.Step? && a.worker < |s.workers| {
      EffectIsLocal(s, s.workers[a.worker].project, s.workers[a.worker].phase, a.choice);
    }
    hide Effect, Next, ReadyIds;
  }

  // ----- stopping -----

  /** How many more tickets the worker can take once a stop was requested. */
  function AfterStop(phase: Phase): nat {
    if phase.Reading? || phase.Authorised? then 1 else 0
  }

  function MayStillTake(s: State, i: nat): nat {
    if i < |s.workers| then AfterStop(s.workers[i].phase) else 0
  }

  /**
   After a stop request the live worker takes at most one more ticket, and only if it had already
   passed the test of the stop flag; this holds whatever other calls and changes are interleaved.
   */
  lemma {:induction false} StopIsObeyed(s: State, i: nat, actions: seq<Action>)
    requires Inv(s) && i < |s.workers| && s.stop && During(s, i, actions)
    ensures |Replay(s, actions).taken| <= |s.taken| + MayStillTake(s, i)
    decreases |actions|
  {
    if actions != [] {
      var a := actions[0];
      ActionKeepsInv(s, a);
      StopStays(s, i, a);
      hide Inv, Apply, Enabled, MayStillTake;
      StopIsObeyed(Apply(s, a), i, actions[1..]);
    }
  }

  lemma StopStays(s: State, i: nat, a: Action)
    requires Inv(s) && IsLive(s, i) && Enabled(s, a) && s.stop
    ensures var t := Apply(s, a);
            t.stop && i < |t.workers| && |t.taken| + MayStillTake(t, i) <= |s.taken| + MayStillTake(s, i)
  {
    if a.Step? {
      OnlyOneSteps(s, i, a);
      StoppedStep(s, s.workers[i].project, s.workers[i].phase, a.choice);
      hide Inv, Effect, Next, AfterStop, Enabled;
    } else {
      hide LogSound, LiveOk, RestOk;
      assert s.status == Running;
    }
  }

  lemma StoppedStep(s: State, project: string, phase: Phase, choice: Choice)
    requires s.stop
    ensures var t := Effect(s, project, phase, choice);
            t.stop && |t.taken| + AfterStop(Next(s, project, phase, choice)) <= |s.taken| + AfterStop(phase)
  {
    hide ReadyIds, TakesEffect, NextOp, SetStatus;
  }
}
