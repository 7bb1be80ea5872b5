/** What every interleaving of the automatic ticket runner keeps. */
module TicketRuns {
  import opened Wrappers
  import opened TicketRunner

  // ----- one worker at a time -----

  ghost predicate OneLive(s: State) {
    && (forall i: nat, j: nat | IsLive(s, i) && IsLive(s, j) :: i == j)
    && (s.status == Running <==> exists i: nat :: IsLive(s, i))
  }

  // ----- the operations of one iteration -----

  predicate Promotes(op: Op) {
    op == ApprovePromotion || op == Promote || op == AwaitPromotion || op == Reconcile
  }

  function Prepared(): seq<Op> {
    [Activate, StartPlan, AwaitPlan, ApprovePlan, StartSandbox, AwaitSandbox]
  }

  /** The operations an iteration has performed when it comes to this one. */
  function Done(mode: Mode, op: Op): seq<Op> {
    match op
    case Activate => []
    case StartPlan => [Activate]
    case AwaitPlan => [Activate, StartPlan]
    case ApprovePlan => [Activate, StartPlan, AwaitPlan]
    case StartSandbox => [Activate, StartPlan, AwaitPlan, ApprovePlan]
    case AwaitSandbox => [Activate, StartPlan, AwaitPlan, ApprovePlan, StartSandbox]
    case Validate => Prepared()
    case ApprovePromotion => Prepared() + [Validate]
    case Promote => Prepared() + [Validate, ApprovePromotion]
    case AwaitPromotion => Prepared() + [Validate, ApprovePromotion, Promote]
    case Reconcile => Prepared() + [Validate, ApprovePromotion, Promote, AwaitPromotion]
    case Deliver =>
      Prepared() + [Validate]
        + if mode == AutonomousProject then [ApprovePromotion, Promote, AwaitPromotion, Reconcile] else []
  }

  /** One iteration's events up to an operation: the ticket is taken in a mode, then each operation in turn. */
  function Iteration(mode: Mode, id: string, op: Op): seq<Event> {
    [Took(id, mode)] + seq(|Done(mode, op)|, k requires 0 <= k < |Done(mode, op)| => Did(Done(mode, op)[k], id))
  }

  predicate EndsWith(log: seq<Event>, events: seq<Event>) {
    |events| <= |log| && log[|log| - |events|..] == events
  }

  predicate MayDo(mode: Mode, op: Op) {
    MayRun(mode) && (Promotes(op) ==> mode == AutonomousProject)
  }

  /**
   Every operation in the log directly follows its own iteration's earlier operations, from the taking
   of the ticket on.
   */
  ghost predicate LogSound(log: seq<Event>) {
    forall k | 0 <= k < |log| && log[k].Did? ::
      exists mode :: MayDo(mode, log[k].op) && EndsWith(log[..k], Iteration(mode, log[k].ticket, log[k].op))
  }

  lemma NextIteration(mode: Mode, id: string, op: Op)
    requires MayDo(mode, op) && op != Deliver
    ensures MayDo(mode, NextOp(mode, op))
    ensures Iteration(mode, id, NextOp(mode, op)) == Iteration(mode, id, op) + [Did(op, id)]
  {
    assert Done(mode, NextOp(mode, op)) == Done(mode, op) + [op];
  }

  lemma LogGrows(log: seq<Event>, mode: Mode, id: string, op: Op)
    requires LogSound(log) && MayDo(mode, op) && EndsWith(log, Iteration(mode, id, op))
    ensures LogSound(log + [Did(op, id)])
    ensures op != Deliver ==>
              MayDo(mode, NextOp(mode, op)) && EndsWith(log + [Did(op, id)], Iteration(mode, id, NextOp(mode, op)))
  {
    hide Iteration;
    var more := log + [Did(op, id)];
    assert forall k | 0 <= k <= |log| :: more[..k] == log[..k];
    assert log[..|log|] == log;
    if op != Deliver {
      NextIteration(mode, id, op);
      var events := Iteration(mode, id, op);
      assert more[|more| - |events| - 1..] == events + [Did(op, id)];
    }
  }

  lemma TakingKeepsLog(log: seq<Event>, mode: Mode, id: string)
    requires LogSound(log)
    ensures LogSound(log + [Took(id, mode)]) && EndsWith(log + [Took(id, mode)], Iteration(mode, id, Activate))
  {
    var more := log + [Took(id, mode)];
    assert forall k | 0 <= k <= |log| :: more[..k] == log[..k];
    assert Iteration(mode, id, Activate) == [Took(id, mode)];
    hide Iteration;
  }

  // ----- counting -----

  /** The ticket a worker has taken and not yet counted. */
  function InHand(phase: Phase): Option<string> {
    match phase
    case Chosen(_, id, _) => Some(id)
    case Working(_, id, _) => Some(id)
    case Succeeded(id) => Some(id)
    case Counting(id, _) => Some(id)
    case Failing(id) => Some(id)
    case Blocking(id) => Some(id)
    case Unsuccessful(id) => Some(id)
    case CountingFailure(id, _) => Some(id)
    case _ => None
  }

  /** How a live worker's place agrees with the counters, the tickets taken and the log. */
  ghost predicate PhaseOk(completed: nat, failed: nat, taken: seq<Taken>, log: seq<Event>, phase: Phase) {
    && (InHand(phase).Some? ==> completed + failed + 1 == |taken| && taken[|taken| - 1].ticket == InHand(phase).value)
    && (InHand(phase).None? && !phase.Crashing? ==> completed + failed == |taken|)
    && (phase.Crashing? ==> |taken| <= completed + failed + 1 <= |taken| + 1)
    && (phase.Counting? ==> phase.n == completed)
    && (phase.CountingFailure? ==> phase.n == failed)
    && (phase.Closing? ==> phase.status == Stopped || phase.status == Completed)
    && (phase.Authorised? ==> MayRun(phase.mode))
    && (phase.Chosen? ==> MayDo(phase.mode, Activate) && EndsWith(log, Iteration(phase.mode, phase.ticket, Activate)))
    && (phase.Working? ==> MayDo(phase.mode, phase.op) && EndsWith(log, Iteration(phase.mode, phase.ticket, phase.op)))
  }

  /** The counters when no worker is live. */
  ghost predicate RestOk(s: State) {
    && (s.status == Stopped || s.status == Completed || s.status == Idle ==> s.completed + s.failed == |s.taken|)
    && (s.status == Failed ==> |s.taken| <= s.completed + s.failed + 1 <= |s.taken| + 1)
  }

  ghost predicate LiveOk(s: State) {
    forall i: nat | IsLive(s, i) :: PhaseOk(s.completed, s.failed, s.taken, s.log, s.workers[i].phase)
  }

  ghost predicate Inv(s: State) {
    OneLive(s) && LogSound(s.log) && LiveOk(s) && (s.status != Running ==> RestOk(s))
  }

  ghost predicate PlaceOk(s: State, phase: Phase) {
    PhaseOk(s.completed, s.failed, s.taken, s.log, phase)
  }

  lemma TakingKeepsPlace(s: State, project: string, phase: Phase, choice: Choice)
    requires PlaceOk(s, phase) && LogSound(s.log) && phase.Authorised?
    ensures LogSound(Effect(s, project, phase, choice).log)
    ensures PlaceOk(Effect(s, project, phase, choice), Next(s, project, phase, choice))
  {
    hide LogSound, Iteration, EndsWith, ReadyIds;
    if choice.Takes? && choice.ticket in s.tickets {
      TakingKeepsLog(s.log, phase.mode, choice.ticket);
      ActivateMayBeDone(phase.mode);
    }
    hide MayDo;
  }

  lemma OperatingKeepsPlace(s: State, project: string, phase: Phase, choice: Choice)
    requires PlaceOk(s, phase) && LogSound(s.log) && phase.Working?
    ensures LogSound(Effect(s, project, phase, choice).log)
    ensures PlaceOk(Effect(s, project, phase, choice), Next(s, project, phase, choice))
  {
    hide LogSound, Iteration, EndsWith, MayDo, SetStatus, NewStatus, TakesEffect;
    LogGrows(s.log, phase.mode, phase.ticket, phase.op);
    hide NextOp;
  }

  lemma HeldKeepsPlace(s: State, project: string, phase: Phase, choice: Choice)
    requires PlaceOk(s, phase) && InHand(phase).Some? && !phase.Working?
    ensures var t, next := Effect(s, project, phase, choice), Next(s, project, phase, choice);
            t.log == s.log && PlaceOk(t, next)
  {
    if phase.Chosen? {
      ActivateMayBeDone(phase.mode);
    }
    hide Iteration, EndsWith, ReadyIds, SetStatus, NewStatus, TakesEffect, NextOp, MayDo;
  }

  lemma OutsideKeepsPlace(s: State, project: string, phase: Phase, choice: Choice)
    requires PlaceOk(s, phase) && InHand(phase).None? && !phase.Authorised? && phase != Finished
    ensures var t, next := Effect(s, project, phase, choice), Next(s, project, phase, choice);
            && t.log == s.log
            && (next != Finished ==> PlaceOk(t, next))
            && (next == Finished ==> t.status != Running && RestOk(t))
  {
    hide Iteration, EndsWith, ReadyIds, SetStatus, NewStatus, TakesEffect, NextOp, MayDo;
  }

  /** A worker's step keeps its own place in agreement, or ends with the counters right. */
  lemma StepKeepsPlace(s: State, project: string, phase: Phase, choice: Choice)
    requires PlaceOk(s, phase) && LogSound(s.log) && phase != Finished
    ensures var t, next := Effect(s, project, phase, choice), Next(s, project, phase, choice);
            && LogSound(t.log) && t.workers == s.workers
            && (next != Finished ==> PlaceOk(t, next) && t.status == s.status)
            && (next == Finished ==> t.status != Running && RestOk(t))
  {
    EffectIsLocal(s, project, phase, choice);
    OnlyTheEndFinishes(s, project, phase, choice);
    hide LogSound, PlaceOk, RestOk, Effect, Next;
    if phase.Authorised? {
      TakingKeepsPlace(s, project, phase, choice);
    } else if phase.Working? {
      OperatingKeepsPlace(s, project, phase, choice);
    } else if InHand(phase).Some? {
      HeldKeepsPlace(s, project, phase, choice);
    } else {
      OutsideKeepsPlace(s, project, phase, choice);
    }
  }

  lemma OnlyTheEndFinishes(s: State, project: string, phase: Phase, choice: Choice)
    ensures Next(s, project, phase, choice) == Finished <==>
              phase.Finished? || phase.Crashing? || (phase.Closing? && choice != Raises)
  {
  }

  lemma EffectIsLocal(s: State, project: string, phase: Phase, choice: Choice)
    ensures var t := Effect(s, project, phase, choice);
            t.workers == s.workers
              && (!phase.Crashing? && !(phase.Closing? && choice != Raises) ==> t.status == s.status)
  {
    hide SetStatus, ReadyIds;
  }

  lemma ActivateMayBeDone(mode: Mode)
    requires MayRun(mode)
    ensures MayDo(mode, Activate)
  {
  }

  // ----- every action keeps the invariant -----

  lemma StepKeepsInv(s: State, i: nat, choice: Choice)
    requires Inv(s) && IsLive(s, i)
    ensures Inv(Work(s, i, choice))
  {
    var t := Work(s, i, choice);
    var w := s.workers[i];
    assert PlaceOk(s, w.phase);
    StepKeepsPlace(s, w.project, w.phase, choice);
    hide Effect, Next, LogSound, PhaseOk;
    forall j: nat | IsLive(t, j) ensures j == i {
      assert j != i ==> IsLive(s, j);
    }
    assert s.status == Running;
    assert t.status == Running ==> IsLive(t, i);
  }

  lemma EnterKeepsInv(s: State, r: Request)
    requires Inv(s)
    ensures Inv(Enter(s, r).0)
  {
    var t := Enter(s, r).0;
    hide LogSound, Iteration, EndsWith, MayDo, ReadyIds;
    if s.status != Running && TicketIsReady(s.tickets, r) {
      assert forall j: nat | IsLive(t, j) :: j < |s.workers| ==> IsLive(s, j);
      assert IsLive(t, |s.workers|);
    } else {
      assert forall j: nat :: IsLive(t, j) <==> IsLive(s, j);
    }
  }

  lemma ActionKeepsInv(s: State, a: Action)
    requires Inv(s) && Enabled(s, a)
    ensures Inv(Apply(s, a))
  {
    match a
    case Step(i, choice) =>
      StepKeepsInv(s, i, choice);
    case Lock(r) =>
      EnterKeepsInv(s, r);
    case _ =>
      hide LogSound, PhaseOk, Authorise;
      assert forall j: nat :: IsLive(Apply(s, a), j) <==> IsLive(s, j);
  }

  /**
   Under every interleaving: at most one worker is live, and one is exactly when the status says
   so; completed and failed tickets add up to the tickets taken; and every operation follows its
   iteration's earlier ones.
   */
  lemma {:induction false} InterleavingKeepsInv(tickets: map<string, Ticket>, modes: map<string, Mode>,
                                                actions: seq<Action>)
    requires AllEnabled(tickets, modes, actions)
    ensures Inv(After(tickets, modes, actions))
  {
    if actions != [] {
      InterleavingKeepsInv(tickets, modes, actions[..|actions| - 1]);
      hide Inv, Enabled;
      ActionKeepsInv(After(tickets, modes, actions[..|actions| - 1]), actions[|actions| - 1]);
    }
  }

  /** A stopped or completed run counted every ticket it took. */
  lemma EveryTakenTicketIsCounted(tickets: map<string, Ticket>, modes: map<string, Mode>, actions: seq<Action>)
    requires AllEnabled(tickets, modes, actions)
    ensures var s := After(tickets, modes, actions);
            && (forall i: nat, j: nat | IsLive(s, i) && IsLive(s, j) :: i == j)
            && (s.status == Running <==> exists i: nat :: IsLive(s, i))
            && (s.status == Stopped || s.status == Completed ==> s.completed + s.failed == |s.taken|)
            && s.completed + s.failed <= |s.taken| <= s.completed + s.failed + 1
  {
    InterleavingKeepsInv(tickets, modes, actions);
    var s := After(tickets, modes, actions);
    hide After, LogSound, Iteration, EndsWith, MayDo;
    if i: nat :| IsLive(s, i) {
      assert PlaceOk(s, s.workers[i].phase);
    }
  }

  /**
   A promotion in the log directly follows the approval of the plan, the validation and the
   approval of the promotion of that ticket, in an iteration begun in autonomous project mode.
   */
  lemma PromotionFollowsApprovals(tickets: map<string, Ticket>, modes: map<string, Mode>, actions: seq<Action>, k: nat)
    requires AllEnabled(tickets, modes, actions)
    requires var log := After(tickets, modes, actions).log; k < |log| && log[k].Did? && log[k].op == Promote
    ensures var log := After(tickets, modes, actions).log;
            var id := log[k].ticket;
            k >= 9 && log[k - 9] == Took(id, AutonomousProject)
            && log[k - 5] == Did(ApprovePlan, id) && log[k - 2] == Did(Validate, id)
            && log[k - 1] == Did(ApprovePromotion, id)
            && forall j | k - 9 < j < k :: log[j].Did? && log[j].ticket == id
  {
    InterleavingKeepsInv(tickets, modes, actions);
    var log := After(tickets, modes, actions).log;
    hide After, AllEnabled, Iteration;
    var mode :| MayDo(mode, log[k].op) && EndsWith(log[..k], Iteration(mode, log[k].ticket, log[k].op));
    BeforePromotion(log, k, log[k].ticket);
  }

  lemma BeforePromotion(log: seq<Event>, k: nat, id: string)
    requires k < |log| && EndsWith(log[..k], Iteration(AutonomousProject, id, Promote))
    ensures k >= 9 && log[k - 9] == Took(id, AutonomousProject)
            && log[k - 5] == Did(ApprovePlan, id) && log[k - 2] == Did(Validate, id)
            && log[k - 1] == Did(ApprovePromotion, id)
            && forall j | k - 9 < j < k :: log[j].Did? && log[j].ticket == id
  {
    var events := Iteration(AutonomousProject, id, Promote);
    assert |events| == 9 && events[0] == Took(id, AutonomousProject)
           && forall j | 0 < j < 9 :: events[j].Did? && events[j].ticket == id;
    assert events[4] == Did(ApprovePlan, id) && events[7] == Did(Validate, id)
           && events[8] == Did(ApprovePromotion, id);
    hide Iteration;
    forall j | 0 <= j < 9 ensures log[k - 9 + j] == events[j] {
      assert log[..k][k - 9..][j] == log[k - 9 + j];
    }
    assert forall j | k - 9 < j < k :: log[j] == events[j - k + 9];
  }

  // ----- the mode of an iteration -----

  /** At action `n` worker `i` read its project's mode. */
  ghost predicate ReadsMode(tickets: map<string, Ticket>, modes: map<string, Mode>, actions: seq<Action>, n: nat,
                            i: nat, mode: Mode) {
    && n < |actions| && actions[n].Step? && actions[n].worker == i
    && var s := After(tickets, modes, actions[..n]);
    && i < |s.workers| && s.workers[i].phase == Reading && s.workers[i].project in s.modes
    && s.modes[s.workers[i].project] == mode
  }

  /** From action `n` on, up to action `m`, worker `i` took no step. */
  ghost predicate RestsBetween(actions: seq<Action>, n: nat, m: nat, i: nat) {
    m <= |actions| && forall k | n < k < m :: !(actions[k].Step? && actions[k].worker == i)
  }

  lemma OnlyReadingAuthorises(s: State, project: string, phase: Phase, choice: Choice)
    ensures var next := Next(s, project, phase, choice);
            next.Authorised? ==> phase == Reading && project in s.modes && s.modes[project] == next.mode
  {
  }

  lemma OthersDoNotMove(s: State, a: Action, i: nat)
    requires i < |Apply(s, a).workers| && !(a.Step? && a.worker == i)
    ensures (i < |s.workers| && Apply(s, a).workers[i] == s.workers[i]) || Apply(s, a).workers[i].phase == Looping
  {
    if a.Step? && a.worker < |s.workers| {
      EffectIsLocal(s, s.workers[a.worker].project, s.workers[a.worker].phase, a.choice);
    }
    hide Effect, Next, ReadyIds;
  }

  /** An authorised worker's last step was to read the mode it holds. */
  lemma {:induction false} AuthorisedModeWasRead(tickets: map<string, Ticket>, modes: map<string, Mode>,
                                                 actions: seq<Action>, i: nat) returns (n: nat)
    requires var s := After(tickets, modes, actions); i < |s.workers| && s.workers[i].phase.Authorised?
    ensures ReadsMode(tickets, modes, actions, n, i, After(tickets, modes, actions).workers[i].phase.mode)
    ensures RestsBetween(actions, n, |actions|, i)
  {
    hide Apply;
    var last := |actions| - 1;
    var before, a := After(tickets, modes, actions[..last]), actions[last];
    if a.Step? && a.worker == i {
      n := last;
      StepAuthorises(before, i, a.choice);
    } else {
      OthersDoNotMove(before, a, i);
      n := AuthorisedModeWasRead(tickets, modes, actions[..last], i);
      assert actions[..last][..n] == actions[..n];
      assert forall k | n < k < last :: actions[..last][k] == actions[k];
    }
  }

  lemma StepAuthorises(s: State, i: nat, choice: Choice)
    requires i < |Apply(s, Step(i, choice)).workers| && Apply(s, Step(i, choice)).workers[i].phase.Authorised?
    ensures i < |s.workers| && s.workers[i].phase == Reading
    ensures s.workers[i].project in s.modes
    ensures s.modes[s.workers[i].project] == Apply(s, Step(i, choice)).workers[i].phase.mode
  {
    OnlyReadingAuthorises(s, s.workers[i].project, s.workers[i].phase, choice);
    EffectIsLocal(s, s.workers[i].project, s.workers[i].phase, choice);
    hide Effect, Next;
  }

  /** The action that took a ticket is the taking worker's first step after it read the logged mode. */
  lemma {:induction false} TakenInModeRead(tickets: map<string, Ticket>, modes: map<string, Mode>, actions: seq<Action>,
                                           k: nat)
    returns (n: nat, m: nat, i: nat)
    requires var log := After(tickets, modes, actions).log; k < |log| && log[k].Took?
    ensures var taken := After(tickets, modes, actions).log[k];
            && n < m < |actions| && actions[m] == Step(i, Takes(taken.ticket))
            && ReadsMode(tickets, modes, actions, n, i, taken.mode) && RestsBetween(actions, n, m, i)
  {
    hide Apply;
    var last := |actions| - 1;
    var before, a := After(tickets, modes, actions[..last]), actions[last];
    LogOnlyGrows(before, a, k);
    if k < |before.log| {
      n, m, i := TakenInModeRead(tickets, modes, actions[..last], k);
      assert actions[..last][..n] == actions[..n];
      assert forall j | n < j < m :: actions[..last][j] == actions[j];
    } else {
      m, i := last, a.worker;
      n := AuthorisedModeWasRead(tickets, modes, actions[..last], i);
      assert actions[..last][..n] == actions[..n];
      assert forall j | n < j < last :: actions[..last][j] == actions[j];
    }
  }

  /** An action appends to the log; a ticket is logged as taken in the mode its worker was authorised in. */
  lemma LogOnlyGrows(s: State, a: Action, k: nat)
    requires k < |Apply(s, a).log|
    ensures k < |s.log| ==> Apply(s, a).log[k] == s.log[k]
    ensures k >= |s.log| && Apply(s, a).log[k].Took? ==>
              && a.Step? && a.worker < |s.workers| && a.choice == Takes(Apply(s, a).log[k].ticket)
              && s.workers[a.worker].phase == Authorised(Apply(s, a).log[k].mode)
  {
    hide Next, ReadyIds, SetStatus, TakesEffect, NewStatus, Effect;
    if a.Step? && a.worker < |s.workers| {
      EffectLogs(s, s.workers[a.worker].project, s.workers[a.worker].phase, a.choice);
    }
  }

  /** A step logs one event at most: a ticket taken in the mode authorised, or an operation. */
  lemma EffectLogs(s: State, project: string, phase: Phase, choice: Choice)
    ensures var log := Effect(s, project, phase, choice).log;
            || log == s.log
            || (phase.Authorised? && choice.Takes? && log == s.log + [Took(choice.ticket, phase.mode)])
            || (phase.Working? && log == s.log + [Did(phase.op, phase.ticket)])
  {
    hide ReadyIds, SetStatus, TakesEffect, NewStatus;
  }

  // ----- which ticket is taken -----

  /** A ticket of the project that waits to be taken, as the runner's target allows. */
  predicate Waits(s: State, project: string, id: string) {
    && id in s.tickets && s.tickets[id].project == project && s.tickets[id].status == Ready
    && (s.target == None || s.target == Some(id))
  }

  /** The worker takes a waiting ticket than which no waiting one is older, or earlier in the store at one instant. */
  ghost predicate TakesOldest(s: State, i: nat, id: string) {
    && i < |s.workers| && Waits(s, s.workers[i].project, id)
    && forall other | Waits(s, s.workers[i].project, other) ::
         var a, b := s.tickets[id], s.tickets[other];
         a.createdAt < b.createdAt || (a.createdAt == b.createdAt && a.place <= b.place)
  }

  /** Every ticket logged as taken was, when it was taken, an oldest waiting one of its worker's project. */
  lemma {:induction false} TakenWasTheOldestWaiting(tickets: map<string, Ticket>, modes: map<string, Mode>,
                                                    actions: seq<Action>, k: nat)
    returns (m: nat, i: nat)
    requires AllEnabled(tickets, modes, actions)
    requires var log := After(tickets, modes, actions).log; k < |log| && log[k].Took?
    ensures var taken := After(tickets, modes, actions).log[k];
            && m < |actions| && actions[m] == Step(i, Takes(taken.ticket))
            && TakesOldest(After(tickets, modes, actions[..m]), i, taken.ticket)
  {
    hide Apply;
    var last := |actions| - 1;
    var before, a := After(tickets, modes, actions[..last]), actions[last];
    LogOnlyGrows(before, a, k);
    if k < |before.log| {
      m, i := TakenWasTheOldestWaiting(tickets, modes, actions[..last], k);
      assert actions[..last][..m] == actions[..m];
    } else {
      m, i := last, a.worker;
      EnabledTakesOldest(before, i, a.choice);
    }
  }

  lemma EnabledTakesOldest(s: State, i: nat, choice: Choice)
    requires Enabled(s, Step(i, choice)) && choice.Takes? && i < |s.workers| && s.workers[i].phase.Authorised?
    ensures TakesOldest(s, i, choice.ticket)
  {
    assert forall other :: Waits(s, s.workers[i].project, other) <==> IsReady(s, s.workers[i].project, other);
  }

  /** A worker that may take a ticket goes away empty-handed only when none waits. */
  lemma NoneTakenMeansNoneWaits(s: State, i: nat)
    requires i < |s.workers| && s.workers[i].phase.Authorised? && Enabled(s, Step(i, Proceeds))
    ensures forall id :: !Waits(s, s.workers[i].project, id)
  {
    forall id ensures !Waits(s, s.workers[i].project, id) {
      assert id !in ReadyIds(s, s.workers[i].project);
    }
  }

  // ----- what a step does to the tickets -----

  /**
   A step moves the ticket in hand only: taken up it is active, delivered it awaits review, given up it
   is blocked.
   */
  lemma StepMovesTickets(s: State, i: nat, choice: Choice, id: string)
    requires i < |s.workers| && id in s.tickets
    ensures var t, phase := Apply(s, Step(i, choice)), s.workers[i].phase;
            && id in t.tickets && t.tickets[id] == MovedBy(phase, choice, id, s.tickets[id])
  {
    hide Next, Effect, MovedBy;
    EffectMovesTickets(s, s.workers[i].project, s.workers[i].phase, choice, id);
  }

  /** The ticket after a worker's step in this phase. */
  function MovedBy(phase: Phase, choice: Choice, id: string, ticket: Ticket): Ticket {
    if choice == Raises then ticket
    else if phase.Working? && phase.ticket == id && phase.op == Activate then ticket.(status := Active)
    else if phase.Working? && phase.ticket == id && phase.op == Deliver then ticket.(status := AwaitingReview)
    else if phase == Blocking(id) then ticket.(status := Blocked)
    else ticket
  }

  lemma EffectMovesTickets(s: State, project: string, phase: Phase, choice: Choice, id: string)
    requires id in s.tickets
    ensures var t := Effect(s, project, phase, choice);
            id in t.tickets && t.tickets[id] == MovedBy(phase, choice, id, s.tickets[id])
  {
    hide ReadyIds;
  }

  // ----- which starts are accepted -----

  /** A run starts exactly when the project may run by itself, none is running, and a named ticket waits in it. */
  lemma StartsExactly(s: State, r: Request)
    ensures var asked := Apply(s, Ask(r));
            (asked != s && Enter(asked, r).1.Ok?) <==>
              && r.project in s.modes && s.modes[r.project] in {AutonomousSandbox, AutonomousProject}
              && s.status != Running
              && (r.target.Some? ==>
                  && r.target.value in s.tickets && s.tickets[r.target.value].project == r.project
                  && s.tickets[r.target.value].status == Ready)
  {
    assert Authorise(s.modes, r.project).Ok? ==> Apply(s, Ask(r)).requests[r] == s.requests[r] + 1;
  }

  // ----- when operations fail -----

  /** An operation fails when it raises, or when the ticket it moves is gone; otherwise the next one follows. */
  lemma OperationFailsExactly(s: State, i: nat, choice: Choice, mode: Mode, id: string, op: Op)
    requires i < |s.workers| && s.workers[i].phase == Working(mode, id, op)
    ensures var next := Apply(s, Step(i, choice)).workers[i].phase;
            && (next == Failing(id) <==> choice == Raises || ((op == Activate || op == Deliver) && id !in s.tickets))
            && (next == Succeeded(id) <==> choice != Raises && op == Deliver && id in s.tickets)
  {
  }

  /** A failed ticket is blocked unless it is finished or blocked; the runner fails when that raises or it is gone. */
  lemma FailedTicketIsBlocked(s: State, i: nat, choice: Choice, id: string)
    requires i < |s.workers|
    ensures var next, status := Apply(s, Step(i, choice)).workers[i].phase,
                                if id in s.tickets then s.tickets[id].status else Draft;
            var done := status == Blocked || status == Satisfied || status == Closed;
            && (s.workers[i].phase == Failing(id) ==>
                && (next == Crashing <==> choice == Raises || id !in s.tickets)
                && (next == Blocking(id) <==> choice != Raises && id in s.tickets && !done))
            && (s.workers[i].phase == Blocking(id) ==>
                (next == Crashing <==> choice == Raises || id !in s.tickets))
  {
  }

  // ----- who started the workers -----

  /** The request was made when its project's mode was autonomous. */
  ghost predicate WasAsked(tickets: map<string, Ticket>, modes: map<string, Mode>, actions: seq<Action>, n: nat,
                           project: string) {
    && n < |actions| && actions[n].Ask? && actions[n].request.project == project
    && var s := After(tickets, modes, actions[..n]);
    && project in s.modes && s.modes[project] in {AutonomousSandbox, AutonomousProject}
  }

  lemma {:induction false} RequestsWereAsked(tickets: map<string, Ticket>, modes: map<string, Mode>,
                                             actions: seq<Action>, r: Request)
    returns (n: nat)
    requires r in After(tickets, modes, actions).requests
    ensures WasAsked(tickets, modes, actions, n, r.project)
  {
    var last := |actions| - 1;
    var before, a := After(tickets, modes, actions[..last]), actions[last];
    OnlyAskingRequests(before, a, r);
    hide Apply, Authorise;
    if r in before.requests {
      n := RequestsWereAsked(tickets, modes, actions[..last], r);
      assert actions[..last][..n] == actions[..n];
    } else {
      n := last;
    }
  }

  lemma OnlyAskingRequests(s: State, a: Action, r: Request)
    requires r in Apply(s, a).requests
    ensures r in s.requests || (a == Ask(r) && r.project in s.modes && MayRun(s.modes[r.project]))
  {
    hide Next, Effect;
    if a.Step? && a.worker < |s.workers| {
      EffectKeepsRequests(s, s.workers[a.worker].project, s.workers[a.worker].phase, a.choice);
    }
  }

  lemma EffectKeepsRequests(s: State, project: string, phase: Phase, choice: Choice)
    ensures Effect(s, project, phase, choice).requests == s.requests
  {
    hide SetStatus, ReadyIds;
  }

  /** Every worker runs for a project for which a run was asked while its mode was autonomous. */
  lemma {:induction false} WorkersWereAskedFor(tickets: map<string, Ticket>, modes: map<string, Mode>,
                                               actions: seq<Action>, i: nat)
    returns (n: nat)
    requires AllEnabled(tickets, modes, actions) && i < |After(tickets, modes, actions).workers|
    ensures WasAsked(tickets, modes, actions, n, After(tickets, modes, actions).workers[i].project)
  {
    var last := |actions| - 1;
    var before, a := After(tickets, modes, actions[..last]), actions[last];
    OnlyLockingAddsWorkers(before, a, i);
    hide Apply, Authorise, Enabled;
    if i < |before.workers| {
      n := WorkersWereAskedFor(tickets, modes, actions[..last], i);
      assert actions[..last][..n] == actions[..n];
    } else {
      n := RequestsWereAsked(tickets, modes, actions[..last], a.request);
      assert actions[..last][..n] == actions[..n];
    }
  }

  lemma OnlyLockingAddsWorkers(s: State, a: Action, i: nat)
    requires Enabled(s, a) && i < |Apply(s, a).workers|
    ensures if i < |s.workers| then Apply(s, a).workers[i].project == s.workers[i].project
            else a.Lock? && a.request in s.requests && Apply(s, a).workers[i].project == a.request.project
  {
    hide Next, Effect, ReadyIds;
    if a.Step? && a.worker < |s.workers| {
      EffectIsLocal(s, s.workers[a.worker].project, s.workers[a.worker].phase, a.choice);
    }
  }
}
