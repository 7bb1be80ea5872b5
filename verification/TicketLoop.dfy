/**
 The runner itself: `start`, `stop` and the worker's loop over its own state, each shown to be
 steps of the interleaved machine, so that what holds of every interleaving holds of this code.
 */
module TicketLoop {
  import opened Wrappers
  import opened TicketRunner
  import opened TicketRuns
  import opened TicketTermination

  /** The steps lead from one state to the other and are all of the live worker `i`. */
  ghost predicate Path(s: State, t: State, i: nat, steps: seq<Action>) {
    Replay(s, steps) == t && During(s, i, steps) && forall a | a in steps :: a.Step?
  }

  lemma {:induction false} PathMore(s: State, t: State, i: nat, steps: seq<Action>, choice: Choice)
    requires Path(s, t, i, steps) && IsLive(t, i) && Enabled(t, Step(i, choice))
    ensures Path(s, Work(t, i, choice), i, steps + [Step(i, choice)])
    decreases |steps|
  {
    var more := steps + [Step(i, choice)];
    hide Work, Enabled;
    assert forall a | a in more :: a in steps || a == Step(i, choice);
    if steps == [] {
      assert more[1..] == [] && more[0] == Step(i, choice);
      assert Apply(s, more[0]) == Work(t, i, choice);
      assert Replay(s, more) == Replay(Apply(s, more[0]), more[1..]);
      assert Replay(Apply(s, more[0]), []) == Apply(s, more[0]);
      assert During(Apply(s, more[0]), i, []);
      assert During(s, i, more);
    } else {
      assert more[0] == steps[0] && more[1..] == steps[1..] + [Step(i, choice)];
      assert forall a | a in steps[1..] :: a in steps;
      PathMore(Apply(s, steps[0]), t, i, steps[1..], choice);
      assert Replay(s, more) == Replay(Apply(s, more[0]), more[1..]);
      assert During(s, i, more);
    }
  }

  ghost predicate NoneOlder(ids: set<string>, tickets: map<string, Ticket>, oldest: string) {
    oldest in tickets && forall id | id in ids && id in tickets :: NotAfter(tickets[oldest], tickets[id])
  }

  /** The first of the tickets in the order of their creation, those of one instant in store order. */
  method Oldest(tickets: map<string, Ticket>, ids: set<string>) returns (oldest: string)
    requires ids != {} && ids <= tickets.Keys
    ensures oldest in ids && NoneOlder(ids, tickets, oldest)
  {
    oldest :| oldest in ids;
    var rest := ids - {oldest};
    while rest != {}
      invariant rest <= ids && oldest in ids - rest && NoneOlder(ids - rest, tickets, oldest)
      decreases |rest|
    {
      var id :| id in rest;
      rest := rest - {id};
      if !NotAfter(tickets[oldest], tickets[id]) {
        oldest := id;
      }
    }
  }

  lemma NoneOlderIsOldest(s: State, project: string, id: string)
    requires id in ReadyIds(s, project) && NoneOlder(ReadyIds(s, project), s.tickets, id)
    ensures IsOldest(s, project, id)
  {
    assert IsReady(s, project, id);
    forall other | other in s.tickets && IsReady(s, project, other) ensures NotAfter(s.tickets[id], s.tickets[other]) {
      assert other in ReadyIds(s, project);
    }
  }

  lemma ReadyAreTickets(s: State, project: string)
    ensures ReadyIds(s, project) <= s.tickets.Keys
  {
  }

  lemma {:induction false} OwnStepsAreCalm(s: State, steps: seq<Action>)
    requires forall a | a in steps :: a.Step?
    ensures AllCalm(s, steps)
    decreases |steps|
  {
    if steps != [] {
      assert forall a | a in steps[1..] :: a in steps;
      OwnStepsAreCalm(Apply(s, steps[0]), steps[1..]);
    }
  }

  /** A run nobody interferes with: what the loop leaves behind. */
  lemma RunAlone(s: State, r: Request, t: State, steps: seq<Action>)
    requires Inv(s) && Enter(s, r).1.Ok? && Path(Enter(s, r).0, t, |s.workers|, steps) && At(t, |s.workers|, Finished)
    ensures var ready := ReadyIds(Enter(s, r).0, r.project);
            && NoneTwice(t.taken) && OldestFirst(t.taken)
            && (forall k | 0 <= k < |t.taken| :: t.taken[k].ticket in ready)
            && |t.taken| <= |ready| && |steps| <= 24 * |ready| + 6
            && (t.status == Completed ==> ReadyIds(t, r.project) == {})
  {
    var begun, i := Enter(s, r).0, |s.workers|;
    OwnStepsAreCalm(begun, steps);
    EnterKeepsInv(s, r);
    OnlyItsSteps(begun, i, steps);
    hide Inv, Enter, ReadyIds;
    CalmRunTakesReadyTicketsInOrder(s, r, steps);
  }

  lemma {:induction false} OnlyItsSteps(s: State, i: nat, steps: seq<Action>)
    requires Inv(s) && During(s, i, steps) && forall a | a in steps :: a.Step?
    ensures StepsOf(steps, i) == |steps|
    decreases |steps|
  {
    if steps != [] {
      assert steps[0] in steps && forall a | a in steps[1..] :: a in steps;
      OnlyOneSteps(s, i, steps[0]);
      ActionKeepsInv(s, steps[0]);
      hide Inv, Apply, Enabled;
      OnlyItsSteps(Apply(s, steps[0]), i, steps[1..]);
    }
  }

  predicate At(s: State, i: nat, phase: Phase) {
    i < |s.workers| && s.workers[i].phase == phase
  }

  class AutomaticTicketRunner {
    var state: State

    constructor (tickets: map<string, Ticket>, modes: map<string, Mode>)
      ensures state == Initial(tickets, modes)
    {
      state := Initial(tickets, modes);
    }

    /** `start`, nobody intervening: the mode is read, and then the locked block is entered. */
    method Start(project: string, target: Option<string>) returns (r: Result<(), Refusal>)
      modifies this
      ensures var request := Request(project, target);
              if Authorise(old(state).modes, project).Err? then r == Authorise(old(state).modes, project)
                 && state == old(state)
              else state == Apply(Apply(old(state), Ask(request)), Lock(request))
                   && r == Enter(Apply(old(state), Ask(request)), request).1
    {
      hide ReadyIds, IsReady;
      if project !in state.modes {
        return Err(NotRegistered);
      }
      if !MayRun(state.modes[project]) {
        return Err(WrongMode);
      }
      ghost var request := Request(project, target);
      assert state.requests + multiset{request} - multiset{request} == state.requests;
      if state.status == Running {
        return Err(AlreadyRunning);
      }
      if target.Some?
         && !(target.value in state.tickets && state.tickets[target.value].project == project
              && state.tickets[target.value].status == Ready) {
        return Err(TicketNotReady);
      }
      state := state.(target := target);
      var ready := |ReadyIds(state, project)|;
      state := state.(stop := false);
      state := state.(status := Running, project := Some(project), ticket := None, completed := 0, failed := 0,
                      remaining := ready, taken := []);
      state := state.(workers := state.workers + [Worker(project, Looping)]);
      r := Ok(());
    }

    method Stop()
      modifies this
      ensures state == Apply(old(state), StopCall)
    {
      state := state.(stop := true);
    }

    ghost predicate InProgress(i: nat, origin: State, steps: seq<Action>)
      reads this
    {
      Path(origin, state, i, steps) && WorkerCalm(state, i)
    }

    /** One step of worker `i`; `steps` are its steps since `origin`. */
    method Do(i: nat, choice: Choice, ghost origin: State, ghost steps: seq<Action>) returns (ghost more: seq<Action>)
      requires InProgress(i, origin, steps) && IsLive(state, i) && Enabled(state, Step(i, choice))
      modifies this
      ensures state == Work(old(state), i, choice) && InProgress(i, origin, more)
      ensures Measure(state, i) < Measure(old(state), i)
      ensures At(state, i, Next(old(state), old(state).workers[i].project, old(state).workers[i].phase, choice))
      ensures state.workers[i].project == old(state).workers[i].project
    {
      EffectIsLocal(state, state.workers[i].project, state.workers[i].phase, choice);
      more := steps + [Step(i, choice)];
      PathMore(origin, state, i, steps, choice);
      StepLowersMeasure(state, i, choice);
      state := Work(state, i, choice);
    }

    /** The operations of one iteration, one after another, up to the first that raises. */
    method Attempt(i: nat, mode: Mode, id: string, ghost origin: State, ghost steps: seq<Action>)
      returns (ok: bool, ghost more: seq<Action>)
      requires InProgress(i, origin, steps) && At(state, i, Working(mode, id, Activate))
      modifies this
      ensures InProgress(i, origin, more) && Measure(state, i) < Measure(old(state), i)
      ensures At(state, i, if ok then Succeeded(id) else Failing(id))
      ensures state.workers[i].project == old(state).workers[i].project
    {
      hide InProgress, Measure, Work, ReadyIds;
      more := steps;
      var op := Activate;
      while true
        invariant InProgress(i, origin, more) && At(state, i, Working(mode, id, op))
        invariant Measure(state, i) <= old(Measure(state, i))
        invariant state.workers[i].project == old(state).workers[i].project
        decreases OpRank(op)
      {
        var raises: bool := *;
        ok := !raises && (op == Activate || op == Deliver ==> id in state.tickets);
        more := Do(i, if raises then Raises else Proceeds, origin, more);
        if !ok || op == Deliver {
          return;
        }
        NextOpRank(mode, op);
        op := NextOp(mode, op);
      }
    }

    /** What follows a raised exception: the ticket is blocked unless it is settled, and the failure is counted. */
    method Recover(i: nat, id: string, ghost origin: State, ghost steps: seq<Action>)
      returns (ok: bool, ghost more: seq<Action>)
      requires InProgress(i, origin, steps) && At(state, i, Failing(id))
      modifies this
      ensures InProgress(i, origin, more) && Measure(state, i) < Measure(old(state), i)
      ensures At(state, i, if ok then Looping else Crashing)
      ensures state.workers[i].project == old(state).workers[i].project
    {
      hide InProgress, Measure, Work, ReadyIds;
      var raises: bool := *;
      ok := !raises && id in state.tickets;
      var settled := ok && state.tickets[id].status in {Blocked, Satisfied, Closed};
      more := Do(i, if raises then Raises else Proceeds, origin, steps);
      if ok && !settled {
        ok, more := Block(i, id, origin, more);
      }
      if ok {
        more := CountFailure(i, id, origin, more);
      }
    }

    method Block(i: nat, id: string, ghost origin: State, ghost steps: seq<Action>)
      returns (ok: bool, ghost more: seq<Action>)
      requires InProgress(i, origin, steps) && At(state, i, Blocking(id))
      modifies this
      ensures InProgress(i, origin, more) && Measure(state, i) < Measure(old(state), i)
      ensures At(state, i, if ok then Unsuccessful(id) else Crashing)
      ensures state.workers[i].project == old(state).workers[i].project
    {
      hide InProgress, Measure, Work, ReadyIds;
      var raises: bool := *;
      ok := !raises && id in state.tickets;
      more := Do(i, if raises then Raises else Proceeds, origin, steps);
    }

    method CountFailure(i: nat, id: string, ghost origin: State, ghost steps: seq<Action>)
      returns (ghost more: seq<Action>)
      requires InProgress(i, origin, steps) && At(state, i, Unsuccessful(id))
      modifies this
      ensures InProgress(i, origin, more) && Measure(state, i) < Measure(old(state), i)
      ensures At(state, i, Looping) && state.workers[i].project == old(state).workers[i].project
    {
      hide InProgress, Measure, Work, ReadyIds;
      more := Do(i, Proceeds, origin, steps);
      more := Do(i, Proceeds, origin, more);
    }

    /** The top of an iteration, up to the ticket taken: none when the loop is left or crashes. */
    method TakeNext(i: nat, ghost origin: State, ghost steps: seq<Action>)
      returns (taken: Option<(Mode, string)>, crashed: bool, ghost more: seq<Action>)
      requires InProgress(i, origin, steps) && At(state, i, Looping) && !state.stop
      modifies this
      ensures InProgress(i, origin, more) && Measure(state, i) < Measure(old(state), i) && i < |state.workers|
      ensures taken.Some? ==> !crashed
      ensures At(state, i,
                 if taken.Some? then Working(taken.value.0, taken.value.1, Activate)
                 else if crashed then Crashing else Ending)
      ensures state.workers[i].project == old(state).workers[i].project
    {
      hide InProgress, Measure, Work, ReadyIds, IsReady, IsOldest;
      taken, crashed := None, false;
      var project := state.workers[i].project;
      more := Do(i, Proceeds, origin, steps);
      var raises: bool := *;
      crashed := raises || project !in state.modes || !MayRun(state.modes[project]);
      var mode := if crashed then ReadOnly else state.modes[project];
      more := Do(i, if raises then Raises else Proceeds, origin, more);
      if crashed {
        return;
      }
      crashed := *;
      var ready := ReadyIds(state, project);
      if crashed || ready == {} {
        more := Do(i, if crashed then Raises else Proceeds, origin, more);
        return;
      }
      ReadyAreTickets(state, project);
      var id := Oldest(state.tickets, ready);
      NoneOlderIsOldest(state, project, id);
      more := Do(i, Takes(id), origin, more);
      more := Do(i, Proceeds, origin, more);
      taken := Some((mode, id));
    }

    /** The end of the worker, after the loop or a crash. */
    method Leave(i: nat, crashed: bool, ghost origin: State, ghost steps: seq<Action>) returns (ghost more: seq<Action>)
      requires InProgress(i, origin, steps) && At(state, i, if crashed then Crashing else Ending)
      modifies this
      ensures InProgress(i, origin, more) && At(state, i, Finished)
    {
      hide InProgress, Measure, Work, ReadyIds;
      more := steps;
      var raises := crashed;
      if !crashed {
        more := Do(i, Proceeds, origin, more);
        raises := *;
        more := Do(i, if raises then Raises else Proceeds, origin, more);
      }
      if raises {
        more := Do(i, Proceeds, origin, more);
      }
    }

    lemma UnfoldProgress(i: nat, origin: State, steps: seq<Action>)
      requires InProgress(i, origin, steps)
      ensures Path(origin, state, i, steps)
    {
    }

    /** A delivered ticket is counted. */
    method Count(i: nat, id: string, ghost origin: State, ghost steps: seq<Action>) returns (ghost more: seq<Action>)
      requires InProgress(i, origin, steps) && At(state, i, Succeeded(id))
      modifies this
      ensures InProgress(i, origin, more) && Measure(state, i) < Measure(old(state), i)
      ensures At(state, i, Looping) && state.workers[i].project == old(state).workers[i].project
    {
      hide InProgress, Measure, Work, ReadyIds;
      more := Do(i, Proceeds, origin, steps);
      more := Do(i, Proceeds, origin, more);
    }

    /** The stop flag is found set. */
    method Notice(i: nat, ghost origin: State, ghost steps: seq<Action>) returns (ghost more: seq<Action>)
      requires InProgress(i, origin, steps) && At(state, i, Looping) && state.stop
      modifies this
      ensures InProgress(i, origin, more) && At(state, i, Ending)
    {
      hide InProgress, Measure, Work, ReadyIds;
      more := Do(i, Proceeds, origin, steps);
    }

    /** One iteration: it goes on, or the loop is left, or the worker crashes. */
    method Iterate(i: nat, ghost origin: State, ghost steps: seq<Action>)
      returns (leaving: bool, crashed: bool, ghost more: seq<Action>)
      requires InProgress(i, origin, steps) && At(state, i, Looping) && !state.stop
      modifies this
      ensures InProgress(i, origin, more) && Measure(state, i) < Measure(old(state), i)
      ensures At(state, i, if crashed then Crashing else if leaving then Ending else Looping)
    {
      hide InProgress, Measure, Work, Next, Enabled;
      var taken;
      taken, crashed, more := TakeNext(i, origin, steps);
      leaving := taken.None?;
      if taken.Some? {
        var ok;
        ok, more := Attempt(i, taken.value.0, taken.value.1, origin, more);
        if ok {
          more := Count(i, taken.value.1, origin, more);
        } else {
          ok, more := Recover(i, taken.value.1, origin, more);
          crashed := !ok;
        }
      }
    }

    /**
     The worker's loop. Without interleaving it is a path of worker `i`'s steps to its end, so every
     property of interleavings holds of it, and it terminates.
     */
    method Run(i: nat) returns (ghost steps: seq<Action>)
      requires At(state, i, Looping)
      modifies this
      ensures Path(old(state), state, i, steps) && At(state, i, Finished)
    {
      ghost var origin := state;
      steps := [];
      var leaving, crashed := false, false;
      assert InProgress(i, origin, steps);
      hide InProgress, Measure, Work, Next, Path;
      while !state.stop && !leaving && !crashed
        invariant InProgress(i, origin, steps)
        invariant At(state, i, if crashed then Crashing else if leaving then Ending else Looping)
        decreases Measure(state, i)
      {
        leaving, crashed, steps := Iterate(i, origin, steps);
      }
      if !crashed && !leaving {
        steps := Notice(i, origin, steps);
      }
      steps := Leave(i, crashed, origin, steps);
      UnfoldProgress(i, origin, steps);
    }
  }
}
