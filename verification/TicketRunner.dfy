/**
 The automatic ticket runner as interleaved steps: callers of `start` and `stop`, the worker
 threads `start` creates, and other code changing the store. Every locked block and every access
 to the store is one step; an operation on the workspace, the sandbox or the tickets either takes
 effect or raises. Saving the activity record is taken to succeed.
 */
module TicketRunner {
  import opened Wrappers

  datatype Mode = ReadOnly | Protected | AutonomousSandbox | AutonomousProject

  datatype TicketStatus = Draft | Ready | Active | Blocked | AwaitingReview | Satisfied | Rejected | Closed

  /**
   `place` is the ticket's position in the store. It orders READY tickets only, and the worker
   never makes a ticket READY, so its own saves leave the place as it is here.
   */
  datatype Ticket = Ticket(project: string, status: TicketStatus, createdAt: int, place: int)

  /** The order of a stable sort by time of creation. */
  predicate NotAfter(a: Ticket, b: Ticket) {
    a.createdAt < b.createdAt || (a.createdAt == b.createdAt && a.place <= b.place)
  }

  datatype Status = Idle | Running | Stopped | Completed | Failed

  /** The operations of one iteration, in order; a sandbox-mode iteration skips the four of promotion. */
  datatype Op =
    | Activate | StartPlan | AwaitPlan | ApprovePlan | StartSandbox | AwaitSandbox | Validate
    | ApprovePromotion | Promote | AwaitPromotion | Reconcile | Deliver

  /** Where a worker thread stands: what it does next, with what it has read. */
  datatype Phase =
    | Looping
    | Reading
    | Authorised(mode: Mode)
    | Chosen(mode: Mode, ticket: string, ready: nat)
    | Working(mode: Mode, ticket: string, op: Op)
    | Succeeded(ticket: string)
    | Counting(ticket: string, n: nat)
    | Failing(ticket: string)
    | Blocking(ticket: string)
    | Unsuccessful(ticket: string)
    | CountingFailure(ticket: string, n: nat)
    | Ending
    | Closing(status: Status)
    | Crashing
    | Finished

  datatype Worker = Worker(project: string, phase: Phase)

  datatype Request = Request(project: string, target: Option<string>)

  /** What the operations performed so far were, and when a ticket was taken in which mode. */
  datatype Event = Took(ticket: string, mode: Mode) | Did(op: Op, ticket: string)

  datatype Taken = Taken(ticket: string, row: Ticket)

  datatype State = State(
    status: Status,
    project: Option<string>,
    ticket: Option<string>,
    completed: nat,
    failed: nat,
    remaining: nat,
    stop: bool,
    target: Option<string>,
    requests: multiset<Request>,
    workers: seq<Worker>,
    tickets: map<string, Ticket>,
    modes: map<string, Mode>,
    taken: seq<Taken>,
    log: seq<Event>)

  predicate MayRun(mode: Mode) {
    mode == AutonomousSandbox || mode == AutonomousProject
  }

  predicate IsReady(s: State, project: string, id: string) {
    && id in s.tickets && s.tickets[id].project == project && s.tickets[id].status == Ready
    && (s.target.None? || s.target.value == id)
  }

  /** The tickets the runner may take next. */
  function ReadyIds(s: State, project: string): set<string> {
    set id | id in s.tickets && IsReady(s, project, id)
  }

  predicate IsOldest(s: State, project: string, id: string) {
    IsReady(s, project, id)
      && forall other | other in s.tickets :: IsReady(s, project, other) ==> NotAfter(s.tickets[id], s.tickets[other])
  }

  // ----- callers -----

  datatype Refusal = NotRegistered | WrongMode | AlreadyRunning | TicketNotReady

  /** The first part of `start`, before the lock is taken. */
  function Authorise(modes: map<string, Mode>, project: string): Result<(), Refusal> {
    if project !in modes then Err(NotRegistered) else if !MayRun(modes[project]) then Err(WrongMode) else Ok(())
  }

  predicate TicketIsReady(tickets: map<string, Ticket>, r: Request) {
    r.target.None?
      || (r.target.value in tickets && tickets[r.target.value].project == r.project
          && tickets[r.target.value].status == Ready)
  }

  /** The locked part of `start`; the worker thread exists from here on. */
  function Enter(s: State, r: Request): (State, Result<(), Refusal>) {
    var waiting := s.(requests := s.requests - multiset{r});
    if s.status == Running then (waiting, Err(AlreadyRunning))
    else if !TicketIsReady(s.tickets, r) then (waiting, Err(TicketNotReady))
    else
      var aimed := waiting.(target := r.target);
      (aimed.(status := Running, project := Some(r.project), ticket := None, completed := 0, failed := 0,
              remaining := |ReadyIds(aimed, r.project)|, stop := false,
              workers := s.workers + [Worker(r.project, Looping)], taken := []),
       Ok(()))
  }

  // ----- the worker -----

  /** How a worker's step goes: it proceeds, it raises, or it takes a ticket. */
  datatype Choice = Proceeds | Raises | Takes(ticket: string)

  function NextOp(mode: Mode, op: Op): Op {
    match op
    case Activate => StartPlan
    case StartPlan => AwaitPlan
    case AwaitPlan => ApprovePlan
    case ApprovePlan => StartSandbox
    case StartSandbox => AwaitSandbox
    case AwaitSandbox => Validate
    case Validate => if mode == AutonomousProject then ApprovePromotion else Deliver
    case ApprovePromotion => Promote
    case Promote => AwaitPromotion
    case AwaitPromotion => Reconcile
    case Reconcile => Deliver
    case Deliver => Deliver
  }

  function SetStatus(tickets: map<string, Ticket>, id: string, status: TicketStatus): map<string, Ticket> {
    if id in tickets then tickets[id := tickets[id].(status := status)] else tickets
  }

  /** Whether an operation takes effect: moving a ticket that no longer exists raises. */
  predicate TakesEffect(s: State, id: string, op: Op, choice: Choice) {
    choice != Raises && (op == Activate || op == Deliver ==> id in s.tickets)
  }

  /** The place a worker goes to next. */
  function Next(s: State, project: string, phase: Phase, choice: Choice): Phase {
    var raises := choice == Raises;
    match phase
    case Looping => if s.stop then Ending else Reading
    case Reading =>
      if !raises && project in s.modes && MayRun(s.modes[project]) then Authorised(s.modes[project]) else Crashing
    case Authorised(mode) =>
      if raises then Crashing
      else if choice.Takes? && choice.ticket in s.tickets then Chosen(mode, choice.ticket, |ReadyIds(s, project)|)
      else Ending
    case Chosen(mode, id, n) => Working(mode, id, Activate)
    case Working(mode, id, op) =>
      if !TakesEffect(s, id, op, choice) then Failing(id)
      else if op == Deliver then Succeeded(id)
      else Working(mode, id, NextOp(mode, op))
    case Succeeded(id) => Counting(id, s.completed)
    case Counting(id, n) => Looping
    case Failing(id) =>
      if raises || id !in s.tickets then Crashing
      else if s.tickets[id].status in {Blocked, Satisfied, Closed} then Unsuccessful(id)
      else Blocking(id)
    case Blocking(id) => if raises || id !in s.tickets then Crashing else Unsuccessful(id)
    case Unsuccessful(id) => CountingFailure(id, s.failed)
    case CountingFailure(id, n) => Looping
    case Ending => Closing(if s.stop then Stopped else Completed)
    case Closing(status) => if raises then Crashing else Finished
    case Crashing => Finished
    case Finished => Finished
  }

  function NewStatus(op: Op): Option<TicketStatus> {
    match op
    case Activate => Some(Active)
    case Deliver => Some(AwaitingReview)
    case _ => None
  }

  /** What a worker's step changes besides its own place. */
  function Effect(s: State, project: string, phase: Phase, choice: Choice): State {
    var raises := choice == Raises;
    match phase
    case Authorised(mode) =>
      if choice.Takes? && choice.ticket in s.tickets then
        s.(taken := s.taken + [Taken(choice.ticket, s.tickets[choice.ticket])],
           log := s.log + [Took(choice.ticket, mode)])
      else s
    case Chosen(mode, id, n) => s.(ticket := Some(id), remaining := n)
    case Working(mode, id, op) =>
      if !TakesEffect(s, id, op, choice) then s
      else s.(log := s.log + [Did(op, id)],
              tickets := if NewStatus(op).Some? then SetStatus(s.tickets, id, NewStatus(op).value) else s.tickets)
    case Counting(id, n) => s.(completed := n + 1)
    case Blocking(id) => if raises then s else s.(tickets := SetStatus(s.tickets, id, Blocked))
    case CountingFailure(id, n) => s.(failed := n + 1)
    case Closing(status) =>
      if raises then s else s.(status := status, ticket := None, remaining := |ReadyIds(s, project)|)
    case Crashing => s.(status := Failed)
    case _ => s
  }

  function Work(s: State, i: nat, choice: Choice): State
    requires i < |s.workers|
  {
    var w := s.workers[i];
    Effect(s, w.project, w.phase, choice).(workers := s.workers[i := w.(phase := Next(s, w.project, w.phase, choice))])
  }

  // ----- interleaving -----

  datatype Action =
    | Ask(request: Request)
    | Lock(request: Request)
    | StopCall
    | Step(worker: nat, choice: Choice)
    | Change(tickets: map<string, Ticket>, modes: map<string, Mode>)

  predicate IsLive(s: State, i: nat) {
    i < |s.workers| && s.workers[i].phase != Finished
  }

  /** A worker with ready tickets takes an oldest one; with none it takes none. */
  predicate Enabled(s: State, a: Action) {
    match a
    case Ask(_) => true
    case Lock(r) => r in s.requests
    case StopCall => true
    case Step(i, choice) =>
      IsLive(s, i)
      && (if s.workers[i].phase.Authorised? then
            choice == Raises || (if choice.Takes? then IsOldest(s, s.workers[i].project, choice.ticket)
                                 else ReadyIds(s, s.workers[i].project) == {})
          else !choice.Takes?)
    case Change(_, _) => true
  }

  function Apply(s: State, a: Action): State {
    match a
    case Ask(r) => if Authorise(s.modes, r.project).Ok? then s.(requests := s.requests + multiset{r}) else s
    case Lock(r) => Enter(s, r).0
    case StopCall => s.(stop := true)
    case Step(i, choice) => if i < |s.workers| then Work(s, i, choice) else s
    case Change(tickets, modes) => s.(tickets := tickets, modes := modes)
  }

  function Initial(tickets: map<string, Ticket>, modes: map<string, Mode>): State {
    State(Idle, None, None, 0, 0, 0, false, None, multiset{}, [], tickets, modes, [], [])
  }

  function After(tickets: map<string, Ticket>, modes: map<string, Mode>, actions: seq<Action>): State {
    if actions == [] then Initial(tickets, modes)
    else Apply(After(tickets, modes, actions[..|actions| - 1]), actions[|actions| - 1])
  }

  ghost predicate AllEnabled(tickets: map<string, Ticket>, modes: map<string, Mode>, actions: seq<Action>) {
    actions == []
    || (AllEnabled(tickets, modes, actions[..|actions| - 1])
        && Enabled(After(tickets, modes, actions[..|actions| - 1]), actions[|actions| - 1]))
  }
}
