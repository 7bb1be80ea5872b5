/**
 Autonomous deliberation over whole runs: one active inquiry a session, no branch inquired twice,
 a bounded number of inquiries, and a budget that stays exhausted.
 */
module DeliberationRuns {
  import opened Wrappers
  import opened Sorting
  import opened Deliberation

  /** A call on the manager, or the worker marking an active inquiry queued or running. */
  datatype Call =
    | Deliberate(session: string, branches: seq<Branch>, decision: string, inquiry: string)
    | Complete(i: Inquiry, result: WorkResult)
    | Fail(i: Inquiry)
    | Advance(i: Inquiry, status: InquiryStatus)

  /** The caller's copy is of this row, whatever its status. */
  predicate CopyOf(i: Inquiry, row: Inquiry) {
    i.id == row.id && i.session == row.session && i.decision == row.decision && i.branch == row.branch
  }

  predicate IsRow(book: Book, i: Inquiry) {
    i.id in book.inquiries && CopyOf(i, book.inquiries[i.id])
  }

  /** New ids are fresh, saved inquiries come from the store, and the worker moves only active ones. */
  ghost predicate Allowed(book: Book, call: Call) {
    match call
    case Deliberate(_, branches, decision, inquiry) =>
      DistinctIds(branches) && decision !in book.decisions && inquiry !in book.inquiries
    case Complete(i, _) => IsRow(book, i)
    case Fail(i) => IsRow(book, i)
    case Advance(i, status) =>
      IsRow(book, i) && book.inquiries[i.id].Active() && (status == Queued || status == Running)
  }

  function Perform(budget: Budget, round: Rounding, book: Book, call: Call): Book
    requires budget.Valid()
  {
    match call
    case Deliberate(session, branches, decision, inquiry) =>
      Deliberated(budget, round, book, session, branches, decision, inquiry)
    case Complete(i, result) => CompletedBook(book, i, result)
    case Fail(i) => FailedBook(book, i)
    case Advance(i, status) => SaveInquiry(book, i.(status := status))
  }

  function After(budget: Budget, round: Rounding, calls: seq<Call>): Book
    requires budget.Valid()
  {
    if calls == [] then Book(map[], map[], [])
    else Perform(budget, round, After(budget, round, calls[..|calls| - 1]), calls[|calls| - 1])
  }

  ghost predicate AllAllowed(budget: Budget, round: Rounding, calls: seq<Call>)
    requires budget.Valid()
  {
    calls == []
    || (AllAllowed(budget, round, calls[..|calls| - 1])
        && Allowed(After(budget, round, calls[..|calls| - 1]), calls[|calls| - 1]))
  }

  /** How often the session's deliberation was asked for. */
  function Deliberations(calls: seq<Call>, session: string): nat {
    if calls == [] then 0
    else Deliberations(calls[..|calls| - 1], session)
         + if calls[|calls| - 1].Deliberate? && calls[|calls| - 1].session == session then 1 else 0
  }

  // ----- the invariant -----

  ghost predicate KeysAreIds(book: Book) {
    (forall k | k in book.decisions :: book.decisions[k].id == k)
      && (forall k | k in book.inquiries :: book.inquiries[k].id == k)
  }

  ghost predicate OneActive(book: Book) {
    forall a, b | a in book.inquiries && b in book.inquiries && book.inquiries[a].session == book.inquiries[b].session
                  && book.inquiries[a].Active() && book.inquiries[b].Active() :: a == b
  }

  ghost predicate NoBranchTwice(book: Book) {
    forall a, b | a in book.inquiries && b in book.inquiries && book.inquiries[a].session == book.inquiries[b].session
                  && book.inquiries[a].branch == book.inquiries[b].branch :: a == b
  }

  function StatusFor(status: InquiryStatus): DecisionStatus {
    match status
    case Completed => DecisionCompleted
    case Failed => DecisionFailed
    case _ => Selected
  }

  /** Every inquiry's decision is of its session, names it, chose its branch and has the matching status. */
  ghost predicate Mirrored(book: Book) {
    forall k | k in book.inquiries ::
      var i := book.inquiries[k];
      i.decision in book.decisions
      && (var d := book.decisions[i.decision];
          d.session == i.session && d.inquiry == Some(k) && d.selected == Some(i.branch)
            && d.status == StatusFor(i.status))
  }

  ghost predicate Counted(budget: Budget, book: Book) {
    forall s: string ::
      |InquiriesOf(book, s)| <= |DecisionsOf(book, s)| && |InquiriesOf(book, s)| <= budget.maxDecisions
  }

  ghost predicate Inv(budget: Budget, book: Book) {
    KeysAreIds(book) && OneActive(book) && NoBranchTwice(book) && Mirrored(book) && Counted(budget, book)
  }

  // ----- what the calls do to the counts -----

  lemma SavedInquiryCounts(book: Book, i: Inquiry, s: string)
    requires i.id in book.inquiries ==> book.inquiries[i.id].session == i.session
    ensures InquiriesOf(SaveInquiry(book, i), s) == InquiriesOf(book, s) + if i.session == s then {i.id} else {}
    ensures DecisionsOf(SaveInquiry(book, i), s) == DecisionsOf(book, s)
  {
  }

  lemma SavedDecisionCounts(book: Book, d: Decision, s: string)
    requires d.id in book.decisions ==> book.decisions[d.id].session == d.session
    ensures DecisionsOf(SaveDecision(book, d), s) == DecisionsOf(book, s) + if d.session == s then {d.id} else {}
    ensures InquiriesOf(SaveDecision(book, d), s) == InquiriesOf(book, s)
  {
  }

  lemma DeliberationCounts(budget: Budget, round: Rounding, book: Book, session: string, branches: seq<Branch>,
                           decision: string, inquiry: string, s: string)
    requires budget.Valid() && decision !in book.decisions && inquiry !in book.inquiries
    ensures var after := Deliberated(budget, round, book, session, branches, decision, inquiry);
            if session == s then
              && |DecisionsOf(after, s)| == |DecisionsOf(book, s)| + 1
              && |InquiriesOf(book, s)| <= |InquiriesOf(after, s)| <= |InquiriesOf(book, s)| + 1
              && (|DecisionsOf(book, s)| >= budget.maxDecisions ==> |InquiriesOf(after, s)| == |InquiriesOf(book, s)|)
            else DecisionsOf(after, s) == DecisionsOf(book, s) && InquiriesOf(after, s) == InquiriesOf(book, s)
  {
    var c := Cycle(budget, round, book, session, branches, decision, inquiry);
    CycleShape(budget, round, book, session, branches, decision, inquiry);
    hide DecisionsOf, InquiriesOf, Cycle;
    SavedDecisionCounts(book, c.0, s);
    FreshDecision(book, decision, s);
    if c.1.Some? {
      SavedInquiryCounts(SaveDecision(book, c.0), c.1.value, s);
      FreshInquiry(book, inquiry, s);
    }
  }

  lemma CycleShape(budget: Budget, round: Rounding, book: Book, session: string, branches: seq<Branch>,
                   decision: string, inquiry: string)
    requires budget.Valid()
    ensures var c := Cycle(budget, round, book, session, branches, decision, inquiry);
            && c.0.id == decision && c.0.session == session
            && (c.1.Some? ==>
                c.1.value.id == inquiry && c.1.value.session == session
                && |DecisionsOf(book, session)| < budget.maxDecisions)
  {
    hide DecisionsOf, RankedScores, HasActive, Eligibles;
  }

  /** Only deliberation changes the rows of a session, and it adds exactly one decision to its own. */
  lemma CallCounts(budget: Budget, round: Rounding, book: Book, call: Call, s: string)
    requires budget.Valid() && KeysAreIds(book) && Mirrored(book) && Allowed(book, call)
    ensures var after := Perform(budget, round, book, call);
            if call.Deliberate? && call.session == s then
              && |DecisionsOf(after, s)| == |DecisionsOf(book, s)| + 1
              && |InquiriesOf(book, s)| <= |InquiriesOf(after, s)| <= |InquiriesOf(book, s)| + 1
              && (|DecisionsOf(book, s)| >= budget.maxDecisions ==> |InquiriesOf(after, s)| == |InquiriesOf(book, s)|)
            else DecisionsOf(after, s) == DecisionsOf(book, s) && InquiriesOf(after, s) == InquiriesOf(book, s)
  {
    hide DecisionsOf, InquiriesOf, Deliberated, DistinctIds, KeysAreIds, Mirrored, Concluded;
    match call
    case Deliberate(session, branches, decision, inquiry) =>
      DeliberationCounts(budget, round, book, session, branches, decision, inquiry, s);
    case Complete(i, result) =>
      ConcludedCounts(book, i.(workResult := Some(result.id)), Completed, DecisionCompleted, s);
      OutcomesDoNotCount(Concluded(book, i.(workResult := Some(result.id)), Completed, DecisionCompleted),
                         OutcomeOf(i, result), s);
    case Fail(i) =>
      ConcludedCounts(book, i, Failed, DecisionFailed, s);
    case Advance(i, status) =>
      SavedInquiryCounts(book, i.(status := status), s);
      RowIsCounted(book, i, s);
  }

  lemma FreshDecision(book: Book, id: string, s: string)
    requires id !in book.decisions
    ensures id !in DecisionsOf(book, s)
  {
  }

  lemma FreshInquiry(book: Book, id: string, s: string)
    requires id !in book.inquiries
    ensures id !in InquiriesOf(book, s)
  {
  }

  lemma RowIsCounted(book: Book, i: Inquiry, s: string)
    requires IsRow(book, i)
    ensures i.session == s ==> InquiriesOf(book, s) + {i.id} == InquiriesOf(book, s)
  {
  }

  lemma DecisionIsCounted(book: Book, id: string, s: string)
    requires id in book.decisions && book.decisions[id].session == s
    ensures DecisionsOf(book, s) + {id} == DecisionsOf(book, s)
  {
  }

  lemma OutcomesDoNotCount(book: Book, o: Outcome, s: string)
    ensures DecisionsOf(book.(outcomes := book.outcomes + [o]), s) == DecisionsOf(book, s)
    ensures InquiriesOf(book.(outcomes := book.outcomes + [o]), s) == InquiriesOf(book, s)
  {
  }

  lemma ConcludedCounts(book: Book, i: Inquiry, status: InquiryStatus, decisionStatus: DecisionStatus, s: string)
    requires KeysAreIds(book) && Mirrored(book) && IsRow(book, i)
    ensures var after := Concluded(book, i, status, decisionStatus);
            DecisionsOf(after, s) == DecisionsOf(book, s) && InquiriesOf(after, s) == InquiriesOf(book, s)
  {
    var saved := SaveInquiry(book, i.(status := status));
    var d := book.decisions[i.decision].(status := decisionStatus);
    SavedInquiryCounts(book, i.(status := status), s);
    RowIsCounted(book, i, s);
    SavedDecisionCounts(saved, d, s);
    if d.session == s { DecisionIsCounted(saved, d.id, s); }
    hide DecisionsOf, InquiriesOf;
  }

  // ----- every call keeps the invariant -----

  lemma RecordedKeepsInv(book: Book, d: Decision)
    requires KeysAreIds(book) && OneActive(book) && NoBranchTwice(book) && Mirrored(book) && d.id !in book.decisions
    ensures var after := SaveDecision(book, d);
            KeysAreIds(after) && OneActive(after) && NoBranchTwice(after) && Mirrored(after)
  {
  }

  lemma OpenedKeepsInv(book: Book, i: Inquiry)
    requires KeysAreIds(book) && OneActive(book) && NoBranchTwice(book) && Mirrored(book) && i.id !in book.inquiries
    requires !HasActive(book, i.session) && i.branch !in Attempted(book, i.session)
    requires i.status == Pending && i.decision in book.decisions
    requires var d := book.decisions[i.decision];
             && d.session == i.session && d.inquiry == Some(i.id)
             && d.selected == Some(i.branch) && d.status == Selected
    ensures var after := SaveInquiry(book, i);
            KeysAreIds(after) && OneActive(after) && NoBranchTwice(after) && Mirrored(after)
  {
    assert forall k | k in book.inquiries && book.inquiries[k].session == i.session ::
             !book.inquiries[k].Active() && book.inquiries[k].branch in Attempted(book, i.session);
  }

  lemma SavedDecisionIsNoInquiry(book: Book, d: Decision, session: string)
    ensures HasActive(SaveDecision(book, d), session) == HasActive(book, session)
    ensures Attempted(SaveDecision(book, d), session) == Attempted(book, session)
  {
  }

  lemma DeliberationKeepsInv(budget: Budget, round: Rounding, book: Book, session: string, branches: seq<Branch>,
                             decision: string, inquiry: string)
    requires budget.Valid() && KeysAreIds(book) && OneActive(book) && NoBranchTwice(book) && Mirrored(book)
    requires DistinctIds(branches) && decision !in book.decisions && inquiry !in book.inquiries
    ensures var after := Deliberated(budget, round, book, session, branches, decision, inquiry);
            KeysAreIds(after) && OneActive(after) && NoBranchTwice(after) && Mirrored(after)
  {
    var (d, i) := Cycle(budget, round, book, session, branches, decision, inquiry);
    ChosenIsEligible(budget, round, book, session, branches);
    SavedDecisionIsNoInquiry(book, d, session);
    hide RankedScores, Eligibles, DistinctIds, Eligible, HasActive, Attempted, KeysAreIds, OneActive, NoBranchTwice,
         Mirrored, DecisionsOf, Children, ScoreOf;
    RecordedKeepsInv(book, d);
    if i.Some? {
      OpenedKeepsInv(SaveDecision(book, d), i.value);
    }
  }

  lemma ChosenIsEligible(budget: Budget, round: Rounding, book: Book, session: string, branches: seq<Branch>)
    requires DistinctIds(branches)
    ensures var eligible := Eligibles(budget, book, session, branches);
            var ranked := RankedScores(round, branches, eligible);
            (ranked == [] <==> eligible == [])
            && (ranked != [] ==>
                  && (exists b ::
                        b in branches && Eligible(budget, Attempted(book, session), b) && ranked[0].branchId == b.id
                                  && ranked[0] == ScoreOf(round, b, Children(branches, b.id)))
                  && ranked[0].branchId !in Attempted(book, session))
  {
    var eligible := Eligibles(budget, book, session, branches);
    EligibleAreDistinct(budget, Attempted(book, session), branches);
    SortHolds(ByTotal(), ScoresOf(round, branches, eligible));
    if eligible != [] {
      FirstIsBest(round, branches, eligible, eligible[0]);
      var best :| best in eligible
                  && RankedScores(round, branches, eligible)[0] == ScoreOf(round, best, Children(branches, best.id));
      IdOfScore(round, best, Children(branches, best.id));
      assert best in branches && Eligible(budget, Attempted(book, session), best);
    }
  }

  lemma ConclusionKeepsInv(budget: Budget, book: Book, i: Inquiry, status: InquiryStatus)
    requires Inv(budget, book) && IsRow(book, i) && (status == Completed || status == Failed)
    ensures var after := Concluded(book, i, status, StatusFor(status));
            KeysAreIds(after) && OneActive(after) && NoBranchTwice(after) && Mirrored(after)
  {
    hide Counted, DecisionsOf, InquiriesOf;
    assert DecisionFound(book, i);
  }

  lemma AdvanceKeepsInv(book: Book, i: Inquiry, status: InquiryStatus)
    requires KeysAreIds(book) && OneActive(book) && NoBranchTwice(book) && Mirrored(book)
    requires IsRow(book, i) && book.inquiries[i.id].Active() && (status == Queued || status == Running)
    ensures var after := SaveInquiry(book, i.(status := status));
            KeysAreIds(after) && OneActive(after) && NoBranchTwice(after) && Mirrored(after)
  {
  }

  lemma OutcomesKeepInv(book: Book, o: Outcome)
    requires KeysAreIds(book) && OneActive(book) && NoBranchTwice(book) && Mirrored(book)
    ensures var after := book.(outcomes := book.outcomes + [o]);
            KeysAreIds(after) && OneActive(after) && NoBranchTwice(after) && Mirrored(after)
  {
  }

  lemma CallKeepsInv(budget: Budget, round: Rounding, book: Book, call: Call)
    requires budget.Valid() && Inv(budget, book) && Allowed(book, call)
    ensures Inv(budget, Perform(budget, round, book, call))
  {
    var after := Perform(budget, round, book, call);
    CountsStay(budget, round, book, call);
    hide Counted, KeysAreIds, OneActive, NoBranchTwice, Mirrored, Deliberated, DistinctIds, Concluded;
    match call
    case Deliberate(session, branches, decision, inquiry) =>
      DeliberationKeepsInv(budget, round, book, session, branches, decision, inquiry);
    case Complete(i, result) =>
      var i' := i.(workResult := Some(result.id));
      ConclusionKeepsInv(budget, book, i', Completed);
      OutcomesKeepInv(Concluded(book, i', Completed, DecisionCompleted), OutcomeOf(i, result));
    case Fail(i) =>
      ConclusionKeepsInv(budget, book, i, Failed);
    case Advance(i, status) =>
      AdvanceKeepsInv(book, i, status);
  }

  lemma CountsStay(budget: Budget, round: Rounding, book: Book, call: Call)
    requires budget.Valid() && Inv(budget, book) && Allowed(book, call)
    ensures Counted(budget, Perform(budget, round, book, call))
  {
    hide KeysAreIds, OneActive, NoBranchTwice, Mirrored, Allowed, Perform, DecisionsOf, InquiriesOf;
    forall s: string
      ensures |InquiriesOf(Perform(budget, round, book, call), s)| <=
                |DecisionsOf(Perform(budget, round, book, call), s)|
      ensures |InquiriesOf(Perform(budget, round, book, call), s)| <= budget.maxDecisions
    {
      CallCounts(budget, round, book, call, s);
    }
  }

  // ----- main results -----

  /**
   After any run a session has at most one active inquiry, no branch is inquired twice, every
   inquiry mirrors its decision, and there are at most as many inquiries as the budget allows.
   */
  lemma {:induction false} RunKeepsInv(budget: Budget, round: Rounding, calls: seq<Call>)
    requires budget.Valid() && AllAllowed(budget, round, calls)
    ensures Inv(budget, After(budget, round, calls))
  {
    if calls == [] {
      assert forall s: string :: InquiriesOf(Book(map[], map[], []), s) == {};
    } else {
      RunKeepsInv(budget, round, calls[..|calls| - 1]);
      hide Inv, Allowed;
      CallKeepsInv(budget, round, After(budget, round, calls[..|calls| - 1]), calls[|calls| - 1]);
    }
  }

  /** A session's decisions are exactly its deliberations, whatever they decided. */
  lemma {:induction false} EveryDeliberationIsCharged(budget: Budget, round: Rounding, calls: seq<Call>, s: string)
    requires budget.Valid() && AllAllowed(budget, round, calls)
    ensures |DecisionsOf(After(budget, round, calls), s)| == Deliberations(calls, s)
  {
    if calls == [] {
      assert DecisionsOf(Book(map[], map[], []), s) == {};
    } else {
      var before := calls[..|calls| - 1];
      EveryDeliberationIsCharged(budget, round, before, s);
      RunKeepsInv(budget, round, before);
      hide Allowed, Perform;
      CallCounts(budget, round, After(budget, round, before), calls[|calls| - 1], s);
    }
  }

  /** Once as many deliberations as the budget allows were made, every later one is refused and opens nothing. */
  lemma ExhaustionIsForGood(budget: Budget, round: Rounding, calls: seq<Call>, more: seq<Call>, s: string,
                            branches: seq<Branch>, decision: string, inquiry: string)
    requires budget.Valid() && AllAllowed(budget, round, calls + more) && Deliberations(calls, s) >= budget.maxDecisions
    ensures Cycle(budget, round, After(budget, round, calls + more), s, branches, decision, inquiry)
            == (Decision(decision, s, [], None, None, BudgetExhausted), None)
  {
    EveryDeliberationIsCharged(budget, round, calls + more, s);
    DeliberationsGrow(calls, more, s);
  }

  lemma {:induction false} DeliberationsGrow(calls: seq<Call>, more: seq<Call>, s: string)
    ensures Deliberations(calls + more, s) >= Deliberations(calls, s)
  {
    if more == [] {
      assert calls + more == calls;
    } else {
      assert (calls + more)[..|calls + more| - 1] == calls + more[..|more| - 1];
      DeliberationsGrow(calls, more[..|more| - 1], s);
    }
  }

  /** A branch that may be inquired into: explored still, confident and shallow enough, and not inquired into yet. */
  ghost predicate IsOpen(budget: Budget, book: Book, s: string, b: Branch) {
    && b.status == "EXPLORING" && b.confidence >= budget.minimumConfidence && b.depth <= budget.maximumDepth
    && forall k | k in book.inquiries && book.inquiries[k].session == s :: book.inquiries[k].branch != b.id
  }

  ghost predicate IsBusy(book: Book, s: string) {
    exists k :: k in book.inquiries && book.inquiries[k].session == s
                && (book.inquiries[k].status == Pending || book.inquiries[k].status == Queued
                    || book.inquiries[k].status == Running)
  }

  lemma OpenIsEligible(budget: Budget, book: Book, s: string, b: Branch)
    ensures IsOpen(budget, book, s, b) <==> Eligible(budget, Attempted(book, s), b)
  {
    forall k | k in book.inquiries && book.inquiries[k].session == s
      ensures book.inquiries[k].branch in Attempted(book, s)
    {
      assert k in InquiriesOf(book, s);
    }
  }

  /** Which of the four decisions is taken, in terms of the run and of the branches. */
  lemma DecisionExactly(budget: Budget, round: Rounding, calls: seq<Call>, s: string, branches: seq<Branch>,
                        decision: string, inquiry: string)
    requires budget.Valid() && AllAllowed(budget, round, calls) && DistinctIds(branches)
    ensures var book := After(budget, round, calls);
            var (d, i) := Cycle(budget, round, book, s, branches, decision, inquiry);
            var open := exists b :: b in branches && IsOpen(budget, book, s, b);
            && (d.status == BudgetExhausted <==> Deliberations(calls, s) >= budget.maxDecisions)
            && (d.status == ActiveInquiryExists <==>
                Deliberations(calls, s) < budget.maxDecisions && IsBusy(book, s))
            && (d.status == NoEligibleBranch <==>
                Deliberations(calls, s) < budget.maxDecisions && !IsBusy(book, s) && !open)
            && (d.status == Selected <==> Deliberations(calls, s) < budget.maxDecisions && !IsBusy(book, s) && open)
            && (i.Some? <==> d.status == Selected)
  {
    var book := After(budget, round, calls);
    EveryDeliberationIsCharged(budget, round, calls, s);
    ChosenIsEligible(budget, round, book, s, branches);
    var eligible := Eligibles(budget, book, s, branches);
    assert eligible != [] ==> eligible[0] in eligible;
    assert IsBusy(book, s) <==> HasActive(book, s);
    forall b ensures IsOpen(budget, book, s, b) <==> Eligible(budget, Attempted(book, s), b) {
      OpenIsEligible(budget, book, s, b);
    }
    hide RankedScores, HasActive, DecisionsOf, Attempted, Eligible, AllAllowed, DistinctIds, After, Deliberations,
         ScoreOf, Children, IsOpen, IsBusy;
  }

  /** The branches that name this one as their parent. */
  function ChildrenOf(branches: seq<Branch>, id: string): set<nat> {
    set i: nat | i < |branches| && branches[i].parent == Some(id)
  }

  lemma {:induction false} ChildrenAreCounted(branches: seq<Branch>, id: string)
    ensures Children(branches, id) == |ChildrenOf(branches, id)|
  {
    if branches != [] {
      var n: nat := |branches| - 1;
      ChildrenAreCounted(branches[..n], id);
      assert ChildrenOf(branches, id) ==
             ChildrenOf(branches[..n], id) + if branches[n].parent == Some(id) then {n} else {};
    }
  }

  /** The score of a branch, by the number of its children. */
  function Rating(round: Rounding, branches: seq<Branch>, b: Branch): Score {
    ScoreOf(round, b, |ChildrenOf(branches, b.id)|)
  }

  /** The inquired branch is open, of maximal score, and of the smallest id among the maximal ones. */
  lemma SelectionIsBest(budget: Budget, round: Rounding, book: Book, s: string, branches: seq<Branch>, decision: string,
                        inquiry: string, b: Branch)
    requires budget.Valid() && DistinctIds(branches)
    requires Cycle(budget, round, book, s, branches, decision, inquiry).1.Some?
    requires b in branches && IsOpen(budget, book, s, b)
    ensures var chosen := Cycle(budget, round, book, s, branches, decision, inquiry).1.value.branch;
            exists best :: best in branches && best.id == chosen && IsOpen(budget, book, s, best)
              && (b == best || Above(Rating(round, branches, best), Rating(round, branches, b)))
  {
    var eligible := Eligibles(budget, book, s, branches);
    OpenIsEligible(budget, book, s, b);
    EligibleAreDistinct(budget, Attempted(book, s), branches);
    FirstIsBest(round, branches, eligible, b);
    var ranked := RankedScores(round, branches, eligible);
    var best :| best in eligible && ranked[0] == ScoreOf(round, best, Children(branches, best.id));
    IdOfScore(round, best, Children(branches, best.id));
    if b.id == best.id {
      SameIdSameBranch(eligible, b, best);
    }
    hide RankedScores, HasActive, DecisionsOf, Attempted, DistinctIds, ScoreOf, Children, Above, IsOpen;
    assert best in branches && Eligible(budget, Attempted(book, s), best);
    OpenIsEligible(budget, book, s, best);
    ChildrenAreCounted(branches, best.id);
    ChildrenAreCounted(branches, b.id);
  }

  /** The candidates reported are the best open branches, best first, as many as the budget shows. */
  lemma CandidatesAreTheBest(budget: Budget, round: Rounding, book: Book, s: string, branches: seq<Branch>,
                             decision: string, inquiry: string, b: Branch)
    requires budget.Valid() && DistinctIds(branches)
    requires Cycle(budget, round, book, s, branches, decision, inquiry).1.Some?
    requires b in branches && IsOpen(budget, book, s, b)
    ensures var d := Cycle(budget, round, book, s, branches, decision, inquiry).0;
            && 0 < |d.candidates| <= budget.maxCandidates
            && d.selected == Some(d.candidates[0].branchId) && d.inquiry == Some(inquiry) && d.id == decision
            && (forall j, k | 0 <= j < k < |d.candidates| :: Above(d.candidates[j], d.candidates[k]))
            && (forall c | c in d.candidates ::
                  exists o :: o in branches && IsOpen(budget, book, s, o) && c == Rating(round, branches, o))
            && (|| Rating(round, branches, b) in d.candidates
                || (|d.candidates| == budget.maxCandidates
                    && forall c | c in d.candidates :: Above(c, Rating(round, branches, b))))
  {
    var ranked := RankedScores(round, branches, Eligibles(budget, book, s, branches));
    CycleReportsTop(budget, round, book, s, branches, decision, inquiry);
    OpenAreRanked(budget, round, book, s, branches, b);
    hide Cycle, RankedScores, DistinctIds, ScoreOf, IsOpen, Above, ChildrenOf, Rating;
    var d := Cycle(budget, round, book, s, branches, decision, inquiry).0;
    var k :| 0 <= k < |ranked| && ranked[k] == Rating(round, branches, b);
    TopOf(ranked, d.candidates, k);
  }

  lemma CycleReportsTop(budget: Budget, round: Rounding, book: Book, s: string, branches: seq<Branch>,
                        decision: string, inquiry: string)
    requires budget.Valid() && Cycle(budget, round, book, s, branches, decision, inquiry).1.Some?
    ensures var d := Cycle(budget, round, book, s, branches, decision, inquiry).0;
            var ranked := RankedScores(round, branches, Eligibles(budget, book, s, branches));
            && 0 < |d.candidates| <= budget.maxCandidates && d.candidates <= ranked
            && (|d.candidates| < budget.maxCandidates ==> d.candidates == ranked)
            && d.selected == Some(d.candidates[0].branchId) && d.inquiry == Some(inquiry) && d.id == decision
  {
    hide RankedScores, HasActive, DecisionsOf, Eligibles;
  }

  lemma OpenAreRanked(budget: Budget, round: Rounding, book: Book, s: string, branches: seq<Branch>, b: Branch)
    requires DistinctIds(branches) && b in branches && IsOpen(budget, book, s, b)
    ensures var ranked := RankedScores(round, branches, Eligibles(budget, book, s, branches));
            && (forall j, k | 0 <= j < k < |ranked| :: Above(ranked[j], ranked[k]))
            && (forall c | c in ranked ::
                  exists o :: o in branches && IsOpen(budget, book, s, o) && c == Rating(round, branches, o))
            && Rating(round, branches, b) in ranked
  {
    var eligible := Eligibles(budget, book, s, branches);
    EligibleAreDistinct(budget, Attempted(book, s), branches);
    RankingIsStrict(round, branches, eligible);
    forall o ensures IsOpen(budget, book, s, o) <==> Eligible(budget, Attempted(book, s), o) {
      OpenIsEligible(budget, book, s, o);
    }
    forall o: Branch ensures ScoreOf(round, o, Children(branches, o.id)) == Rating(round, branches, o) {
      ChildrenAreCounted(branches, o.id);
    }
    hide Attempted, Eligible, DistinctIds, ScoreOf, Children, IsOpen, Above, RankedScores, ChildrenOf, Rating;
  }

  lemma TopOf(ranked: seq<Score>, top: seq<Score>, k: nat)
    requires top <= ranked && k < |ranked| && forall i, j | 0 <= i < j < |ranked| :: Above(ranked[i], ranked[j])
    ensures (forall c | c in top :: c in ranked) && forall i, j | 0 <= i < j < |top| :: Above(top[i], top[j])
    ensures ranked[k] in top || (k >= |top| && forall c | c in top :: Above(c, ranked[k]))
  {
    hide Above;
    assert k < |top| ==> top[k] == ranked[k];
  }

  lemma {:induction false} SameIdSameBranch(branches: seq<Branch>, a: Branch, b: Branch)
    requires DistinctIds(branches) && a in branches && b in branches && a.id == b.id
    ensures a == b
  {
    var n := |branches| - 1;
    if a in branches[..n] && b in branches[..n] {
      SameIdSameBranch(branches[..n], a, b);
    }
  }

  // ----- outcomes -----

  function Completions(calls: seq<Call>): nat {
    if calls == [] then 0
    else Completions(calls[..|calls| - 1]) + if calls[|calls| - 1].Complete? then 1 else 0
  }

  /** The outcome names the inquiry and its result: stalled without claims, supported by confident ones. */
  ghost predicate Reports(o: Outcome, i: Inquiry, result: WorkResult) {
    && o.session == i.session && o.branch == i.branch && o.inquiry == i.id
    && o.workResult == result.id && o.claims == result.claims && o.confidence == result.confidence
    && (o.status == Stalled <==> |result.claims| == 0)
    && (o.status == Supported <==> |result.claims| > 0 && result.confidence >= 0.75)
  }

  lemma OnlyCompletionsReport(budget: Budget, round: Rounding, book: Book, call: Call)
    requires budget.Valid() && Mirrored(book) && Allowed(book, call)
    ensures var after := Perform(budget, round, book, call);
            if call.Complete? then
              |after.outcomes| == |book.outcomes| + 1 && after.outcomes[..|book.outcomes|] == book.outcomes
              && Reports(after.outcomes[|book.outcomes|], call.i, call.result)
            else after.outcomes == book.outcomes
  {
    hide Cycle;
    if call.Complete? {
      assert DecisionFound(book, call.i);
    }
  }

  /** In every run each completed inquiry leaves one outcome, in the order of the completions. */
  lemma {:induction false} OutcomesReportCompletions(budget: Budget, round: Rounding, calls: seq<Call>, n: nat)
    requires budget.Valid() && AllAllowed(budget, round, calls)
    ensures |After(budget, round, calls).outcomes| == Completions(calls)
    ensures n < |calls| && calls[n].Complete? ==>
              && Completions(calls[..n]) < Completions(calls)
              && Reports(After(budget, round, calls).outcomes[Completions(calls[..n])], calls[n].i, calls[n].result)
  {
    hide Perform, Reports, Allowed;
    if calls != [] {
      var before, last := calls[..|calls| - 1], calls[|calls| - 1];
      OutcomesReportCompletions(budget, round, before, n);
      RunKeepsInv(budget, round, before);
      OnlyCompletionsReport(budget, round, After(budget, round, before), last);
      if n < |before| {
        assert before[..n] == calls[..n];
      } else if n == |before| {
        assert calls[..n] == before;
      }
    }
  }
}
