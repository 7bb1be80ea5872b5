/**
 Bounded autonomous deliberation: each cycle records one decision and may open one read-only
 inquiry into the best open concept branch. Arithmetic is over the reals and rounding is a
 parameter; ids are drawn fresh by the caller.
 */
module Deliberation {
  import opened Lists
  import opened Wrappers
  import opened Ordering
  import opened Sorting

  datatype Budget = Budget(maxDecisions: int, maxCandidates: int, minimumConfidence: real, maximumDepth: int)
  {
    /** What the model validation of the record guarantees. */
    predicate Valid() {
      1 <= maxDecisions <= 64 && 1 <= maxCandidates <= 8 && 0.0 <= minimumConfidence <= 1.0 && 1 <= maximumDepth <= 4
    }
  }

  datatype Branch = Branch(id: string, parent: Option<string>, facts: seq<string>, status: string, confidence: real,
                           depth: int)
  {
    predicate Valid() {
      0.0 <= confidence <= 1.0 && 1 <= depth <= 4
    }
  }

  datatype Score = Score(branchId: string, novelty: real, uncertainty: real, relevance: real, gain: real, cost: real,
                         total: real)

  datatype DecisionStatus =
    | Selected | BudgetExhausted | ActiveInquiryExists | NoEligibleBranch | DecisionCompleted | DecisionFailed

  datatype Decision = Decision(id: string, session: string, candidates: seq<Score>, selected: Option<string>,
                               inquiry: Option<string>, status: DecisionStatus)

  datatype InquiryStatus = Pending | Queued | Running | Completed | Failed

  datatype Inquiry = Inquiry(id: string, session: string, decision: string, branch: string, gain: real,
                             status: InquiryStatus, workResult: Option<string>)
  {
    predicate Active() {
      status == Pending || status == Queued || status == Running
    }
  }

  datatype OutcomeStatus = Supported | Challenged | Stalled

  datatype WorkResult = WorkResult(id: string, claims: seq<string>, confidence: real)

  datatype Outcome = Outcome(session: string, branch: string, inquiry: string, workResult: string, claims: seq<string>,
                             status: OutcomeStatus, confidence: real)

  // ----- scoring -----

  type Rounding = real -> real

  ghost predicate RoundsSoundly(round: Rounding) {
    round(0.0) == 0.0 && round(1.0) == 1.0 && forall a, b :: a <= b ==> round(a) <= round(b)
  }

  function Min(a: real, b: real): real {
    if a < b then a else b
  }

  function Max(a: real, b: real): real {
    if a > b then a else b
  }

  function Total(novelty: real, uncertainty: real, relevance: real, gain: real, cost: real): real {
    0.25 * novelty + 0.3 * uncertainty + 0.2 * relevance + 0.35 * gain - 0.1 * cost
  }

  function ScoreOf(round: Rounding, b: Branch, children: nat): Score {
    var novelty := 1.0 / (1 + children) as real;
    var uncertainty := 1.0 - b.confidence;
    var relevance := Min(1.0, |b.facts| as real / 4.0);
    var gain := Min(1.0, 0.55 * uncertainty + 0.45 * novelty);
    var cost := Min(1.0, 0.2 + 0.1 * b.depth as real);
    var total := Total(novelty, uncertainty, relevance, gain, cost);
    Score(b.id, round(novelty), round(uncertainty), round(relevance), round(gain), round(cost),
          round(Max(0.0, Min(1.0, total))))
  }

  /** Every component lies between 0 and 1, as the record of a score requires. */
  lemma ScoresAreInRange(round: Rounding, b: Branch, children: nat)
    requires RoundsSoundly(round) && b.Valid()
    ensures var s := ScoreOf(round, b, children);
            && 0.0 <= s.novelty <= 1.0 && 0.0 <= s.uncertainty <= 1.0 && 0.0 <= s.relevance <= 1.0
            && 0.0 <= s.gain <= 1.0 && 0.0 <= s.cost <= 1.0 && 0.0 <= s.total <= 1.0
  {
    NoveltyFalls(0, children);
    assert 1.0 / (1 + children) as real >= 0.0;
  }

  lemma NoveltyFalls(fewer: nat, more: nat)
    requires fewer <= more
    ensures 1.0 / (1 + more) as real <= 1.0 / (1 + fewer) as real
  {
    var a, b := (1 + fewer) as real, (1 + more) as real;
    assert 1.0 / b * b == 1.0 && 1.0 / a * a == 1.0;
  }

  /** A branch that is less certain, less explored, better supported and shallower never scores lower. */
  lemma ScoreIsMonotone(round: Rounding, a: Branch, children: nat, b: Branch, more: nat)
    requires RoundsSoundly(round)
    requires a.confidence <= b.confidence && children <= more && |a.facts| >= |b.facts| && a.depth <= b.depth
    ensures ScoreOf(round, a, children).total >= ScoreOf(round, b, more).total
  {
    NoveltyFalls(children, more);
    var fewer, most := 1.0 / (1 + children) as real, 1.0 / (1 + more) as real;
    assert |a.facts| as real / 4.0 >= |b.facts| as real / 4.0;
    assert 0.2 + 0.1 * a.depth as real <= 0.2 + 0.1 * b.depth as real;
    TotalIsMonotone(fewer, 1.0 - a.confidence, most, 1.0 - b.confidence,
                    Min(1.0, |a.facts| as real / 4.0), Min(1.0, |b.facts| as real / 4.0),
                    Min(1.0, 0.2 + 0.1 * a.depth as real), Min(1.0, 0.2 + 0.1 * b.depth as real));
    hide Total;
  }

  lemma TotalIsMonotone(n: real, u: real, n': real, u': real, r: real, r': real, c: real, c': real)
    requires n >= n' && u >= u' && r >= r' && c <= c'
    ensures Total(n, u, r, Min(1.0, 0.55 * u + 0.45 * n), c) >= Total(n', u', r', Min(1.0, 0.55 * u' + 0.45 * n'), c')
  {
  }

  /**
   What the total comes to for a branch as the record allows it: neither gain nor cost is ever capped, so
   an unexplored branch is worth at most 0.4075, an uncertain one 0.4925 and a supported one 0.2.
   */
  lemma ScoreExactly(round: Rounding, b: Branch, children: nat)
    requires b.Valid()
    ensures var raw := 0.4075 / (1 + children) as real + 0.4925 * (1.0 - b.confidence)
                       + 0.05 * (if |b.facts| < 4 then |b.facts| else 4) as real - 0.02 - 0.01 * b.depth as real;
            ScoreOf(round, b, children).total ==
              if raw < 0.0 then round(0.0) else if raw > 1.0 then round(1.0) else round(raw)
  {
    NoveltyFalls(0, children);
    var novelty := 1.0 / (1 + children) as real;
    assert 0.4075 / (1 + children) as real == 0.4075 * novelty;
    assert novelty * (1 + children) as real == 1.0 && novelty >= 0.0;
  }

  // ----- choosing a branch -----

  /** How many of the branches have this parent. */
  function Children(branches: seq<Branch>, id: string): nat {
    if branches == [] then 0
    else Children(branches[..|branches| - 1], id) + if branches[|branches| - 1].parent == Some(id) then 1 else 0
  }

  predicate Eligible(budget: Budget, attempted: set<string>, b: Branch) {
    b.status == "EXPLORING" && b.confidence >= budget.minimumConfidence && b.depth <= budget.maximumDepth
      && b.id !in attempted
  }

  function EligibleAmong(budget: Budget, attempted: set<string>, branches: seq<Branch>): (r: seq<Branch>)
    ensures forall b :: b in r <==> b in branches && Eligible(budget, attempted, b)
  {
    Select(branches, (b: Branch) => Eligible(budget, attempted, b))
  }

  function ScoresOf(round: Rounding, branches: seq<Branch>, eligible: seq<Branch>): seq<Score> {
    seq(|eligible|, k requires 0 <= k < |eligible| => ScoreOf(round, eligible[k], Children(branches, eligible[k].id)))
  }

  predicate Above(s: Score, t: Score) {
    s.total > t.total || (s.total == t.total && Below(s.branchId, t.branchId))
  }

  function ByTotal(): (Score, Score) -> bool {
    (s: Score, t: Score) => Above(s, t)
  }

  function RankedScores(round: Rounding, branches: seq<Branch>, eligible: seq<Branch>): seq<Score> {
    Sort(ByTotal(), ScoresOf(round, branches, eligible))
  }

  ghost predicate DistinctIds(branches: seq<Branch>) {
    branches == []
    || ((forall b | b in branches[..|branches| - 1] :: b.id != branches[|branches| - 1].id)
        && DistinctIds(branches[..|branches| - 1]))
  }

  lemma {:induction false} EligibleAreDistinct(budget: Budget, attempted: set<string>, branches: seq<Branch>)
    requires DistinctIds(branches)
    ensures DistinctIds(EligibleAmong(budget, attempted, branches))
  {
    if branches != [] {
      var before := EligibleAmong(budget, attempted, branches[..|branches| - 1]);
      EligibleAreDistinct(budget, attempted, branches[..|branches| - 1]);
      assert before + [] == before && (before + [branches[|branches| - 1]])[..|before|] == before;
    }
  }

  lemma {:induction false} ScoresAreComparable(round: Rounding, branches: seq<Branch>, eligible: seq<Branch>)
    requires DistinctIds(eligible)
    ensures Comparable(ByTotal(), ScoresOf(round, branches, eligible))
  {
    if eligible != [] {
      var n := |eligible| - 1;
      var scores, last := ScoresOf(round, branches, eligible), eligible[n];
      ScoresAreComparable(round, branches, eligible[..n]);
      assert scores[..n] == ScoresOf(round, branches, eligible[..n]);
      forall q | q in scores[..n] ensures Above(q, scores[n]) || Above(scores[n], q) {
        var k :| 0 <= k < n && scores[k] == q;
        assert eligible[k] in eligible[..n] && eligible[k].id != last.id;
        BelowIsTotal(eligible[k].id, last.id);
      }
      assert ComparableWith(ByTotal(), scores[..n], scores[n]);
    }
  }

  lemma AboveIsTransitive()
    ensures Transitive(ByTotal())
  {
    forall a, b, c | Above(a, b) && Above(b, c) ensures Above(a, c) {
      if a.total == b.total == c.total {
        BelowIsTransitive(a.branchId, b.branchId, c.branchId);
      }
    }
  }

  /** The scores of the eligible branches, strictly from best to worst. */
  lemma RankingIsStrict(round: Rounding, branches: seq<Branch>, eligible: seq<Branch>)
    requires DistinctIds(eligible)
    ensures var ranked := RankedScores(round, branches, eligible);
            && |ranked| == |eligible| && Sorted(ByTotal(), ranked)
            && (forall j, k | 0 <= j < k < |ranked| :: Above(ranked[j], ranked[k]))
            && (forall b | b in eligible :: ScoreOf(round, b, Children(branches, b.id)) in ranked)
            && (forall s | s in ranked :: exists b :: b in eligible && s == ScoreOf(round, b, Children(branches, b.id)))
  {
    var scores := ScoresOf(round, branches, eligible);
    var ranked := RankedScores(round, branches, eligible);
    ScoresAreComparable(round, branches, eligible);
    AboveIsTransitive();
    SortHolds(ByTotal(), scores);
    SortSorts(ByTotal(), scores);
    hide Sort, Sorted, Comparable, DistinctIds, ScoreOf, Children, Above;
    forall j, k | 0 <= j < k < |ranked| ensures Above(ranked[j], ranked[k]) {
      SortedAt(ByTotal(), ranked, j, k);
      assert ByTotal()(ranked[j], ranked[k]);
    }
    forall b | b in eligible ensures ScoreOf(round, b, Children(branches, b.id)) in ranked {
      var i :| 0 <= i < |eligible| && eligible[i] == b;
      assert scores[i] in ranked;
    }
    forall s | s in ranked ensures exists b :: b in eligible && s == ScoreOf(round, b, Children(branches, b.id)) {
      var j :| 0 <= j < |scores| && scores[j] == s;
      assert eligible[j] in eligible;
    }
  }

  /** The first score is of an eligible branch, maximal, and of the smallest id among the maximal ones. */
  lemma FirstIsBest(round: Rounding, branches: seq<Branch>, eligible: seq<Branch>, b: Branch)
    requires DistinctIds(eligible) && b in eligible
    ensures var ranked := RankedScores(round, branches, eligible);
            && |ranked| > 0
            && (exists best :: best in eligible && ranked[0] == ScoreOf(round, best, Children(branches, best.id)))
            && (b.id == ranked[0].branchId || Above(ranked[0], ScoreOf(round, b, Children(branches, b.id))))
  {
    RankingIsStrict(round, branches, eligible);
    IdOfScore(round, b, Children(branches, b.id));
    hide RankedScores, DistinctIds, ScoreOf, Children, Above, Sorted;
    var ranked := RankedScores(round, branches, eligible);
    var k :| 0 <= k < |ranked| && ranked[k] == ScoreOf(round, b, Children(branches, b.id));
    assert ranked[0] in ranked;
  }

  lemma IdOfScore(round: Rounding, b: Branch, children: nat)
    ensures ScoreOf(round, b, children).branchId == b.id
  {
  }

  // ----- the tables and the three calls -----

  datatype Book = Book(decisions: map<string, Decision>, inquiries: map<string, Inquiry>, outcomes: seq<Outcome>)

  function DecisionsOf(book: Book, session: string): set<string> {
    set k | k in book.decisions && book.decisions[k].session == session
  }

  function InquiriesOf(book: Book, session: string): set<string> {
    set k | k in book.inquiries && book.inquiries[k].session == session
  }

  predicate HasActive(book: Book, session: string) {
    exists k | k in book.inquiries :: book.inquiries[k].session == session && book.inquiries[k].Active()
  }

  function Attempted(book: Book, session: string): set<string> {
    set k | k in InquiriesOf(book, session) :: book.inquiries[k].branch
  }

  function Eligibles(budget: Budget, book: Book, session: string, branches: seq<Branch>): seq<Branch> {
    EligibleAmong(budget, Attempted(book, session), branches)
  }

  /** What one deliberation decides, and the inquiry it opens. */
  function Cycle(budget: Budget, round: Rounding, book: Book, session: string, branches: seq<Branch>, decision: string,
                 inquiry: string): (Decision, Option<Inquiry>)
    requires budget.Valid()
  {
    var none := (status: DecisionStatus) => (Decision(decision, session, [], None, None, status), None);
    if |DecisionsOf(book, session)| >= budget.maxDecisions then none(BudgetExhausted)
    else if HasActive(book, session) then none(ActiveInquiryExists)
    else
      var ranked := RankedScores(round, branches, Eligibles(budget, book, session, branches));
      if ranked == [] then none(NoEligibleBranch)
      else
        var candidates := if |ranked| > budget.maxCandidates then ranked[..budget.maxCandidates] else ranked;
        (Decision(decision, session, candidates, Some(ranked[0].branchId), Some(inquiry), Selected),
         Some(Inquiry(inquiry, session, decision, ranked[0].branchId, ranked[0].gain, Pending, None)))
  }

  function SaveInquiry(book: Book, i: Inquiry): Book {
    book.(inquiries := book.inquiries[i.id := i])
  }

  function SaveDecision(book: Book, d: Decision): Book {
    book.(decisions := book.decisions[d.id := d])
  }

  function Deliberated(budget: Budget, round: Rounding, book: Book, session: string, branches: seq<Branch>,
                       decision: string, inquiry: string): Book
    requires budget.Valid()
  {
    var (d, i) := Cycle(budget, round, book, session, branches, decision, inquiry);
    if i.Some? then SaveInquiry(SaveDecision(book, d), i.value) else SaveDecision(book, d)
  }

  function Verdict(result: WorkResult): OutcomeStatus {
    if result.claims == [] then Stalled else if result.confidence >= 0.75 then Supported else Challenged
  }

  predicate DecisionFound(book: Book, i: Inquiry) {
    i.decision in book.decisions && book.decisions[i.decision].session == i.session
  }

  /** The inquiry is saved even when its decision is missing and the call then raises. */
  function Concluded(book: Book, i: Inquiry, status: InquiryStatus, decisionStatus: DecisionStatus): Book {
    var saved := SaveInquiry(book, i.(status := status));
    if DecisionFound(book, i) then SaveDecision(saved, book.decisions[i.decision].(status := decisionStatus)) else saved
  }

  function OutcomeOf(i: Inquiry, result: WorkResult): Outcome {
    Outcome(i.session, i.branch, i.id, result.id, result.claims, Verdict(result), result.confidence)
  }

  function CompletedBook(book: Book, i: Inquiry, result: WorkResult): Book {
    var after := Concluded(book, i.(workResult := Some(result.id)), Completed, DecisionCompleted);
    if DecisionFound(book, i) then after.(outcomes := after.outcomes + [OutcomeOf(i, result)]) else after
  }

  function FailedBook(book: Book, i: Inquiry): Book {
    Concluded(book, i, Failed, DecisionFailed)
  }

  class AutonomousDeliberationManager {
    const budget: Budget
    const round: Rounding
    var book: Book

    constructor (budget: Budget, round: Rounding)
      requires budget.Valid()
      ensures this.budget == budget && this.round == round && book == Book(map[], map[], [])
    {
      this.budget, this.round := budget, round;
      book := Book(map[], map[], []);
    }

    method CountChildren(branches: seq<Branch>) returns (children: map<string, nat>)
      ensures forall b | b in branches :: b.id in children && children[b.id] == Children(branches, b.id)
    {
      children := map b | b in branches :: b.id := 0;
      ghost var ids := children.Keys;
      for n := 0 to |branches|
        invariant children.Keys == ids
        invariant forall id | id in ids :: children[id] == Children(branches[..n], id)
      {
        assert branches[..n + 1][..n] == branches[..n];
        var parent := branches[n].parent;
        if parent.Some? && parent.value in children {
          children := children[parent.value := children[parent.value] + 1];
        }
      }
      assert branches[..|branches|] == branches;
    }

    method RankBranches(branches: seq<Branch>, eligible: seq<Branch>) returns (ranked: seq<Score>)
      requires forall b | b in eligible :: b in branches
      ensures ranked == RankedScores(round, branches, eligible)
    {
      var children := CountChildren(branches);
      var scores: seq<Score> := [];
      hide ScoreOf, Children;
      for n := 0 to |eligible|
        invariant scores == ScoresOf(round, branches, eligible)[..n]
      {
        assert eligible[n] in branches;
        scores := scores + [ScoreOf(round, eligible[n], children[eligible[n].id])];
      }
      assert scores == ScoresOf(round, branches, eligible);
      ranked := Sort(ByTotal(), scores);
    }

    method Deliberate(session: string, branches: seq<Branch>, decisionId: string, inquiryId: string)
      returns (decision: Decision, inquiry: Option<Inquiry>)
      requires budget.Valid()
      modifies `book
      ensures (decision, inquiry) == Cycle(budget, round, old(book), session, branches, decisionId, inquiryId)
      ensures book == Deliberated(budget, round, old(book), session, branches, decisionId, inquiryId)
    {
      hide EligibleAmong, RankedScores, HasActive, DecisionsOf, Attempted;
      if |DecisionsOf(book, session)| >= budget.maxDecisions {
        decision, inquiry := Decision(decisionId, session, [], None, None, BudgetExhausted), None;
        book := SaveDecision(book, decision);
        return;
      }
      if HasActive(book, session) {
        decision, inquiry := Decision(decisionId, session, [], None, None, ActiveInquiryExists), None;
        book := SaveDecision(book, decision);
        return;
      }
      var ranked := RankBranches(branches, Eligibles(budget, book, session, branches));
      if ranked == [] {
        decision, inquiry := Decision(decisionId, session, [], None, None, NoEligibleBranch), None;
        book := SaveDecision(book, decision);
        return;
      }
      var candidates := if |ranked| > budget.maxCandidates then ranked[..budget.maxCandidates] else ranked;
      var question := Inquiry(inquiryId, session, decisionId, ranked[0].branchId, ranked[0].gain, Pending, None);
      inquiry := Some(question);
      decision := Decision(decisionId, session, candidates, Some(question.branch), Some(inquiryId), Selected);
      book := SaveDecision(book, decision);
      book := SaveInquiry(book, question);
    }

    method Conclude(i: Inquiry, status: InquiryStatus, decisionStatus: DecisionStatus) returns (found: bool)
      modifies `book
      ensures book == Concluded(old(book), i, status, decisionStatus) && found == DecisionFound(old(book), i)
    {
      book := SaveInquiry(book, i.(status := status));
      found := DecisionFound(book, i);
      if found {
        book := SaveDecision(book, book.decisions[i.decision].(status := decisionStatus));
      }
    }

    method Complete(i: Inquiry, result: WorkResult) returns (r: Result<Outcome, string>)
      modifies `book
      ensures book == CompletedBook(old(book), i, result)
      ensures r == if i.decision in old(book).decisions && old(book).decisions[i.decision].session == i.session
                   then Ok(OutcomeOf(i, result)) else Err("StopIteration")
    {
      var found := Conclude(i.(workResult := Some(result.id)), Completed, DecisionCompleted);
      if !found {
        return Err("StopIteration");
      }
      book := book.(outcomes := book.outcomes + [OutcomeOf(i, result)]);
      r := Ok(OutcomeOf(i, result));
    }

    method Fail(i: Inquiry) returns (r: Result<(), string>)
      modifies `book
      ensures book == FailedBook(old(book), i)
      ensures r == if i.decision in old(book).decisions && old(book).decisions[i.decision].session == i.session
                   then Ok(()) else Err("StopIteration")
    {
      var found := Conclude(i, Failed, DecisionFailed);
      r := if found then Ok(()) else Err("StopIteration");
    }
  }
}
