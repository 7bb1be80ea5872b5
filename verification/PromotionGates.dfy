/**
 When the two gates of consolidation open, and what is recorded then. Everything is stated row by
 row about the store: which rows count, how many there are, and the mean of their confidences.
 */
module PromotionGates {
  import opened Lists
  import opened Wrappers
  import opened Normalization
  import opened GraphData
  import opened DependencyValidity
  import opened Consolidation

  // ----- which rows count -----

  predicate Mentions(c: Claim, key: string) {
    exists a | a in c.assertions :: Normalize(a.key) == key
  }

  predicate Says(c: Claim, key: string, value: string) {
    exists a | a in c.assertions :: Normalize(a.key) == key && Normalize(a.value) == value
  }

  predicate IsCandidate(c: Claim, root: string, key: string) {
    c.projectRoot == root && c.tier == EPISODIC && Mentions(c, key)
  }

  /** A CURRENT candidate that says something else. */
  predicate Objects(c: Claim, root: string, key: string, value: string) {
    IsCandidate(c, root, key) && c.validity == CURRENT && !Says(c, key, value)
  }

  predicate Agrees(c: Claim, root: string, key: string, value: string) {
    IsCandidate(c, root, key) && c.validity == CURRENT && Says(c, key, value)
  }

  predicate IsStrong(c: Claim, policy: Policy, root: string, key: string, value: string) {
    Agrees(c, root, key, value) && c.confidence >= policy.semanticMinimumConfidence
  }

  function StrongPlaces(rows: seq<Claim>, policy: Policy, root: string, assertion: Assertion): seq<nat> {
    Places(rows, (c: Claim) => IsStrong(c, policy, root, Normalize(assertion.key), Normalize(assertion.value)))
  }

  // ----- sums over places -----

  ghost predicate Within(rows: seq<Claim>, places: seq<nat>) {
    forall i | i in places :: i < |rows|
  }

  function Confidences(rows: seq<Claim>, places: seq<nat>): real
    requires Within(rows, places)
  {
    if places == [] then 0.0
    else
      var n := |places| - 1;
      assert places[n] in places && forall i | i in places[..n] :: i in places;
      Confidences(rows, places[..n]) + rows[places[n]].confidence
  }

  function Tasks(rows: seq<Claim>, places: seq<nat>): set<string>
    requires Within(rows, places)
  {
    set i | i in places && rows[i].sourceTaskId.Some? && rows[i].sourceTaskId.value != "" :: rows[i].sourceTaskId.value
  }

  function IdsAt(rows: seq<Claim>, places: seq<nat>): seq<string>
    requires Within(rows, places)
  {
    seq(|places|, k requires 0 <= k < |places| => assert places[k] in places; rows[places[k]].id)
  }

  ghost predicate IsMean(mean: real, rows: seq<Claim>, places: seq<nat>) {
    Within(rows, places) && mean * |places| as real == Confidences(rows, places)
  }

  /** A mean lies where the values do. */
  lemma {:induction false} SumIsBetween(rows: seq<Claim>, places: seq<nat>, low: real, high: real)
    requires Within(rows, places) && forall i | i in places :: low <= rows[i].confidence <= high
    ensures low * |places| as real <= Confidences(rows, places) <= high * |places| as real
  {
    if places != [] {
      var n := |places| - 1;
      assert places[n] in places && forall i | i in places[..n] :: i in places;
      SumIsBetween(rows, places[..n], low, high);
      OneMoreTime(low, n);
      OneMoreTime(high, n);
    }
  }

  lemma OneMoreTime(x: real, n: nat)
    ensures x * (n + 1) as real == x * n as real + x
  {
  }

  lemma {:induction false} TotalAt(rows: seq<Claim>, places: seq<nat>)
    requires Within(rows, places)
    ensures TotalConfidence(At(rows, places)) == Confidences(rows, places)
    ensures IdsOf(At(rows, places)) == IdsAt(rows, places)
  {
    if places != [] {
      var n := |places| - 1;
      assert places[n] in places && forall i | i in places[..n] :: i in places;
      TotalAt(rows, places[..n]);
      assert At(rows, places)[..n] == At(rows, places[..n]);
    }
  }

  lemma TasksAt(rows: seq<Claim>, places: seq<nat>)
    requires Within(rows, places)
    ensures TaskIds(At(rows, places)) == Tasks(rows, places)
  {
    var claims := At(rows, places);
    forall t | t in Tasks(rows, places) ensures t in TaskIds(claims) {
      var i :| i in places && rows[i].sourceTaskId.Some? && rows[i].sourceTaskId.value != ""
               && rows[i].sourceTaskId.value == t;
      var k :| 0 <= k < |places| && places[k] == i;
      assert claims[k] == rows[i];
    }
    forall t | t in TaskIds(claims) ensures t in Tasks(rows, places) {
      var c :| c in claims && c.sourceTaskId.Some? && c.sourceTaskId.value != "" && c.sourceTaskId.value == t;
      var k :| 0 <= k < |places| && claims[k] == c;
      assert places[k] in places;
    }
  }

  // ----- the gate reads these rows -----

  lemma MentionsIsAsserts(c: Claim, key: string, value: string)
    ensures Mentions(c, key) <==> Asserts(c, key)
    ensures Says(c, key, value) <==> AssertsValue(c, key, value)
  {
    hide Normalize;
    if Asserts(c, key) {
      var i :| 0 <= i < |c.assertions| && Normalize(c.assertions[i].key) == key;
      assert c.assertions[i] in c.assertions;
    }
    if AssertsValue(c, key, value) {
      var i :| 0 <= i < |c.assertions| && Normalize(c.assertions[i].key) == key
               && Normalize(c.assertions[i].value) == value;
      assert c.assertions[i] in c.assertions;
    }
  }

  lemma RowsMention(rows: seq<Claim>, key: string, value: string)
    ensures forall c | c in rows ::
              (Mentions(c, key) <==> Asserts(c, key)) && (Says(c, key, value) <==> AssertsValue(c, key, value))
  {
    hide Normalize, Mentions, Says, Asserts, AssertsValue;
    forall c | c in rows
      ensures (Mentions(c, key) <==> Asserts(c, key)) && (Says(c, key, value) <==> AssertsValue(c, key, value))
    {
      MentionsIsAsserts(c, key, value);
    }
  }

  lemma CandidatesSelected(rows: seq<Claim>, root: string, key: string)
    ensures Candidates(rows, root, key) == Select(rows, (c: Claim) => IsCandidate(c, root, key))
  {
    hide Normalize, Mentions, Asserts;
    RowsMention(rows, key, "");
    SelectAgrees(rows, (c: Claim) => c.projectRoot == root && c.tier == EPISODIC && Asserts(c, key),
                 (c: Claim) => IsCandidate(c, root, key));
  }

  lemma MatchingSelected(rows: seq<Claim>, root: string, key: string, value: string)
    ensures Matching(Candidates(rows, root, key), key, value) ==
              Select(rows, (c: Claim) => Agrees(c, root, key, value))
  {
    hide Normalize, Mentions, Asserts, Says, AssertsValue;
    RowsMention(rows, key, value);
    CandidatesSelected(rows, root, key);
    SelectTwice(rows, (c: Claim) => IsCandidate(c, root, key), (c: Claim) => !IsStale(c),
                (c: Claim) => IsCandidate(c, root, key) && !IsStale(c));
    SelectTwice(rows, (c: Claim) => IsCandidate(c, root, key) && !IsStale(c), (c: Claim) => AssertsValue(c, key, value),
                (c: Claim) => Agrees(c, root, key, value));
  }

  lemma StrongSelected(rows: seq<Claim>, policy: Policy, root: string, key: string, value: string)
    ensures Strong(policy, Candidates(rows, root, key), key, value) ==
              Select(rows, (c: Claim) => IsStrong(c, policy, root, key, value))
  {
    hide Normalize, Agrees, Matching;
    MatchingSelected(rows, root, key, value);
    SelectTwice(rows, (c: Claim) => Agrees(c, root, key, value),
                (c: Claim) => c.confidence >= policy.semanticMinimumConfidence,
                (c: Claim) => IsStrong(c, policy, root, key, value));
  }

  lemma ContradictorySelected(rows: seq<Claim>, root: string, key: string, value: string)
    ensures Contradictory(Candidates(rows, root, key), key, value) ==
              Select(rows, (c: Claim) => Objects(c, root, key, value))
  {
    hide Normalize, Mentions, Asserts, Says, AssertsValue;
    CandidatesSelected(rows, root, key);
    var candidates := Candidates(rows, root, key);
    var matching := Matching(candidates, key, value);
    SelectTwice(rows, (c: Claim) => IsCandidate(c, root, key), (c: Claim) => !IsStale(c),
                (c: Claim) => IsCandidate(c, root, key) && !IsStale(c));
    RowsMention(rows, key, value);
    SelectTwice(rows, (c: Claim) => IsCandidate(c, root, key) && !IsStale(c), (c: Claim) => c !in matching,
                (c: Claim) => Objects(c, root, key, value));
  }

  lemma StaleSelected(rows: seq<Claim>, root: string, key: string)
    ensures Select(Candidates(rows, root, key), (c: Claim) => IsStale(c)) ==
              Select(rows, (c: Claim) => IsCandidate(c, root, key) && c.validity != CURRENT)
  {
    hide IsCandidate;
    CandidatesSelected(rows, root, key);
    SelectTwice(rows, (c: Claim) => IsCandidate(c, root, key), (c: Claim) => IsStale(c),
                (c: Claim) => IsCandidate(c, root, key) && c.validity != CURRENT);
  }

  lemma RejectedSelected(rows: seq<Claim>, policy: Policy, root: string, key: string, value: string)
    ensures var candidates := Candidates(rows, root, key);
            var strong := Strong(policy, candidates, key, value);
            Select(candidates, (c: Claim) => c !in strong) ==
              Select(rows, (c: Claim) => IsCandidate(c, root, key) && !IsStrong(c, policy, root, key, value))
  {
    CandidatesSelected(rows, root, key);
    StrongSelected(rows, policy, root, key, value);
    var strong := Strong(policy, Candidates(rows, root, key), key, value);
    hide IsCandidate, IsStrong, Strong;
    SelectTwice(rows, (c: Claim) => IsCandidate(c, root, key), (c: Claim) => c !in strong,
                (c: Claim) => IsCandidate(c, root, key) && !IsStrong(c, policy, root, key, value));
  }

  /** Ids being distinct, selecting by accepted id finds the strong rows again. */
  lemma AcceptedSelected(rows: seq<Claim>, policy: Policy, root: string, key: string, value: string)
    requires DistinctClaimIds(rows)
    ensures var candidates := Candidates(rows, root, key);
            var ids := IdsOf(Strong(policy, candidates, key, value));
            Select(candidates, (c: Claim) => c.id in ids) ==
              Select(rows, (c: Claim) => IsStrong(c, policy, root, key, value))
  {
    CandidatesSelected(rows, root, key);
    StrongSelected(rows, policy, root, key, value);
    var strong := Strong(policy, Candidates(rows, root, key), key, value);
    var ids := IdsOf(strong);
    assert forall c | IsStrong(c, policy, root, key, value) :: IsCandidate(c, root, key);
    hide IsCandidate, IsStrong, Strong, Candidates;
    NamedByStrong(rows, strong, (c: Claim) => IsStrong(c, policy, root, key, value));
    SelectTwice(rows, (c: Claim) => IsCandidate(c, root, key), (c: Claim) => c.id in ids,
                (c: Claim) => IsStrong(c, policy, root, key, value));
  }

  lemma NamedByStrong(rows: seq<Claim>, strong: seq<Claim>, p: Claim -> bool)
    requires DistinctClaimIds(rows) && strong == Select(rows, p)
    ensures forall i | 0 <= i < |rows| :: rows[i].id in IdsOf(strong) <==> p(rows[i])
  {
    hide Select, IdsOf;
    forall i | 0 <= i < |rows| ensures rows[i].id in IdsOf(strong) <==> p(rows[i]) {
      if rows[i].id in IdsOf(strong) {
        var c :| c in strong && c.id == rows[i].id;
        var j :| 0 <= j < |rows| && rows[j] == c;
      }
    }
  }

  // ----- episodes to semantic memory -----

  predicate IsKnown(c: Claim, root: string, key: string, value: string) {
    c.projectRoot == root && c.tier == SEMANTIC && c.validity == CURRENT && Says(c, key, value)
  }

  lemma KnownSelected(rows: seq<Claim>, root: string, key: string, value: string)
    ensures Known(rows, SEMANTIC, root, key, Some(value)) == Select(rows, (c: Claim) => IsKnown(c, root, key, value))
  {
    hide Normalize, Mentions, Says, Asserts, AssertsValue;
    RowsMention(rows, key, value);
    SelectAgrees(rows,
      (c: Claim) =>
        && c.projectRoot == root && c.tier == SEMANTIC && !IsStale(c)
        && if Some(value).Some? then AssertsValue(c, key, Some(value).value) else Asserts(c, key),
      (c: Claim) => IsKnown(c, root, key, value));
  }

  /**
   Nobody knows it yet, no CURRENT episode objects, and enough CURRENT confident episodes agree, from
   as many different tasks.
   */
  ghost predicate Opens(rows: seq<Claim>, policy: Policy, task: Task, root: string, assertion: Assertion) {
    var key, value := Normalize(assertion.key), Normalize(assertion.value);
    var strong := StrongPlaces(rows, policy, root, assertion);
    && (forall c | c in rows :: !IsKnown(c, task.projectRoot, key, value))
    && (forall c | c in rows :: !Objects(c, root, key, value))
    && |strong| >= policy.semanticMinimumEpisodes && |Tasks(rows, strong)| >= policy.semanticMinimumEpisodes
  }

  lemma ReasonExactly(rows: seq<Claim>, policy: Policy, task: Task, root: string, assertion: Assertion)
    ensures var key, value := Normalize(assertion.key), Normalize(assertion.value);
            var reason := SemanticReason(rows, policy, task, assertion, Candidates(rows, root, key));
            && (reason == Accepted <==> Opens(rows, policy, task, root, assertion))
            && (reason.AlreadyKnown? <==> exists c :: c in rows && IsKnown(c, task.projectRoot, key, value))
            && (reason.AlreadyKnown? ==>
                exists i | 0 <= i < |rows| ::
                  && IsKnown(rows[i], task.projectRoot, key, value) && reason.id == rows[i].id
                  && forall j | 0 <= j < i :: !IsKnown(rows[j], task.projectRoot, key, value))
            && (reason == Contradicted <==>
                && (forall c | c in rows :: !IsKnown(c, task.projectRoot, key, value))
                && exists c :: c in rows && Objects(c, root, key, value))
  {
    hide Normalize, Strong, Candidates, Known, Contradictory, IsKnown, Objects, StrongPlaces, Tasks, TaskIds;
    GateReads(rows, policy, task, root, assertion);
  }

  lemma GateReads(rows: seq<Claim>, policy: Policy, task: Task, root: string, assertion: Assertion)
    ensures var key, value := Normalize(assertion.key), Normalize(assertion.value);
            var candidates := Candidates(rows, root, key);
            var known, strong := Known(rows, SEMANTIC, task.projectRoot, key, Some(value)),
                                 Strong(policy, candidates, key, value);
            && (known != [] <==> exists c :: c in rows && IsKnown(c, task.projectRoot, key, value))
            && (known != [] ==>
                exists i | 0 <= i < |rows| ::
                  && rows[i] == known[0] && IsKnown(rows[i], task.projectRoot, key, value)
                  && forall j | 0 <= j < i :: !IsKnown(rows[j], task.projectRoot, key, value))
            && (Contradictory(candidates, key, value) != [] <==>
                exists c :: c in rows && Objects(c, root, key, value))
            && |strong| == |StrongPlaces(rows, policy, root, assertion)|
            && TaskIds(strong) == Tasks(rows, StrongPlaces(rows, policy, root, assertion))
  {
    var key, value := Normalize(assertion.key), Normalize(assertion.value);
    hide Normalize, Strong, Candidates, Known, Contradictory, IsKnown, Objects, IsStrong, TaskIds, Tasks;
    KnownSelected(rows, task.projectRoot, key, value);
    ContradictorySelected(rows, root, key, value);
    StrongSelected(rows, policy, root, key, value);
    SelectIsAt(rows, (c: Claim) => IsStrong(c, policy, root, key, value));
    TasksAt(rows, StrongPlaces(rows, policy, root, assertion));
    FirstSelected(rows, (c: Claim) => IsKnown(c, task.projectRoot, key, value));
    SomeSelected(rows, (c: Claim) => IsKnown(c, task.projectRoot, key, value));
    SomeSelected(rows, (c: Claim) => Objects(c, root, key, value));
    hide Select;
  }

  lemma SomeSelected(rows: seq<Claim>, p: Claim -> bool)
    ensures Select(rows, p) != [] <==> exists c :: c in rows && p(c)
  {
    var r := Select(rows, p);
    if r != [] {
      assert r[0] in r;
    }
    if c :| c in rows && p(c) {
      assert c in r;
    }
    hide Select;
  }

  lemma {:induction false} FirstSelected(rows: seq<Claim>, p: Claim -> bool)
    ensures Select(rows, p) != [] ==>
              exists i | 0 <= i < |rows| ::
                rows[i] == Select(rows, p)[0] && p(rows[i]) && forall j | 0 <= j < i :: !p(rows[j])
  {
    SelectIsAt(rows, p);
    var places := Places(rows, p);
    if places != [] {
      assert places[0] in places;
      assert forall k | 0 <= k < |places| :: places[0] <= places[k];
      assert forall j: nat | j < places[0] :: p(rows[j]) ==> j in places;
    }
  }

  /** The decision lists the rows it was taken on, in their order, and what they amount to. */
  ghost predicate Reports(rows: seq<Claim>, policy: Policy, task: Task, root: string, assertion: Assertion,
                          d: Decision) {
    var key, value := Normalize(assertion.key), Normalize(assertion.value);
    var strong, opens := StrongPlaces(rows, policy, root, assertion), Opens(rows, policy, task, root, assertion);
    var agreeing := Places(rows, (c: Claim) => Agrees(c, root, key, value));
    && d.taskId == task.id && d.projectRoot == task.projectRoot && d.assertionKey == assertion.key
    && d.fromTier == EPISODIC && d.toTier == SEMANTIC && (d.reason == Accepted <==> opens)
    && d.candidateIds == IdsAt(rows, Places(rows, (c: Claim) => IsCandidate(c, root, key)))
    && d.rejectedIds ==
         (if opens then
            IdsAt(rows, Places(rows, (c: Claim) =>
              IsCandidate(c, root, key) && !IsStrong(c, policy, root, key, value)))
          else d.candidateIds)
    && d.contradictoryIds == IdsAt(rows, Places(rows, (c: Claim) => Objects(c, root, key, value)))
    && d.staleIds ==
         IdsAt(rows, Places(rows, (c: Claim) => IsCandidate(c, root, key) && c.validity != CURRENT))
    && d.minimumSupport == policy.semanticMinimumEpisodes && d.minimumConfidence == policy.semanticMinimumConfidence
    && d.observedSupport == |strong|
    && IsMean(d.observedConfidence, rows, agreeing) && (agreeing == [] ==> d.observedConfidence == 0.0)
  }

  lemma SelectedIds(rows: seq<Claim>, p: Claim -> bool)
    ensures IdsOf(Select(rows, p)) == IdsAt(rows, Places(rows, p))
    ensures |Select(rows, p)| == |Places(rows, p)|
    ensures TotalConfidence(Select(rows, p)) == Confidences(rows, Places(rows, p))
  {
    SelectIsAt(rows, p);
    TotalAt(rows, Places(rows, p));
  }

  lemma DecisionReports(rows: seq<Claim>, policy: Policy, task: Task, root: string, assertion: Assertion)
    ensures var d := SemanticDecision(rows, policy, task, assertion, Candidates(rows, root, Normalize(assertion.key)));
            && Reports(rows, policy, task, root, assertion, d) && d.promotedId == None
            && d.acceptedIds ==
              if d.reason == Accepted then IdsAt(rows, StrongPlaces(rows, policy, root, assertion)) else []
  {
    var key, value := Normalize(assertion.key), Normalize(assertion.value);
    hide Normalize, Strong, Candidates, Matching, Contradictory, IsCandidate, Objects, IsStrong, Agrees, Opens,
         SemanticReason, IdsOf, TotalConfidence, Confidences, IdsAt;
    ReasonExactly(rows, policy, task, root, assertion);
    CandidatesSelected(rows, root, key);
    MatchingSelected(rows, root, key, value);
    StrongSelected(rows, policy, root, key, value);
    ContradictorySelected(rows, root, key, value);
    StaleSelected(rows, root, key);
    RejectedSelected(rows, policy, root, key, value);
    SelectedIds(rows, (c: Claim) => IsCandidate(c, root, key));
    SelectedIds(rows, (c: Claim) => Agrees(c, root, key, value));
    SelectedIds(rows, (c: Claim) => IsStrong(c, policy, root, key, value));
    SelectedIds(rows, (c: Claim) => Objects(c, root, key, value));
    SelectedIds(rows, (c: Claim) => IsCandidate(c, root, key) && c.validity != CURRENT);
    SelectedIds(rows, (c: Claim) => IsCandidate(c, root, key) && !IsStrong(c, policy, root, key, value));
    var agreeing := Places(rows, (c: Claim) => Agrees(c, root, key, value));
    MeanOf(rows, agreeing);
    hide Select, Places, IsMean;
  }

  lemma MeanOf(rows: seq<Claim>, places: seq<nat>)
    requires Within(rows, places)
    ensures places == [] ==> IsMean(0.0, rows, places)
    ensures places != [] ==> IsMean(Confidences(rows, places) / |places| as real, rows, places)
  {
  }

  /** The memory says what the strong episodes agree on, with the mean of their confidences, and names them. */
  ghost predicate Remembers(rows: seq<Claim>, strong: seq<nat>, m: Claim, task: Task, assertion: Assertion, id: string)
    requires Within(rows, strong)
  {
    && m.id == id && m.tier == SEMANTIC && m.validity == CURRENT && m.lifecycle == ACTIVE
    && m.assertions == [assertion] && m.successfulReuses == 0
    && m.promotedTo == None && m.supersededBy == None && m.validUntil == None
    && m.projectRoot == (if task.projectRoot != "" then task.projectRoot else task.resolvedRoot)
    && m.sourceTaskId == Some(task.id)
    && IsMean(m.confidence, rows, strong)
    && (m.grounded <==> exists i | i in strong :: rows[i].grounded)
    && NoTwoEqual(m.sourceClaimIds)
    && (forall s :: s in m.sourceClaimIds <==> s in IdsAt(rows, strong) || s in task.sourceClaimIds)
  }

  /** The rows at these places, and no others, are marked promoted to the new one, which comes last. */
  ghost predicate Promotes(rows: seq<Claim>, rows': seq<Claim>, places: seq<nat>, id: string) {
    && |rows'| == |rows| + 1
    && forall i | 0 <= i < |rows| ::
         rows'[i] == if i in places then rows[i].(lifecycle := PROMOTED, promotedTo := Some(id)) else rows[i]
  }

  lemma NewMemory(rows: seq<Claim>, strong: seq<nat>, task: Task, assertion: Assertion, id: string)
    requires Within(rows, strong) && strong != []
    ensures At(rows, strong) != []
    ensures Remembers(rows, strong, NewSemantic(task, assertion, At(rows, strong), id), task, assertion, id)
  {
    var accepted := At(rows, strong);
    assert |accepted| == |strong|;
    hide At, IdsOf, IdsAt, IsMean, NewSemantic, NoTwoEqual, TotalConfidence;
    MemoryMean(rows, strong, task, assertion, id);
    TotalAt(rows, strong);
    GroundedAt(rows, strong);
    NewSemanticFields(task, assertion, accepted, id);
  }

  lemma MemoryMean(rows: seq<Claim>, places: seq<nat>, task: Task, assertion: Assertion, id: string)
    requires Within(rows, places) && places != []
    ensures At(rows, places) != []
    ensures IsMean(NewSemantic(task, assertion, At(rows, places), id).confidence, rows, places)
  {
    assert |At(rows, places)| == |places|;
    hide At, IdsOf, TotalConfidence, Confidences, IsMean, NewSemantic;
    TotalAt(rows, places);
    MeanOf(rows, places);
    NewSemanticConfidence(task, assertion, At(rows, places), id);
  }

  lemma NewSemanticConfidence(task: Task, assertion: Assertion, accepted: seq<Claim>, id: string)
    requires accepted != []
    ensures NewSemantic(task, assertion, accepted, id).confidence == TotalConfidence(accepted) / |accepted| as real
  {
    hide TotalConfidence, IdsOf;
  }

  /**
   A claim saved under a task is CURRENT from then on. It keeps what it says, its root, its task and its
   history if it has them, is an episode rather than working memory, and adds the task's sources to its own.
   */
  lemma SavedFields(task: Task, claim: Claim)
    ensures var m := WithProvenance(task, claim);
            && m.id == claim.id && m.validity == CURRENT && m.lifecycle == claim.lifecycle
            && m.tier == (if claim.tier == WORKING then EPISODIC else claim.tier)
            && m.assertions == claim.assertions && m.successfulReuses == claim.successfulReuses
            && m.confidence == claim.confidence && m.grounded == claim.grounded
            && m.promotedTo == claim.promotedTo && m.supersededBy == claim.supersededBy
            && m.validUntil == claim.validUntil
            && (if Stated(claim.sourceTaskId) then m.sourceTaskId == claim.sourceTaskId
                else m.sourceTaskId == Some(task.id))
            && m.projectRoot == (if |claim.projectRoot| > 0 then claim.projectRoot else task.resolvedRoot)
            && NoTwoEqual(m.sourceClaimIds)
            && (forall s :: s in m.sourceClaimIds <==> s in claim.sourceClaimIds || s in task.sourceClaimIds)
            && (if |claim.validityHistory| > 0 then m.validityHistory == claim.validityHistory
                else m.validityHistory == [ValidityEvent(CURRENT, task.projectState, m.validityReason)])
  {
    hide Learned, Deduplicated, NoTwoEqual;
    DeduplicatedSources(claim.sourceClaimIds, task.sourceClaimIds);
  }

  predicate Stated(text: Option<string>) {
    match text
    case Some(s) => |s| > 0
    case None => false
  }

  lemma NewSemanticFields(task: Task, assertion: Assertion, accepted: seq<Claim>, id: string)
    requires accepted != []
    ensures var m := NewSemantic(task, assertion, accepted, id);
            && m.id == id && m.tier == SEMANTIC && m.validity == CURRENT && m.lifecycle == ACTIVE
            && m.assertions == [assertion] && m.successfulReuses == 0
            && m.promotedTo == None && m.supersededBy == None && m.validUntil == None
            && m.projectRoot == (if task.projectRoot != "" then task.projectRoot else task.resolvedRoot)
            && m.sourceTaskId == Some(task.id)
            && (m.grounded <==> exists c | c in accepted :: c.grounded)
            && NoTwoEqual(m.sourceClaimIds)
            && (forall s :: s in m.sourceClaimIds <==> s in IdsOf(accepted) || s in task.sourceClaimIds)
  {
    hide TotalConfidence, IdsOf, NoTwoEqual, WithProvenance;
    var claim := Claim(id, task.projectRoot, SEMANTIC, CURRENT, ACTIVE,
                       TotalConfidence(accepted) / |accepted| as real,
                       [assertion], None, IdsOf(accepted), None, 0, None,
                       exists c | c in accepted :: c.grounded, Because(""), None, []);
    SavedFields(task, claim);
  }

  lemma DeduplicatedSources(a: seq<string>, b: seq<string>)
    ensures NoTwoEqual(Deduplicated(a + b)) && forall s :: s in Deduplicated(a + b) <==> s in a || s in b
  {
    DeduplicatedKeeps(a + b);
    DeduplicatedHasNoTwo(a + b);
    hide Deduplicated, NoTwoEqual;
  }

  lemma GroundedAt(rows: seq<Claim>, places: seq<nat>)
    requires Within(rows, places)
    ensures (exists c | c in At(rows, places) :: c.grounded) <==> exists i | i in places :: rows[i].grounded
  {
    if i :| i in places && rows[i].grounded {
      var k :| 0 <= k < |places| && places[k] == i;
      assert At(rows, places)[k] == rows[i];
    }
    if c :| c in At(rows, places) && c.grounded {
      var k :| 0 <= k < |places| && At(rows, places)[k] == c;
      assert places[k] in places;
    }
  }

  lemma PromotedAt(rows: seq<Claim>, m: Claim, places: seq<nat>, id: string)
    requires Within(rows, places) && DistinctClaimIds(rows + [m]) && m.id == id
    ensures Promotes(rows, Promoted(rows + [m], IdsAt(rows, places), id), places, id)
    ensures Promoted(rows + [m], IdsAt(rows, places), id)[|rows|] == m
  {
    var ids, all := IdsAt(rows, places), rows + [m];
    forall i | 0 <= i < |all| ensures all[i].id in ids <==> i < |rows| && i in places {
      if all[i].id in ids {
        var k :| 0 <= k < |places| && ids[k] == all[i].id;
        assert places[k] in places && all[places[k]] == rows[places[k]];
      }
      if i < |rows| && i in places {
        var k :| 0 <= k < |places| && places[k] == i;
        assert ids[k] == rows[i].id;
      }
    }
    hide IdsAt;
  }

  lemma ReportsMeans(rows: seq<Claim>, policy: Policy, task: Task, root: string, assertion: Assertion, d: Decision)
    requires Reports(rows, policy, task, root, assertion, d)
    ensures d.reason == Accepted <==> Opens(rows, policy, task, root, assertion)
    ensures forall ids, promoted ::
              Reports(rows, policy, task, root, assertion, d.(promotedId := promoted, acceptedIds := ids))
  {
    hide Normalize, IsCandidate, Objects, IsStrong, Agrees, Opens, Confidences, IdsAt, Places, IsMean;
  }

  lemma AcceptedAt(rows: seq<Claim>, policy: Policy, task: Task, root: string, assertion: Assertion)
    requires DistinctClaimIds(rows)
    ensures var candidates := Candidates(rows, root, Normalize(assertion.key));
            var d := SemanticDecision(rows, policy, task, assertion, candidates);
            d.reason == Accepted ==> AcceptedOf(candidates, d) == At(rows, StrongPlaces(rows, policy, root, assertion))
  {
    var key, value := Normalize(assertion.key), Normalize(assertion.value);
    hide Normalize, Strong, Candidates, IsStrong, SemanticReason, IdsOf, Matching, Contradictory, TotalConfidence;
    AcceptedSelected(rows, policy, root, key, value);
    SelectIsAt(rows, (c: Claim) => IsStrong(c, policy, root, key, value));
    hide Places, At;
  }

  lemma MemoryIsNew(rows: seq<Claim>, strong: seq<nat>, m: Claim, task: Task, assertion: Assertion, id: string)
    requires Within(rows, strong) && DistinctClaimIds(rows) && forall c | c in rows :: c.id != id
    requires Remembers(rows, strong, m, task, assertion, id)
    ensures m.id == id && DistinctClaimIds(rows + [m])
  {
  }

  /**
   The gate opens exactly on these rows. Then one memory is made, the rows it stands on are marked, and the
   decision names it; otherwise nothing changes. Opening on no episode at all raises.
   */
  lemma SemanticGateExactly(rows: seq<Claim>, policy: Policy, task: Task, root: string, assertion: Assertion,
                            id: string)
    requires DistinctClaimIds(rows) && forall c | c in rows :: c.id != id
    ensures var strong, opens := StrongPlaces(rows, policy, root, assertion), Opens(rows, policy, task, root,
                                                                                    assertion);
            var e := EvaluateAssertion(rows, policy, task, root, assertion, id);
            && (e.raised <==> opens && strong == [])
            && (e.raised ==> e.rows == rows && e.decisions == [])
            && (!e.raised ==> |e.decisions| == 1 && Reports(rows, policy, task, root, assertion, e.decisions[0]))
            && (!opens ==> e.rows == rows && e.decisions[0].promotedId == None && e.decisions[0].acceptedIds == [])
            && (opens && strong != [] ==>
                && Promotes(rows, e.rows, strong, id)
                && Remembers(rows, strong, e.rows[|rows|], task, assertion, id)
                && e.decisions[0].promotedId == Some(id)
                && e.decisions[0].acceptedIds == e.rows[|rows|].sourceClaimIds)
  {
    var key, value := Normalize(assertion.key), Normalize(assertion.value);
    hide Normalize, SemanticDecision, Strong, Candidates, IsStrong, Opens, NewSemantic, Promoted, IdsAt, IdsOf, Reports,
         Remembers, Promotes, TotalConfidence, Confidences;
    DecisionReports(rows, policy, task, root, assertion);
    ReportsMeans(rows, policy, task, root, assertion,
                  SemanticDecision(rows, policy, task, assertion, Candidates(rows, root, key)));
    var strong := StrongPlaces(rows, policy, root, assertion);
    AcceptedAt(rows, policy, task, root, assertion);
    if strong != [] {
      NewMemory(rows, strong, task, assertion, id);
      var m := NewSemantic(task, assertion, At(rows, strong), id);
      TotalAt(rows, strong);
      MemoryIsNew(rows, strong, m, task, assertion, id);
      PromotedAt(rows, m, strong, id);
    }
    hide At, StrongPlaces;
  }

  // ----- semantic memory to procedure -----

  /** The assertion a procedure is about: the memory's first one. */
  ghost predicate Leads(semantic: Claim, assertion: Assertion) {
    if |semantic.assertions| > 0 then semantic.assertions[0] == assertion else assertion == Assertion("memory", "")
  }

  predicate IsProcedure(c: Claim, root: string, key: string) {
    c.projectRoot == root && c.tier == PROCEDURAL && c.validity == CURRENT && Mentions(c, key)
  }

  /** No CURRENT procedure is about it yet, and the memory is CURRENT, confident and reused often enough. */
  ghost predicate OpensFor(rows: seq<Claim>, policy: Policy, semantic: Claim, assertion: Assertion) {
    && (forall c | c in rows :: !IsProcedure(c, semantic.projectRoot, Normalize(assertion.key)))
    && semantic.validity == CURRENT && semantic.confidence >= policy.proceduralMinimumConfidence
    && semantic.successfulReuses >= policy.proceduralMinimumReuses
  }

  lemma ProceduresSelected(rows: seq<Claim>, root: string, key: string)
    ensures Known(rows, PROCEDURAL, root, key, None) == Select(rows, (c: Claim) => IsProcedure(c, root, key))
  {
    hide Normalize, Mentions, Asserts, AssertsValue;
    RowsMention(rows, key, "");
    var none: Option<string> := None;
    SelectAgrees(rows,
      (c: Claim) =>
        && c.projectRoot == root && c.tier == PROCEDURAL && !IsStale(c)
        && if none.Some? then AssertsValue(c, key, none.value) else Asserts(c, key),
      (c: Claim) => IsProcedure(c, root, key));
  }

  lemma ProceduralReasonExactly(rows: seq<Claim>, policy: Policy, semantic: Claim, assertion: Assertion)
    requires Leads(semantic, assertion)
    ensures var reason, key := ProceduralReason(rows, policy, semantic), Normalize(assertion.key);
            && (reason == Accepted <==> OpensFor(rows, policy, semantic, assertion))
            && (reason.AlreadyKnown? <==> exists c :: c in rows && IsProcedure(c, semantic.projectRoot, key))
            && (reason.AlreadyKnown? ==>
                exists i | 0 <= i < |rows| ::
                  && IsProcedure(rows[i], semantic.projectRoot, key) && reason.id == rows[i].id
                  && forall j | 0 <= j < i :: !IsProcedure(rows[j], semantic.projectRoot, key))
            && (reason == StaleSemantic ==> semantic.validity != CURRENT)
            && (reason == LowConfidence ==>
                semantic.validity == CURRENT && semantic.confidence < policy.proceduralMinimumConfidence)
            && (reason == TooFewReuses ==> semantic.successfulReuses < policy.proceduralMinimumReuses)
  {
    hide Normalize, IsProcedure, Known;
    var key := Normalize(assertion.key);
    ProceduresSelected(rows, semantic.projectRoot, key);
    FirstSelected(rows, (c: Claim) => IsProcedure(c, semantic.projectRoot, key));
    SomeSelected(rows, (c: Claim) => IsProcedure(c, semantic.projectRoot, key));
    hide Select;
  }

  /** The procedure says what the memory leads with, with the memory's own confidence, and names it. */
  ghost predicate Follows(m: Claim, semantic: Claim, task: Task, assertion: Assertion, id: string) {
    && m.id == id && m.tier == PROCEDURAL && m.validity == CURRENT && m.lifecycle == ACTIVE
    && m.assertions == [assertion] && m.successfulReuses == 0
    && m.promotedTo == None && m.supersededBy == None && m.validUntil == None
    && m.projectRoot == (if task.projectRoot != "" then task.projectRoot else task.resolvedRoot)
    && m.sourceTaskId == Some(task.id)
    && m.confidence == semantic.confidence && m.grounded == semantic.grounded
    && NoTwoEqual(m.sourceClaimIds)
    && (forall s :: s in m.sourceClaimIds <==> s == semantic.id || s in task.sourceClaimIds)
  }

  lemma NewProcedureFollows(semantic: Claim, task: Task, assertion: Assertion, id: string)
    requires Leads(semantic, assertion)
    ensures Follows(NewProcedure(task, semantic, id), semantic, task, assertion, id)
  {
    hide WithProvenance, NoTwoEqual;
    SavedFields(task, Claim(id, task.projectRoot, PROCEDURAL, CURRENT, ACTIVE, semantic.confidence, [assertion], None,
                            [semantic.id], None, 0, None, semantic.grounded, Because(""), None, []));
  }

  /** The second gate opens exactly on this; then one procedure is made and the memory marked, otherwise nothing is. */
  lemma ProceduralGateExactly(rows: seq<Claim>, policy: Policy, task: Task, index: nat, assertion: Assertion,
                              id: string)
    requires DistinctClaimIds(rows) && index < |rows| && forall c | c in rows :: c.id != id
    requires Leads(rows[index], assertion)
    ensures var semantic, opens := rows[index], OpensFor(rows, policy, rows[index], assertion);
            var e := ProceduralEvaluation(rows, policy, task, semantic, id);
            && !e.raised && |e.decisions| == 1
            && var d := e.decisions[0];
            && (!opens ==> e.rows == rows)
            && (opens ==>
                Promotes(rows, e.rows, [index], id) && Follows(e.rows[|rows|], semantic, task, assertion, id))
            && (d.reason == Accepted <==> opens) && d.promotedId == (if opens then Some(id) else None)
            && d.taskId == task.id && d.projectRoot == task.projectRoot && d.assertionKey == assertion.key
            && d.fromTier == SEMANTIC && d.toTier == PROCEDURAL && d.candidateIds == [semantic.id]
            && d.acceptedIds == (if opens then [semantic.id] else [])
            && d.rejectedIds == (if opens then [] else [semantic.id]) && d.contradictoryIds == []
            && d.staleIds == (if semantic.validity == CURRENT then [] else [semantic.id])
            && d.minimumSupport == policy.proceduralMinimumReuses
            && d.minimumConfidence == policy.proceduralMinimumConfidence
            && d.observedSupport == semantic.successfulReuses && d.observedConfidence == semantic.confidence
  {
    hide Normalize, ProceduralReason, NewProcedure, Promoted, OpensFor, NoTwoEqual, Promotes;
    var semantic := rows[index];
    ProceduralReasonExactly(rows, policy, semantic, assertion);
    NewProcedureFollows(semantic, task, assertion, id);
    var m := NewProcedure(task, semantic, id);
    assert IdsAt(rows, [index]) == [semantic.id];
    PromotedAt(rows, m, [index], id);
  }
}
