/**
 What governed consolidation guarantees over whole runs. Every CURRENT procedure rests on enough
 CURRENT, independent, confident episodes, whatever the run. As long as nothing stale is made
 CURRENT again, synchronized memory holds no two CURRENT semantic memories for one key, and there
 are never two CURRENT procedures for one.
 */
module MemorySafety {
  import opened Lists
  import opened Wrappers
  import opened Normalization
  import opened GraphData
  import opened DependencyValidity
  import opened Consolidation
  import opened PromotionGates
  import opened Provenance

  // ----- steps -----

  datatype Step =
    | SaveEpisode(task: Task, claim: Claim)
    | Revalidate(verdicts: map<string, Verdict>, projectState: string)
    | Supersede(id: string, replacementId: string, projectState: string)
    | Reuse(id: string)
    | EvaluateEpisodes(task: Task, trigger: Claim, ids: seq<string>)
    | EvaluateProcedure(task: Task, index: nat, id: string)
    | Synchronize(projectState: string)

  ghost predicate IsFresh(rows: seq<Claim>, id: string) {
    forall i | 0 <= i < |rows| :: rows[i].id != id
  }

  /** Later form of a row: what identifies and supports it is fixed. */
  ghost predicate SameCore(was: Claim, now: Claim) {
    && now == was.(validity := now.validity, lifecycle := now.lifecycle, promotedTo := now.promotedTo,
                   successfulReuses := now.successfulReuses, supersededBy := now.supersededBy,
                   validityReason := now.validityReason,
                   validUntil := now.validUntil, validityHistory := now.validityHistory)
    && now.successfulReuses >= was.successfulReuses
  }

  ghost predicate SameRows(was: seq<Claim>, now: seq<Claim>) {
    |now| == |was| && forall i | 0 <= i < |was| :: SameCore(was[i], now[i])
  }

  ghost predicate Next(policy: Policy, was: seq<Claim>, now: seq<Claim>, step: Step) {
    match step
    case SaveEpisode(task, claim) =>
      && IsFresh(was, claim.id) && claim.tier in {WORKING, EPISODIC} && OneValuePerKey(claim)
      && now == was + [WithProvenance(task, claim)]
    case Revalidate(verdicts, projectState) =>
      now == Revalidated(was, verdicts, projectState)
    case Supersede(id, replacementId, projectState) =>
      && |now| == |was|
      && forall i | 0 <= i < |was| ::
           now[i] == if was[i].id == id then SupersededClaim(was[i], replacementId, projectState) else was[i]
    case Reuse(id) =>
      && |now| == |was|
      && forall i | 0 <= i < |was| ::
           now[i] == if was[i].id == id then was[i].(successfulReuses := was[i].successfulReuses + 1) else was[i]
    case EvaluateEpisodes(task, trigger, ids) =>
      && task.projectRoot == trigger.projectRoot != "" && |trigger.assertions| <= |ids|
      && (forall k | 0 <= k < |ids| :: IsFresh(was, ids[k]))
      && (forall k, l | 0 <= k < l < |ids| :: ids[k] != ids[l])
      && now == EvaluateAssertions(was, policy, task, trigger, ids, |trigger.assertions|).rows
    case EvaluateProcedure(task, index, id) =>
      && index < |was| && was[index].tier == SEMANTIC && task.projectRoot == was[index].projectRoot != ""
      && IsFresh(was, id)
      && now == ProceduralEvaluation(was, policy, task, was[index], id).rows
    case Synchronize(projectState) =>
      Synchronized(was, now, projectState)
  }

  /** A run from an empty store: the states passed through, and the steps between them. */
  ghost predicate IsRun(policy: Policy, states: seq<seq<Claim>>, steps: seq<Step>) {
    && |states| == |steps| + 1 && states[0] == []
    && forall k | 0 <= k < |steps| :: Next(policy, states[k], states[k + 1], steps[k])
  }

  /** The step makes a stale claim CURRENT again. */
  ghost predicate Revives(rows: seq<Claim>, step: Step) {
    step.Revalidate?
      && exists i ::
           0 <= i < |rows| && IsStale(rows[i]) && rows[i].id in step.verdicts && step.verdicts[rows[i].id].valid
  }

  /** A run in which no stale claim becomes CURRENT again. */
  ghost predicate IsSteadyRun(policy: Policy, states: seq<seq<Claim>>, steps: seq<Step>) {
    IsRun(policy, states, steps) && forall k | 0 <= k < |steps| :: !Revives(states[k], steps[k])
  }

  // ----- the invariant -----

  function KeyOf(claim: Claim): string {
    if claim.assertions == [] then "" else Normalize(claim.assertions[0].key)
  }

  function ValueAsserted(claim: Claim): string {
    if claim.assertions == [] then "" else Normalize(claim.assertions[0].value)
  }

  /** Row `e` is a confident episode for what `memory` says, and one of its sources. */
  predicate Backs(policy: Policy, memory: Claim, e: Claim) {
    && e.tier == EPISODIC && e.projectRoot == memory.projectRoot && e.id in memory.sourceClaimIds
    && Says(e, KeyOf(memory), ValueAsserted(memory))
    && e.confidence >= policy.semanticMinimumConfidence
  }

  ghost predicate Ascending(places: seq<nat>) {
    forall j, k | 0 <= j < k < |places| :: places[j] < places[k]
  }

  /** The rows at these places are different episodes that back the memory, from enough different tasks. */
  ghost predicate AreBacking(rows: seq<Claim>, policy: Policy, memory: Claim, places: seq<nat>) {
    && places != [] && Ascending(places) && Within(rows, places)
    && (forall i | i in places :: Backs(policy, memory, rows[i]))
    && |Tasks(rows, places)| >= policy.semanticMinimumEpisodes
  }

  /** Its confidence is the mean of theirs. */
  ghost predicate SemanticOk(rows: seq<Claim>, policy: Policy, memory: Claim) {
    && |memory.assertions| == 1
    && exists places :: AreBacking(rows, policy, memory, places) && IsMean(memory.confidence, rows, places)
  }

  /** The row is a semantic memory the procedure was made of. */
  ghost predicate Founds(policy: Policy, procedure: Claim, semantic: Claim) {
    && semantic.tier == SEMANTIC && semantic.id in procedure.sourceClaimIds
    && semantic.projectRoot == procedure.projectRoot && semantic.assertions == procedure.assertions
    && procedure.confidence == semantic.confidence >= policy.proceduralMinimumConfidence
    && semantic.successfulReuses >= policy.proceduralMinimumReuses
  }

  ghost predicate ProcedureOk(rows: seq<Claim>, policy: Policy, procedure: Claim) {
    exists i | 0 <= i < |rows| :: Founds(policy, procedure, rows[i])
  }

  ghost predicate Rivals(a: Claim, b: Claim, tier: Tier) {
    a.tier == tier && b.tier == tier && a.projectRoot == b.projectRoot && KeyOf(a) == KeyOf(b) && !IsStale(a)
      && !IsStale(b)
  }

  ghost predicate HasStaleSource(rows: seq<Claim>, memory: Claim) {
    exists id | id in memory.sourceClaimIds :: IsStaleId(rows, id)
  }

  ghost predicate RowOk(rows: seq<Claim>, policy: Policy, row: Claim) {
    && (row.tier == EPISODIC ==> OneValuePerKey(row))
    && (row.tier == SEMANTIC ==> SemanticOk(rows, policy, row))
    && (row.tier == PROCEDURAL ==> |row.assertions| == 1 && ProcedureOk(rows, policy, row))
  }

  /** Rows keep their ids apart, and memories their support. Every step of every run keeps this. */
  ghost predicate Inv(rows: seq<Claim>, policy: Policy) {
    && DistinctClaimIds(rows)
    && (forall i | 0 <= i < |rows| :: RowOk(rows, policy, rows[i]))
  }

  /** CURRENT semantic rivals exist only until the next synchronization; procedural ones never. */
  ghost predicate PairOk(rows: seq<Claim>, a: Claim, b: Claim, tier: Tier) {
    Rivals(a, b, tier) ==> tier == SEMANTIC && (HasStaleSource(rows, a) || HasStaleSource(rows, b))
  }

  /** No step keeps this but those that make nothing stale CURRENT again. */
  ghost predicate NoRivals(rows: seq<Claim>, tier: Tier) {
    forall i, j | 0 <= i < j < |rows| :: PairOk(rows, rows[i], rows[j], tier)
  }

  // ----- growth keeps it -----

  /** `now` continues `was`: its rows in place, possibly more after them. */
  ghost predicate Continues(was: seq<Claim>, now: seq<Claim>) {
    |was| <= |now| && forall i | 0 <= i < |was| :: SameCore(was[i], now[i])
  }

  /** No stale row of `was` is CURRENT in `now`. */
  ghost predicate StaysStale(was: seq<Claim>, now: seq<Claim>) {
    |was| <= |now| && forall i | 0 <= i < |was| && IsStale(was[i]) :: IsStale(now[i])
  }

  lemma {:induction false} SumStays(was: seq<Claim>, now: seq<Claim>, places: seq<nat>)
    requires Within(was, places) && Continues(was, now)
    ensures Within(now, places) && Confidences(now, places) == Confidences(was, places)
  {
    if places != [] {
      var n := |places| - 1;
      assert places[n] in places && forall i | i in places[..n] :: i in places;
      SumStays(was, now, places[..n]);
    }
  }

  lemma BackingStays(was: seq<Claim>, now: seq<Claim>, policy: Policy, memory: Claim, memory': Claim, places: seq<nat>)
    requires Continues(was, now) && SameCore(memory, memory') && AreBacking(was, policy, memory, places)
    ensures AreBacking(now, policy, memory', places)
    ensures IsMean(memory.confidence, was, places) ==> IsMean(memory'.confidence, now, places)
  {
    hide Normalize, Says, Confidences;
    SumStays(was, now, places);
    forall i | i in places ensures Backs(policy, memory', now[i]) {
      assert Backs(policy, memory, was[i]);
      SameSays(was[i], now[i], KeyOf(memory), ValueAsserted(memory));
    }
    assert Tasks(was, places) == Tasks(now, places);
  }

  lemma SameSays(c: Claim, c': Claim, key: string, value: string)
    requires c'.assertions == c.assertions
    ensures Says(c, key, value) <==> Says(c', key, value)
  {
    hide Normalize;
  }

  lemma RowStaysOk(was: seq<Claim>, now: seq<Claim>, policy: Policy, row: Claim, row': Claim)
    requires Continues(was, now) && SameCore(row, row') && RowOk(was, policy, row)
    ensures RowOk(now, policy, row')
  {
    hide AreBacking, IsMean, Normalize;
    if row.tier == SEMANTIC {
      var places :| AreBacking(was, policy, row, places) && IsMean(row.confidence, was, places);
      BackingStays(was, now, policy, row, row', places);
    }
    if row.tier == PROCEDURAL {
      var i :| 0 <= i < |was| && Founds(policy, row, was[i]);
      assert SameCore(was[i], now[i]) && Founds(policy, row', now[i]);
    }
  }

  lemma StaleSourceStays(was: seq<Claim>, now: seq<Claim>, row: Claim, row': Claim)
    requires Continues(was, now) && StaysStale(was, now) && SameCore(row, row') && HasStaleSource(was, row)
    ensures HasStaleSource(now, row')
  {
    var id :| id in row.sourceClaimIds && IsStaleId(was, id);
    var j :| 0 <= j < |was| && was[j].id == id && IsStale(was[j]);
    assert now[j].id == id && IsStale(now[j]);
    assert id in row'.sourceClaimIds && IsStaleId(now, id);
  }

  lemma PairStaysOk(was: seq<Claim>, now: seq<Claim>, i: nat, j: nat, tier: Tier)
    requires Continues(was, now) && StaysStale(was, now) && i < j < |was| && PairOk(was, was[i], was[j], tier)
    ensures PairOk(now, now[i], now[j], tier)
  {
    hide Normalize;
    if HasStaleSource(was, was[i]) {
      StaleSourceStays(was, now, was[i], now[i]);
    }
    if HasStaleSource(was, was[j]) {
      StaleSourceStays(was, now, was[j], now[j]);
    }
  }

  lemma SameRowsKeepInv(was: seq<Claim>, now: seq<Claim>, policy: Policy)
    requires Inv(was, policy) && SameRows(was, now)
    ensures Inv(now, policy)
  {
    hide RowOk;
    assert Continues(was, now);
    forall i | 0 <= i < |now| ensures RowOk(now, policy, now[i]) {
      RowStaysOk(was, now, policy, was[i], now[i]);
    }
  }

  lemma SameRowsKeepRivals(was: seq<Claim>, now: seq<Claim>, tier: Tier)
    requires NoRivals(was, tier) && SameRows(was, now) && StaysStale(was, now)
    ensures NoRivals(now, tier)
  {
    hide PairOk, SameCore;
    assert Continues(was, now);
    forall i, j | 0 <= i < j < |now| ensures PairOk(now, now[i], now[j], tier) {
      PairStaysOk(was, now, i, j, tier);
    }
  }

  lemma AppendedRowKeepsInv(was: seq<Claim>, row: Claim, policy: Policy)
    requires Inv(was, policy) && IsFresh(was, row.id)
    requires RowOk(was + [row], policy, row)
    ensures Inv(was + [row], policy)
  {
    hide RowOk;
    var now := was + [row];
    assert Continues(was, now);
    forall i | 0 <= i < |now| ensures RowOk(now, policy, now[i]) {
      if i < |was| {
        RowStaysOk(was, now, policy, was[i], was[i]);
      }
    }
  }

  lemma AppendedRowKeepsRivals(was: seq<Claim>, row: Claim, tier: Tier)
    requires NoRivals(was, tier) && forall i | 0 <= i < |was| :: PairOk(was + [row], was[i], row, tier)
    ensures NoRivals(was + [row], tier)
  {
    hide PairOk;
    var now := was + [row];
    assert Continues(was, now) && StaysStale(was, now);
    forall i, j | 0 <= i < j < |now| ensures PairOk(now, now[i], now[j], tier) {
      if j < |was| {
        PairStaysOk(was, now, i, j, tier);
      }
    }
  }

  /** A row of another tier has no rivals in this one. */
  lemma OtherTierKeepsRivals(was: seq<Claim>, row: Claim, tier: Tier)
    requires NoRivals(was, tier) && row.tier != tier
    ensures NoRivals(was + [row], tier)
  {
    hide PairOk, KeyOf;
    forall i | 0 <= i < |was| ensures PairOk(was + [row], was[i], row, tier) {
      NoRivalInTier(was + [row], was[i], row, tier);
    }
    AppendedRowKeepsRivals(was, row, tier);
  }

  lemma NoRivalInTier(rows: seq<Claim>, a: Claim, b: Claim, tier: Tier)
    requires b.tier != tier
    ensures PairOk(rows, a, b, tier)
  {
  }

  // ----- new semantic memory -----

  /** What an evaluation makes of the rows: nothing, or a memory appended and its sources linked. */
  ghost predicate Evaluates(rows: seq<Claim>, now: seq<Claim>, policy: Policy, task: Task, assertion: Assertion,
                            id: string) {
    || now == rows
    || (Opens(rows, policy, task, task.projectRoot, assertion)
        && Extended(rows, now, StrongPlaces(rows, policy, task.projectRoot, assertion), task, assertion, id))
  }

  ghost predicate Extended(rows: seq<Claim>, now: seq<Claim>, strong: seq<nat>, task: Task, assertion: Assertion,
                           id: string) {
    && strong != [] && Within(rows, strong) && Promotes(rows, now, strong, id)
    && Remembers(rows, strong, now[|rows|], task, assertion, id)
  }

  lemma EvaluationIs(rows: seq<Claim>, policy: Policy, task: Task, assertion: Assertion, id: string)
    requires DistinctClaimIds(rows) && IsFresh(rows, id)
    ensures Evaluates(rows, EvaluateAssertion(rows, policy, task, task.projectRoot, assertion, id).rows, policy, task,
                      assertion, id)
  {
    hide Normalize, EvaluateAssertion, Opens, IsStrong, Promotes, Remembers, Reports;
    SemanticGateExactly(rows, policy, task, task.projectRoot, assertion, id);
  }

  lemma MemoryShape(rows: seq<Claim>, strong: seq<nat>, m: Claim, task: Task, assertion: Assertion, id: string)
    requires Within(rows, strong) && Remembers(rows, strong, m, task, assertion, id) && task.projectRoot != ""
    ensures m.id == id && m.tier == SEMANTIC && m.projectRoot == task.projectRoot && m.assertions == [assertion]
    ensures KeyOf(m) == Normalize(assertion.key) && ValueAsserted(m) == Normalize(assertion.value)
    ensures IsMean(m.confidence, rows, strong)
    ensures forall i | i in strong :: rows[i].id in m.sourceClaimIds
  {
    hide Normalize, IsMean, NoTwoEqual;
    forall i | i in strong ensures rows[i].id in m.sourceClaimIds {
      var k :| 0 <= k < |strong| && strong[k] == i;
      assert IdsAt(rows, strong)[k] == rows[i].id;
    }
  }

  lemma NewMemoryIsSupported(rows: seq<Claim>, policy: Policy, task: Task, assertion: Assertion, m: Claim, id: string)
    requires Opens(rows, policy, task, task.projectRoot, assertion) && task.projectRoot != ""
    requires var strong := StrongPlaces(rows, policy, task.projectRoot, assertion);
             strong != [] && Remembers(rows, strong, m, task, assertion, id)
    ensures SemanticOk(rows + [m], policy, m)
  {
    var strong := StrongPlaces(rows, policy, task.projectRoot, assertion);
    var more := rows + [m];
    MemoryShape(rows, strong, m, task, assertion, id);
    forall i | i in strong ensures Backs(policy, m, rows[i]) {
      hide Normalize, Says;
      assert IsStrong(rows[i], policy, task.projectRoot, Normalize(assertion.key), Normalize(assertion.value));
    }
    assert AreBacking(rows, policy, m, strong) by {
      hide Normalize, Remembers, Backs, Tasks;
    }
    hide Opens, Remembers, StrongPlaces, AreBacking, IsMean, Backs;
    assert Continues(rows, more);
    BackingStays(rows, more, policy, m, m, strong);
  }

  lemma EpisodeHasOneValue(e: Claim, key: string, v: string, w: string)
    requires OneValuePerKey(e) && Says(e, key, v) && v != w
    ensures !Says(e, key, w) && Mentions(e, key)
  {
    hide Normalize;
  }

  /** A CURRENT memory with another value lost a source, or the new one would have been contradicted. */
  lemma OlderRivalLostASource(rows: seq<Claim>, policy: Policy, task: Task, assertion: Assertion, older: Claim)
    requires forall i | 0 <= i < |rows| && rows[i].tier == EPISODIC :: OneValuePerKey(rows[i])
    requires older in rows && older.tier == SEMANTIC && !IsStale(older) && SemanticOk(rows, policy, older)
    requires older.projectRoot == task.projectRoot && KeyOf(older) == Normalize(assertion.key)
    requires Opens(rows, policy, task, task.projectRoot, assertion)
    ensures HasStaleSource(rows, older)
  {
    var key, value := Normalize(assertion.key), Normalize(assertion.value);
    hide Normalize, IsMean, Tasks, StrongPlaces;
    assert older.assertions[0] in older.assertions;
    assert !IsKnown(older, task.projectRoot, key, value);
    assert ValueAsserted(older) != value;
    var places :| AreBacking(rows, policy, older, places);
    assert places[0] in places;
    var e := rows[places[0]];
    EpisodeHasOneValue(e, key, ValueAsserted(older), value);
    assert !Objects(e, task.projectRoot, key, value);
    assert IsStaleId(rows, e.id);
  }

  lemma NewSemanticPairOk(rows: seq<Claim>, policy: Policy, task: Task, assertion: Assertion, s: Claim, older: Claim)
    requires Inv(rows, policy) && older in rows && Opens(rows, policy, task, task.projectRoot, assertion)
    requires s.tier == SEMANTIC && s.projectRoot == task.projectRoot && KeyOf(s) == Normalize(assertion.key)
    ensures PairOk(rows + [s], older, s, SEMANTIC)
  {
    hide Inv, Normalize, Opens, SemanticOk, ProcedureOk, HasStaleSource, OneValuePerKey, KeyOf;
    EpisodesAreSingleValued(rows, policy);
    RowIsOk(rows, policy, older);
    assert Continues(rows, rows + [s]) && StaysStale(rows, rows + [s]);
    if Rivals(older, s, SEMANTIC) {
      OlderRivalLostASource(rows, policy, task, assertion, older);
      StaleSourceStays(rows, rows + [s], older, older);
    }
  }

  lemma NewSemanticKeepsRivals(rows: seq<Claim>, policy: Policy, task: Task, assertion: Assertion, s: Claim, tier: Tier)
    requires Inv(rows, policy) && NoRivals(rows, tier) && Opens(rows, policy, task, task.projectRoot, assertion)
    requires s.tier == SEMANTIC && s.projectRoot == task.projectRoot && KeyOf(s) == Normalize(assertion.key)
    ensures NoRivals(rows + [s], tier)
  {
    hide Inv, NoRivals, Normalize, Opens, PairOk, KeyOf;
    if tier == SEMANTIC {
      forall i | 0 <= i < |rows| ensures PairOk(rows + [s], rows[i], s, SEMANTIC) {
        NewSemanticPairOk(rows, policy, task, assertion, s, rows[i]);
      }
      AppendedRowKeepsRivals(rows, s, tier);
    } else {
      OtherTierKeepsRivals(rows, s, tier);
    }
  }

  lemma RowIsOk(rows: seq<Claim>, policy: Policy, row: Claim)
    requires Inv(rows, policy) && row in rows
    ensures RowOk(rows, policy, row)
  {
    hide RowOk;
  }

  lemma EpisodesAreSingleValued(rows: seq<Claim>, policy: Policy)
    requires Inv(rows, policy)
    ensures forall i | 0 <= i < |rows| && rows[i].tier == EPISODIC :: OneValuePerKey(rows[i])
  {
    hide OneValuePerKey, SemanticOk, ProcedureOk;
    forall i | 0 <= i < |rows| && rows[i].tier == EPISODIC ensures OneValuePerKey(rows[i]) {
      assert RowOk(rows, policy, rows[i]);
    }
  }

  lemma PromotionKeepsRows(rows: seq<Claim>, ids: seq<string>, target: string)
    ensures SameRows(rows, Promoted(rows, ids, target)) && StaysStale(rows, Promoted(rows, ids, target))
  {
  }

  lemma ExtensionKeepsRows(rows: seq<Claim>, now: seq<Claim>, places: seq<nat>, id: string)
    requires Promotes(rows, now, places, id)
    ensures SameRows(rows + [now[|rows|]], now) && StaysStale(rows + [now[|rows|]], now)
  {
  }

  lemma EvaluateAssertionKeepsInv(rows: seq<Claim>, policy: Policy, task: Task, assertion: Assertion, id: string)
    requires Inv(rows, policy) && task.projectRoot != "" && IsFresh(rows, id)
    ensures Inv(EvaluateAssertion(rows, policy, task, task.projectRoot, assertion, id).rows, policy)
  {
    assert DistinctClaimIds(rows);
    hide Normalize, Inv, Promotes, Remembers, Opens, StrongPlaces, EvaluateAssertion, SemanticOk, DistinctClaimIds;
    EvaluationIs(rows, policy, task, assertion, id);
    var now := EvaluateAssertion(rows, policy, task, task.projectRoot, assertion, id).rows;
    if now != rows {
      var strong := StrongPlaces(rows, policy, task.projectRoot, assertion);
      var m := now[|rows|];
      MemoryShape(rows, strong, m, task, assertion, id);
      NewMemoryIsSupported(rows, policy, task, assertion, m, id);
      assert RowOk(rows + [m], policy, m);
      AppendedRowKeepsInv(rows, m, policy);
      ExtensionKeepsRows(rows, now, strong, id);
      SameRowsKeepInv(rows + [m], now, policy);
    }
  }

  lemma EvaluateAssertionKeepsRivals(rows: seq<Claim>, policy: Policy, task: Task, assertion: Assertion, id: string,
                                     tier: Tier)
    requires Inv(rows, policy) && NoRivals(rows, tier) && task.projectRoot != "" && IsFresh(rows, id)
    ensures NoRivals(EvaluateAssertion(rows, policy, task, task.projectRoot, assertion, id).rows, tier)
  {
    assert DistinctClaimIds(rows);
    hide Normalize, Inv, NoRivals, Promotes, Remembers, Opens, StrongPlaces, EvaluateAssertion, DistinctClaimIds;
    EvaluationIs(rows, policy, task, assertion, id);
    var now := EvaluateAssertion(rows, policy, task, task.projectRoot, assertion, id).rows;
    if now != rows {
      var strong := StrongPlaces(rows, policy, task.projectRoot, assertion);
      MemoryShape(rows, strong, now[|rows|], task, assertion, id);
      NewSemanticKeepsRivals(rows, policy, task, assertion, now[|rows|], tier);
      ExtensionKeepsRows(rows, now, strong, id);
      SameRowsKeepRivals(rows + [now[|rows|]], now, tier);
    }
  }

  lemma {:induction false} EvaluateAssertionsKeepInv(rows: seq<Claim>, policy: Policy, task: Task, trigger: Claim,
                                                     ids: seq<string>, n: nat)
    requires Inv(rows, policy)
    requires task.projectRoot == trigger.projectRoot != "" && n <= |trigger.assertions| <= |ids|
    requires forall k | 0 <= k < |ids| :: IsFresh(rows, ids[k])
    requires forall k, l | 0 <= k < l < |ids| :: ids[k] != ids[l]
    ensures var e := EvaluateAssertions(rows, policy, task, trigger, ids, n);
            Inv(e.rows, policy) && forall k | n <= k < |ids| :: IsFresh(e.rows, ids[k])
  {
    hide Inv, EvaluateAssertion;
    if n > 0 {
      EvaluateAssertionsKeepInv(rows, policy, task, trigger, ids, n - 1);
      var before := EvaluateAssertions(rows, policy, task, trigger, ids, n - 1);
      EvaluateAssertionKeepsInv(before.rows, policy, task, trigger.assertions[n - 1], ids[n - 1]);
      forall k | n <= k < |ids| ensures IsFresh(EvaluateAssertions(rows, policy, task, trigger, ids, n).rows, ids[k]) {
        EvaluationAddsOnlyItsId(before.rows, policy, task, trigger.projectRoot, trigger.assertions[n - 1], ids[n - 1],
                                ids[k]);
      }
    }
  }

  lemma {:induction false} EvaluateAssertionsKeepRivals(
      rows: seq<Claim>, policy: Policy, task: Task, trigger: Claim, ids: seq<string>, n: nat, tier: Tier)
    requires Inv(rows, policy) && NoRivals(rows, tier)
    requires task.projectRoot == trigger.projectRoot != "" && n <= |trigger.assertions| <= |ids|
    requires forall k | 0 <= k < |ids| :: IsFresh(rows, ids[k])
    requires forall k, l | 0 <= k < l < |ids| :: ids[k] != ids[l]
    ensures NoRivals(EvaluateAssertions(rows, policy, task, trigger, ids, n).rows, tier)
  {
    hide Inv, NoRivals, EvaluateAssertion;
    if n > 0 {
      EvaluateAssertionsKeepRivals(rows, policy, task, trigger, ids, n - 1, tier);
      EvaluateAssertionsKeepInv(rows, policy, task, trigger, ids, n - 1);
      var before := EvaluateAssertions(rows, policy, task, trigger, ids, n - 1);
      EvaluateAssertionKeepsRivals(before.rows, policy, task, trigger.assertions[n - 1], ids[n - 1], tier);
    }
  }

  lemma EvaluationAddsOnlyItsId(rows: seq<Claim>, policy: Policy, task: Task, root: string, assertion: Assertion,
                                id: string, other: string)
    requires IsFresh(rows, other) && other != id
    ensures IsFresh(EvaluateAssertion(rows, policy, task, root, assertion, id).rows, other)
  {
    var candidates := Candidates(rows, root, Normalize(assertion.key));
    var decision := SemanticDecision(rows, policy, task, assertion, candidates);
    var accepted := AcceptedOf(candidates, decision);
    hide SemanticDecision, Candidates, Normalize, NewSemantic;
    if accepted != [] {
      NewSemanticHasId(task, assertion, accepted, id);
    }
  }

  lemma NewSemanticHasId(task: Task, assertion: Assertion, accepted: seq<Claim>, id: string)
    requires accepted != []
    ensures NewSemantic(task, assertion, accepted, id).id == id
  {
  }

  // ----- new procedure -----

  lemma NewProcedureShape(task: Task, s: Claim, id: string)
    requires task.projectRoot != "" && |s.assertions| == 1
    ensures var p := NewProcedure(task, s, id);
            && p.id == id && p.tier == PROCEDURAL && p.projectRoot == task.projectRoot && p.assertions == s.assertions
            && KeyOf(p) == Normalize(LeadAssertion(s).key) && s.id in p.sourceClaimIds && p.confidence == s.confidence
  {
    hide Normalize;
    DeduplicatedKeeps([s.id] + task.sourceClaimIds);
    assert s.id in [s.id] + task.sourceClaimIds && [s.assertions[0]] == s.assertions;
  }

  lemma NewProcedureKeepsInv(rows: seq<Claim>, policy: Policy, task: Task, index: nat, id: string)
    requires Inv(rows, policy) && index < |rows| && rows[index].tier == SEMANTIC && IsFresh(rows, id)
    requires task.projectRoot == rows[index].projectRoot != ""
    requires ProceduralReason(rows, policy, rows[index]) == Accepted
    ensures Inv(rows + [NewProcedure(task, rows[index], id)], policy)
  {
    hide Normalize, AreBacking, IsMean, NewProcedure;
    var s := rows[index];
    assert RowOk(rows, policy, s);
    var p := NewProcedure(task, s, id);
    var now := rows + [p];
    NewProcedureShape(task, s, id);
    assert now[index] == s && Founds(policy, p, s) && ProcedureOk(now, policy, p);
    AppendedRowKeepsInv(rows, p, policy);
  }

  lemma NewProcedureKeepsRivals(rows: seq<Claim>, policy: Policy, task: Task, index: nat, id: string, tier: Tier)
    requires Inv(rows, policy) && NoRivals(rows, tier) && index < |rows| && rows[index].tier == SEMANTIC
    requires task.projectRoot == rows[index].projectRoot != ""
    requires ProceduralReason(rows, policy, rows[index]) == Accepted
    ensures NoRivals(rows + [NewProcedure(task, rows[index], id)], tier)
  {
    hide Normalize, AreBacking, IsMean, NewProcedure, NoRivals;
    var s := rows[index];
    assert RowOk(rows, policy, s);
    var p := NewProcedure(task, s, id);
    NewProcedureShape(task, s, id);
    if tier == PROCEDURAL {
      forall i | 0 <= i < |rows| ensures PairOk(rows + [p], rows[i], p, tier) {
        assert RowOk(rows, policy, rows[i]);
        assert rows[i] !in Known(rows, PROCEDURAL, s.projectRoot, KeyOf(p), None);
        assert rows[i].tier == PROCEDURAL ==> Asserts(rows[i], KeyOf(rows[i]));
      }
      AppendedRowKeepsRivals(rows, p, tier);
    } else {
      OtherTierKeepsRivals(rows, p, tier);
    }
  }

  // ----- every step, every run -----

  lemma SynchronizeKeepsRows(was: seq<Claim>, now: seq<Claim>, projectState: string)
    requires Synchronized(was, now, projectState)
    ensures SameRows(was, now) && StaysStale(was, now)
  {
    hide Tainted, StaleSources, Settled;
    forall i | 0 <= i < |was| ensures SameCore(was[i], now[i]) && (IsStale(was[i]) ==> IsStale(now[i])) {
      assert RowMoved(was[i], now[i], projectState, Tainted(was, i));
    }
  }

  lemma SweepKeepsRows(was: seq<Claim>, verdicts: map<string, Verdict>, projectState: string)
    ensures SameRows(was, Revalidated(was, verdicts, projectState))
    ensures !Revives(was, Revalidate(verdicts, projectState)) ==>
              StaysStale(was, Revalidated(was, verdicts, projectState))
  {
    var now := Revalidated(was, verdicts, projectState);
    forall i | 0 <= i < |was| && !Revives(was, Revalidate(verdicts, projectState)) && IsStale(was[i])
      ensures IsStale(now[i])
    {
      assert was[i].id in verdicts ==> !verdicts[was[i].id].valid;
    }
  }

  lemma StepKeepsInv(policy: Policy, was: seq<Claim>, now: seq<Claim>, step: Step)
    requires Inv(was, policy) && Next(policy, was, now, step)
    ensures Inv(now, policy)
  {
    hide Inv, Synchronized, EvaluateAssertions, Promoted, NewProcedure, ProceduralReason;
    match step
    case SaveEpisode(task, claim) =>
      SavedEpisodeKeepsInv(policy, was, task, claim);
    case Revalidate(verdicts, projectState) =>
      SweepKeepsRows(was, verdicts, projectState);
      SameRowsKeepInv(was, now, policy);
    case Supersede(_, _, _) =>
      assert SameRows(was, now);
      SameRowsKeepInv(was, now, policy);
    case Reuse(_) =>
      assert SameRows(was, now);
      SameRowsKeepInv(was, now, policy);
    case EvaluateEpisodes(task, trigger, ids) =>
      EvaluateAssertionsKeepInv(was, policy, task, trigger, ids, |trigger.assertions|);
    case EvaluateProcedure(task, index, id) =>
      if ProceduralReason(was, policy, was[index]) == Accepted {
        NewProcedureKeepsInv(was, policy, task, index, id);
        var more := was + [NewProcedure(task, was[index], id)];
        PromotionKeepsRows(more, [was[index].id], id);
        SameRowsKeepInv(more, now, policy);
      }
    case Synchronize(projectState) =>
      SynchronizeKeepsRows(was, now, projectState);
      SameRowsKeepInv(was, now, policy);
  }

  lemma StepKeepsRivals(policy: Policy, was: seq<Claim>, now: seq<Claim>, step: Step, tier: Tier)
    requires tier in {SEMANTIC, PROCEDURAL}
    requires Inv(was, policy) && NoRivals(was, tier) && Next(policy, was, now, step) && !Revives(was, step)
    ensures NoRivals(now, tier)
  {
    hide Inv, NoRivals, Synchronized, EvaluateAssertions, Promoted, NewProcedure, ProceduralReason;
    match step
    case SaveEpisode(task, claim) =>
      SavedEpisodeShape(task, claim);
      OtherTierKeepsRivals(was, WithProvenance(task, claim), tier);
    case Revalidate(verdicts, projectState) =>
      SweepKeepsRows(was, verdicts, projectState);
      SameRowsKeepRivals(was, now, tier);
    case Supersede(_, _, _) =>
      assert SameRows(was, now) && StaysStale(was, now);
      SameRowsKeepRivals(was, now, tier);
    case Reuse(_) =>
      assert SameRows(was, now) && StaysStale(was, now);
      SameRowsKeepRivals(was, now, tier);
    case EvaluateEpisodes(task, trigger, ids) =>
      EvaluateAssertionsKeepRivals(was, policy, task, trigger, ids, |trigger.assertions|, tier);
    case EvaluateProcedure(task, index, id) =>
      if ProceduralReason(was, policy, was[index]) == Accepted {
        NewProcedureKeepsRivals(was, policy, task, index, id, tier);
        var more := was + [NewProcedure(task, was[index], id)];
        PromotionKeepsRows(more, [was[index].id], id);
        SameRowsKeepRivals(more, now, tier);
      }
    case Synchronize(projectState) =>
      SynchronizeKeepsRows(was, now, projectState);
      SameRowsKeepRivals(was, now, tier);
  }

  lemma SavedEpisodeKeepsInv(policy: Policy, was: seq<Claim>, task: Task, claim: Claim)
    requires Inv(was, policy) && IsFresh(was, claim.id) && claim.tier in {WORKING, EPISODIC} && OneValuePerKey(claim)
    ensures Inv(was + [WithProvenance(task, claim)], policy)
  {
    hide Inv, WithProvenance, OneValuePerKey, RowOk;
    var e := WithProvenance(task, claim);
    SavedEpisodeShape(task, claim);
    EpisodeIsOk(was + [e], policy, e);
    AppendedRowKeepsInv(was, e, policy);
  }

  lemma EpisodeIsOk(rows: seq<Claim>, policy: Policy, e: Claim)
    requires e.tier == EPISODIC && OneValuePerKey(e)
    ensures RowOk(rows, policy, e)
  {
  }

  lemma SavedEpisodeShape(task: Task, claim: Claim)
    requires claim.tier in {WORKING, EPISODIC} && OneValuePerKey(claim)
    ensures var e := WithProvenance(task, claim); e.tier == EPISODIC && e.id == claim.id && OneValuePerKey(e)
  {
    hide Normalize;
  }

  /** Every run, whatever it revives. */
  lemma {:induction false} RunKeepsInv(policy: Policy, states: seq<seq<Claim>>, steps: seq<Step>, k: nat)
    requires IsRun(policy, states, steps) && k < |states|
    ensures Inv(states[k], policy)
  {
    hide Next;
    if k > 0 {
      RunKeepsInv(policy, states, steps, k - 1);
      StepKeepsInv(policy, states[k - 1], states[k], steps[k - 1]);
    }
  }

  /** Every run in which nothing stale becomes CURRENT again. */
  lemma {:induction false} SteadyRunKeepsRivals(policy: Policy, states: seq<seq<Claim>>, steps: seq<Step>, k: nat,
                                                tier: Tier)
    requires tier in {SEMANTIC, PROCEDURAL} && IsSteadyRun(policy, states, steps) && k < |states|
    ensures NoRivals(states[k], tier)
  {
    hide Next, Inv;
    if k > 0 {
      SteadyRunKeepsRivals(policy, states, steps, k - 1, tier);
      RunKeepsInv(policy, states, steps, k - 1);
      hide NoRivals;
      StepKeepsRivals(policy, states[k - 1], states[k], steps[k - 1], tier);
    }
  }

  // ----- main results -----

  lemma SettledHasNoStaleSource(rows: seq<Claim>, i: nat)
    requires Settled(rows) && i < |rows| && IsDerived(rows[i]) && !IsStale(rows[i])
    ensures !HasStaleSource(rows, rows[i])
  {
    assert SettledAt(rows, i);
  }

  /**
   In every synchronized state of a run that makes nothing stale CURRENT again, one root and key
   have at most one CURRENT semantic memory, so no two CURRENT semantic memories disagree.
   */
  lemma AtMostOneCurrentSemanticMemory(policy: Policy, states: seq<seq<Claim>>, steps: seq<Step>, k: nat, i: nat,
                                       j: nat)
    requires IsSteadyRun(policy, states, steps)
    requires k < |steps| && steps[k].Synchronize?
    requires i < j < |states[k + 1]|
    ensures !Rivals(states[k + 1][i], states[k + 1][j], SEMANTIC)
  {
    hide Normalize;
    var rows := states[k + 1];
    SteadyRunKeepsRivals(policy, states, steps, k + 1, SEMANTIC);
    assert Next(policy, states[k], rows, steps[k]);
    assert PairOk(rows, rows[i], rows[j], SEMANTIC);
    if Rivals(rows[i], rows[j], SEMANTIC) {
      SettledHasNoStaleSource(rows, i);
      SettledHasNoStaleSource(rows, j);
    }
  }

  /** In such a run, at any time, synchronized or not, one root and key have at most one CURRENT procedure. */
  lemma AtMostOneCurrentProcedure(policy: Policy, states: seq<seq<Claim>>, steps: seq<Step>, k: nat, i: nat, j: nat)
    requires IsSteadyRun(policy, states, steps)
    requires k < |states| && i < j < |states[k]|
    ensures !Rivals(states[k][i], states[k][j], PROCEDURAL)
  {
    hide Normalize, Next;
    SteadyRunKeepsRivals(policy, states, steps, k, PROCEDURAL);
    assert PairOk(states[k], states[k][i], states[k][j], PROCEDURAL);
  }

  lemma BackingIsCurrent(rows: seq<Claim>, policy: Policy, s: nat, places: seq<nat>)
    requires Settled(rows) && s < |rows| && rows[s].tier == SEMANTIC && !IsStale(rows[s])
    requires AreBacking(rows, policy, rows[s], places)
    ensures forall i | i in places :: !IsStale(rows[i])
  {
    hide Normalize, Settled, Tasks;
    SettledHasNoStaleSource(rows, s);
    forall i | i in places ensures !IsStale(rows[i]) {
      assert Backs(policy, rows[s], rows[i]);
      assert !IsStaleId(rows, rows[i].id);
    }
  }

  /**
   In every synchronized state of every run, revivals included, a CURRENT procedure has a CURRENT
   semantic source for the same root and assertion, good enough for promotion, made of different
   CURRENT confident episodes from at least the policy minimum of distinct tasks. The confidence of
   the procedure is the mean of theirs.
   */
  lemma CurrentProcedureIsGrounded(policy: Policy, states: seq<seq<Claim>>, steps: seq<Step>, k: nat, p: nat)
    returns (s: nat, places: seq<nat>)
    requires IsRun(policy, states, steps)
    requires k < |steps| && steps[k].Synchronize?
    requires p < |states[k + 1]| && states[k + 1][p].tier == PROCEDURAL && !IsStale(states[k + 1][p])
    ensures var rows := states[k + 1];
            && s < |rows| && !IsStale(rows[s]) && Founds(policy, rows[p], rows[s])
            && AreBacking(rows, policy, rows[s], places) && (forall i | i in places :: !IsStale(rows[i]))
            && rows[p].confidence * |places| as real == Confidences(rows, places)
  {
    hide Normalize, AreBacking, IsMean, Founds, Settled;
    var rows := states[k + 1];
    RunKeepsInv(policy, states, steps, k + 1);
    assert Next(policy, states[k], rows, steps[k]);
    assert RowOk(rows, policy, rows[p]);
    SettledHasNoStaleSource(rows, p);
    s := FoundingSource(rows, policy, p);
    places :| AreBacking(rows, policy, rows[s], places) && IsMean(rows[s].confidence, rows, places);
    BackingIsCurrent(rows, policy, s, places);
    MeanMeans(policy, rows, rows[p], rows[s], places);
  }

  lemma FoundingSource(rows: seq<Claim>, policy: Policy, p: nat) returns (s: nat)
    requires Inv(rows, policy) && p < |rows| && ProcedureOk(rows, policy, rows[p]) && !HasStaleSource(rows, rows[p])
    ensures s < |rows| && !IsStale(rows[s]) && rows[s].tier == SEMANTIC && Founds(policy, rows[p], rows[s])
    ensures SemanticOk(rows, policy, rows[s])
  {
    hide Normalize, SemanticOk;
    s :| s < |rows| && Founds(policy, rows[p], rows[s]);
    assert !IsStaleId(rows, rows[s].id);
    assert RowOk(rows, policy, rows[s]);
  }

  lemma MeanMeans(policy: Policy, rows: seq<Claim>, procedure: Claim, semantic: Claim, places: seq<nat>)
    requires Founds(policy, procedure, semantic) && IsMean(semantic.confidence, rows, places)
    ensures Within(rows, places)
    ensures procedure.confidence * |places| as real == Confidences(rows, places)
  {
    hide Confidences;
  }

  /** In every run a semantic memory's confidence is the mean of those of the episodes that back it. */
  lemma MemoryIsTheMean(policy: Policy, states: seq<seq<Claim>>, steps: seq<Step>, k: nat, s: nat)
    returns (places: seq<nat>)
    requires IsRun(policy, states, steps) && k < |states|
    requires s < |states[k]| && states[k][s].tier == SEMANTIC
    ensures AreBacking(states[k], policy, states[k][s], places)
    ensures states[k][s].confidence * |places| as real == Confidences(states[k], places)
  {
    hide Normalize, Next, Inv, AreBacking, Confidences;
    RunKeepsInv(policy, states, steps, k);
    RowIsOk(states[k], policy, states[k][s]);
    places :| AreBacking(states[k], policy, states[k][s], places)
              && IsMean(states[k][s].confidence, states[k], places);
  }

  /**
   In every run memories and procedures are no more and no less confident than episodes are, and at
   least as confident as the policy asks of an episode.
   */
  lemma ConfidenceStaysInRange(policy: Policy, states: seq<seq<Claim>>, steps: seq<Step>, k: nat, m: nat, low: real,
                               high: real)
    requires IsRun(policy, states, steps) && k < |states|
    requires m < |states[k]| && states[k][m].tier in {SEMANTIC, PROCEDURAL}
    requires forall i | 0 <= i < |states[k]| && states[k][i].tier == EPISODIC :: low <= states[k][i].confidence <= high
    ensures low <= states[k][m].confidence <= high
    ensures states[k][m].confidence >= policy.semanticMinimumConfidence
  {
    hide Normalize, Next, Inv, AreBacking;
    var rows, s := states[k], m;
    if rows[m].tier == PROCEDURAL {
      RunKeepsInv(policy, states, steps, k);
      RowIsOk(rows, policy, rows[m]);
      s :| 0 <= s < |rows| && Founds(policy, rows[m], rows[s]);
    }
    var places := MemoryIsTheMean(policy, states, steps, k, s);
    BackingIsConfident(rows, policy, rows[s], places);
    MeanIsBetween(rows, places, rows[s].confidence, low, high);
    MeanIsBetween(rows, places, rows[s].confidence, policy.semanticMinimumConfidence, high);
  }

  lemma BackingIsConfident(rows: seq<Claim>, policy: Policy, memory: Claim, places: seq<nat>)
    requires AreBacking(rows, policy, memory, places)
    ensures Within(rows, places) && places != []
    ensures forall i | i in places ::
              rows[i].tier == EPISODIC && rows[i].confidence >= policy.semanticMinimumConfidence
  {
    hide Normalize, Says;
    assert forall i | i in places :: Backs(policy, memory, rows[i]);
  }

  lemma MeanIsBetween(rows: seq<Claim>, places: seq<nat>, mean: real, low: real, high: real)
    requires Within(rows, places) && places != [] && IsMean(mean, rows, places)
    requires forall i | i in places :: low <= rows[i].confidence <= high
    ensures low <= mean <= high
  {
    hide Confidences;
    SumIsBetween(rows, places, low, high);
    Divided(low, mean, |places|);
    Divided(mean, high, |places|);
  }

  lemma Divided(x: real, y: real, n: nat)
    requires n > 0 && x * n as real <= y * n as real
    ensures x <= y
  {
  }
}
