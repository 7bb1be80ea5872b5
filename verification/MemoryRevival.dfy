/**
 The limit of the uniqueness guarantee. A sweep may find that the files of a stale claim match
 once more and make it CURRENT again. This module shows a run in which that leaves two CURRENT
 semantic memories that disagree, and says, for every run, exactly when it leaves two.
 */
module MemoryRevival {
  import opened Lists
  import opened Wrappers
  import opened Normalization
  import opened GraphData
  import opened DependencyValidity
  import opened Consolidation
  import opened Provenance
  import opened MemorySafety

  /** Ids stay distinct in every run, reviving ones too. */
  lemma RunKeepsIds(policy: Policy, states: seq<seq<Claim>>, steps: seq<Step>, k: nat)
    requires IsRun(policy, states, steps) && k < |states|
    ensures DistinctClaimIds(states[k])
  {
    RunKeepsInv(policy, states, steps, k);
    hide RowOk;
  }

  lemma AppendedIdIsDistinct(rows: seq<Claim>, row: Claim)
    requires DistinctClaimIds(rows) && IsFresh(rows, row.id)
    ensures DistinctClaimIds(rows + [row])
  {
  }

  // ----- what a memory leads to -----

  /** A chain of `n` derivations leads from claim `i` to claim `l`. */
  ghost predicate Chain(claims: seq<Claim>, i: int, l: int, n: nat)
    decreases n
  {
    && 0 <= i < |claims| && 0 <= l < |claims|
    && if n == 0 then i == l else exists j :: DependsOn(claims, i, j) && Chain(claims, j, l, n - 1)
  }

  ghost predicate LeadsTo(claims: seq<Claim>, i: int, l: int) {
    exists n: nat :: Chain(claims, i, l, n)
  }

  lemma {:induction false} ChainReaches(claims: seq<Claim>, i: int, l: int, n: nat)
    requires Chain(claims, i, l, n) && IsStale(claims[l])
    ensures Reaches(claims, i, n)
    decreases n
  {
    if n > 0 {
      var j :| DependsOn(claims, i, j) && Chain(claims, j, l, n - 1);
      ChainReaches(claims, j, l, n - 1);
    }
  }

  lemma {:induction false} ReachesChain(claims: seq<Claim>, i: int, n: nat) returns (l: int)
    requires Reaches(claims, i, n)
    ensures Chain(claims, i, l, n) && IsStale(claims[l])
    decreases n
  {
    if n == 0 {
      l := i;
    } else {
      var j :| DependsOn(claims, i, j) && Reaches(claims, j, n - 1);
      l := ReachesChain(claims, j, n - 1);
    }
  }

  /** Tainted means: it leads to a stale claim. */
  lemma TaintedLeadsToStale(claims: seq<Claim>, i: int)
    ensures Tainted(claims, i) <==> exists l :: LeadsTo(claims, i, l) && IsStale(claims[l])
  {
    if Tainted(claims, i) {
      var n: nat :| Reaches(claims, i, n);
      var l := ReachesChain(claims, i, n);
      assert LeadsTo(claims, i, l);
    }
    if l :| LeadsTo(claims, i, l) && IsStale(claims[l]) {
      var n: nat :| Chain(claims, i, l, n);
      ChainReaches(claims, i, l, n);
    }
  }

  lemma {:induction false} SameChains(a: seq<Claim>, b: seq<Claim>, i: int, l: int, n: nat)
    requires |a| == |b|
    requires forall k | 0 <= k < |a| ::
               b[k].id == a[k].id && b[k].tier == a[k].tier && b[k].sourceClaimIds == a[k].sourceClaimIds
    requires Chain(a, i, l, n)
    ensures Chain(b, i, l, n)
    decreases n
  {
    if n > 0 {
      var j :| DependsOn(a, i, j) && Chain(a, j, l, n - 1);
      assert DependsOn(b, i, j);
      SameChains(a, b, j, l, n - 1);
    }
  }

  /** A sweep changes no derivation. */
  lemma RevalidationKeepsDerivations(was: seq<Claim>, verdicts: map<string, Verdict>, projectState: string, i: int,
                                     l: int)
    ensures LeadsTo(Revalidated(was, verdicts, projectState), i, l) <==> LeadsTo(was, i, l)
  {
    var now := Revalidated(was, verdicts, projectState);
    if LeadsTo(was, i, l) {
      var n: nat :| Chain(was, i, l, n);
      SameChains(was, now, i, l, n);
    }
    if LeadsTo(now, i, l) {
      var n: nat :| Chain(now, i, l, n);
      SameChains(now, was, i, l, n);
    }
  }

  // ----- exactly when a revival leaves rivals -----

  /** If the claim is stale the sweep revives it, and if it is not the sweep does not refute it. */
  predicate Stands(claim: Claim, verdicts: map<string, Verdict>) {
    if claim.id in verdicts then verdicts[claim.id].valid else !IsStale(claim)
  }

  lemma StandsMeansCurrent(was: seq<Claim>, verdicts: map<string, Verdict>, projectState: string, l: nat)
    requires l < |was|
    ensures IsStale(Revalidated(was, verdicts, projectState)[l]) <==> !Stands(was[l], verdicts)
  {
  }

  /**
   In every run, earlier revivals included: after a sweep and a synchronization two claims are
   CURRENT memories of one tier, root and key exactly when they are memories of one tier, root and
   key, and every claim either leads to was revived by the sweep if it was stale, and not refuted
   if it was not. This holds of semantic memories, of procedures, and of any other tier.
   */
  lemma RivalsExactlyWhenRevived(policy: Policy, states: seq<seq<Claim>>, steps: seq<Step>, k: nat, i: nat, j: nat,
                                 tier: Tier)
    requires IsRun(policy, states, steps) && k + 1 < |steps| && steps[k].Revalidate? && steps[k + 1].Synchronize?
    requires i < |states[k]| && j < |states[k]|
    ensures |states[k + 2]| == |states[k]|
    ensures var was, verdicts := states[k], steps[k].verdicts;
            Rivals(states[k + 2][i], states[k + 2][j], tier) <==>
              && was[i].tier == tier && was[j].tier == tier
              && was[i].projectRoot == was[j].projectRoot && KeyOf(was[i]) == KeyOf(was[j])
              && forall l :: LeadsTo(was, i, l) || LeadsTo(was, j, l) ==> Stands(was[l], verdicts)
  {
    hide Normalize, Synchronized, Tainted, DistinctClaimIds, Stands;
    var was, verdicts := states[k], steps[k].verdicts;
    RunKeepsIds(policy, states, steps, k + 1);
    assert Next(policy, states[k], states[k + 1], steps[k]) && Next(policy, states[k + 1], states[k + 2], steps[k + 1]);
    SynchronizeKeepsRows(states[k + 1], states[k + 2], steps[k + 1].projectState);
    assert SameCore(states[k + 1][i], states[k + 2][i]) && SameCore(states[k + 1][j], states[k + 2][j]);
    StandsExactly(was, states[k + 2], verdicts, steps[k].projectState, steps[k + 1].projectState, i);
    StandsExactly(was, states[k + 2], verdicts, steps[k].projectState, steps[k + 1].projectState, j);
    hide LeadsTo;
  }

  lemma StandsExactly(was: seq<Claim>, now: seq<Claim>, verdicts: map<string, Verdict>, s: string, s': string, i: nat)
    requires i < |was| && DistinctClaimIds(Revalidated(was, verdicts, s))
    requires Synchronized(Revalidated(was, verdicts, s), now, s')
    ensures |now| == |was|
    ensures !IsStale(now[i]) <==> forall l :: LeadsTo(was, i, l) ==> Stands(was[l], verdicts)
  {
    var swept := Revalidated(was, verdicts, s);
    StaleExactlyWhenTainted(swept, now, s', i);
    TaintedLeadsToStale(swept, i);
    forall l ensures LeadsTo(swept, i, l) <==> LeadsTo(was, i, l) {
      RevalidationKeepsDerivations(was, verdicts, s, i, l);
    }
    forall l | LeadsTo(was, i, l) ensures 0 <= l < |was| && (IsStale(swept[l]) <==> !Stands(was[l], verdicts)) {
      var n: nat :| Chain(was, i, l, n);
      StandsMeansCurrent(was, verdicts, s, l);
    }
    hide LeadsTo, Tainted, Stands, Synchronized, DistinctClaimIds, Revalidated;
  }

  // ----- one episode alone -----

  /** The last row is a CURRENT, confident episode with one assertion; every other row is stale. */
  ghost predicate IsLone(rows: seq<Claim>, policy: Policy, task: Task, a: Assertion) {
    && rows != [] && DistinctClaimIds(rows) && policy.semanticMinimumEpisodes == 1
    && (forall c | c in rows[..|rows| - 1] :: IsStale(c))
    && var e := rows[|rows| - 1];
    && e.tier == EPISODIC && !IsStale(e) && e.projectRoot == task.projectRoot && e.assertions == [a]
    && e.confidence >= policy.semanticMinimumConfidence && e.sourceTaskId.Some? && e.sourceTaskId.value != ""
  }

  lemma LoneCandidate(rows: seq<Claim>, policy: Policy, task: Task, a: Assertion)
    requires IsLone(rows, policy, task, a)
    ensures var candidates := Candidates(rows, task.projectRoot, Normalize(a.key));
            && candidates != [] && candidates[|candidates| - 1] == rows[|rows| - 1]
            && (forall c | c in candidates[..|candidates| - 1] :: IsStale(c) && c.id != rows[|rows| - 1].id)
  {
    hide Normalize;
    var n, root, key := |rows| - 1, task.projectRoot, Normalize(a.key);
    var before := Candidates(rows[..n], root, key);
    assert rows[n].assertions[0] == a && Asserts(rows[n], key);
    hide Asserts, DistinctClaimIds;
    assert Candidates(rows, root, key) == before + [rows[n]];
    forall c | c in before ensures IsStale(c) && c.id != rows[n].id {
      var i :| 0 <= i < n && rows[i] == c;
    }
  }

  lemma {:induction false} NoneCurrent(claims: seq<Claim>)
    requires forall c | c in claims :: IsStale(c)
    ensures Current(claims) == []
  {
    if claims != [] {
      NoneCurrent(claims[..|claims| - 1]);
    }
  }

  lemma OneCurrent(claims: seq<Claim>)
    requires claims != [] && !IsStale(claims[|claims| - 1]) && forall c | c in claims[..|claims| - 1] :: IsStale(c)
    ensures Current(claims) == [claims[|claims| - 1]]
  {
    NoneCurrent(claims[..|claims| - 1]);
  }

  lemma {:induction false} NoneKnown(rows: seq<Claim>, tier: Tier, root: string, key: string, value: Option<string>)
    requires forall c | c in rows :: c.tier != tier || IsStale(c)
    ensures Known(rows, tier, root, key, value) == []
  {
    if rows != [] {
      NoneKnown(rows[..|rows| - 1], tier, root, key, value);
    }
  }

  lemma OneMatching(candidates: seq<Claim>, key: string, value: string, e: Claim)
    requires Current(candidates) == [e] && AssertsValue(e, key, value)
    ensures Matching(candidates, key, value) == [e] && Contradictory(candidates, key, value) == []
  {
    hide Normalize, Current, AssertsValue;
    SelectOne(e);
  }

  lemma OneStrong(policy: Policy, candidates: seq<Claim>, key: string, value: string, e: Claim)
    requires Matching(candidates, key, value) == [e] && e.confidence >= policy.semanticMinimumConfidence
    ensures Strong(policy, candidates, key, value) == [e]
  {
    hide Matching;
    SelectOne(e);
  }

  lemma LoneGates(rows: seq<Claim>, policy: Policy, task: Task, a: Assertion, candidates: seq<Claim>)
    requires IsLone(rows, policy, task, a) && Current(candidates) == [rows[|rows| - 1]]
    ensures var e := rows[|rows| - 1];
            var key, value := Normalize(a.key), Normalize(a.value);
            && Contradictory(candidates, key, value) == [] && Strong(policy, candidates, key, value) == [e]
            && TaskIds([e]) == {e.sourceTaskId.value}
  {
    hide Normalize, Current, DistinctClaimIds, Matching, Contradictory, Strong;
    var e := rows[|rows| - 1];
    var key, value := Normalize(a.key), Normalize(a.value);
    assert e.assertions[0] == a && AssertsValue(e, key, value);
    OneMatching(candidates, key, value, e);
    OneStrong(policy, candidates, key, value, e);
  }

  lemma IdsOfOne(claim: Claim)
    ensures IdsOf([claim]) == [claim.id]
  {
    assert [claim][..0] == [];
  }

  lemma LoneReason(rows: seq<Claim>, policy: Policy, task: Task, a: Assertion, candidates: seq<Claim>)
    requires IsLone(rows, policy, task, a) && candidates == Candidates(rows, task.projectRoot, Normalize(a.key))
    ensures SemanticReason(rows, policy, task, a, candidates) == Accepted
    ensures Strong(policy, candidates, Normalize(a.key), Normalize(a.value)) == [rows[|rows| - 1]]
  {
    var e := rows[|rows| - 1];
    LoneCandidate(rows, policy, task, a);
    OneCurrent(candidates);
    LoneGates(rows, policy, task, a, candidates);
    forall c | c in rows ensures c.tier != SEMANTIC || IsStale(c) {
      assert c in rows[..|rows| - 1] || c == e;
    }
    NoneKnown(rows, SEMANTIC, task.projectRoot, Normalize(a.key), Some(Normalize(a.value)));
    hide Normalize, Candidates, Contradictory, Strong, Known, Matching, Current, DistinctClaimIds, TaskIds;
  }

  lemma LoneDecision(rows: seq<Claim>, policy: Policy, task: Task, a: Assertion, candidates: seq<Claim>)
    requires IsLone(rows, policy, task, a) && candidates == Candidates(rows, task.projectRoot, Normalize(a.key))
    ensures var e, decision := rows[|rows| - 1], SemanticDecision(rows, policy, task, a, candidates);
            decision.reason == Accepted && decision.acceptedIds == [e.id]
  {
    var e := rows[|rows| - 1];
    LoneReason(rows, policy, task, a, candidates);
    IdsOfOne(e);
    hide Normalize, IsLone, Candidates, Contradictory, Strong, Matching, SemanticReason, TotalConfidence, Select, IdsOf;
  }

  lemma {:induction false} NoneAccepted(candidates: seq<Claim>, decision: Decision)
    requires forall c | c in candidates :: c.id !in decision.acceptedIds
    ensures AcceptedOf(candidates, decision) == []
  {
    if candidates != [] {
      NoneAccepted(candidates[..|candidates| - 1], decision);
    }
  }

  lemma OneAccepted(candidates: seq<Claim>, decision: Decision)
    requires candidates != [] && candidates[|candidates| - 1].id in decision.acceptedIds
    requires forall c | c in candidates[..|candidates| - 1] :: c.id !in decision.acceptedIds
    ensures AcceptedOf(candidates, decision) == [candidates[|candidates| - 1]]
  {
    NoneAccepted(candidates[..|candidates| - 1], decision);
  }

  /** A lone episode is promoted to a memory of its own. */
  lemma LoneEpisodeIsPromoted(rows: seq<Claim>, policy: Policy, task: Task, trigger: Claim, a: Assertion, id: string)
    requires IsLone(rows, policy, task, a) && trigger.projectRoot == task.projectRoot && trigger.assertions == [a]
    ensures EvaluateAssertions(rows, policy, task, trigger, [id], 1).rows ==
            Promoted(rows + [NewSemantic(task, a, [rows[|rows| - 1]], id)], [rows[|rows| - 1].id], id)
  {
    var e := rows[|rows| - 1];
    var candidates := Candidates(rows, task.projectRoot, Normalize(a.key));
    var decision := SemanticDecision(rows, policy, task, a, candidates);
    LoneCandidate(rows, policy, task, a);
    LoneDecision(rows, policy, task, a, candidates);
    OneAccepted(candidates, decision);
    IdsOfOne(e);
    hide Normalize, Candidates, NewSemantic, Promoted, SemanticDecision, IsLone;
    assert EvaluateAssertions(rows, policy, task, trigger, [id], 0) == Evaluation(rows, [], false);
  }

  // ----- a run that ends with two memories that disagree -----

  const ONE_EPISODE := Policy(1, 0.5, 1, 0.5)
  const MATCHES := Verdict(true, "Every supporting source file still matches its learned content hash.")
  const CHANGED := Verdict(false, "supporting evidence changed or disappeared: src/first.py")

  function TaskAt(id: string, projectState: string): Task {
    Task(id, "root", "root", projectState, [])
  }

  function Episode(id: string, value: string): Claim {
    Claim(id, "root", EPISODIC, CURRENT, ACTIVE, 1.0, [Assertion("k", value)], None, [], None, 0, None, true,
          Because(""), None, [])
  }

  const FIRST_SWEEP: Step := Step.Revalidate(map["e" := CHANGED, "s" := CHANGED], "p1")
  const SECOND_SWEEP: Step := Step.Revalidate(map["e" := MATCHES, "s" := MATCHES, "f" := MATCHES, "z" := MATCHES], "p2")

  /**
   The source file of an episode changes, another episode says something else, and then the
   first file is restored.
   */
  const REVIVAL_STEPS: seq<Step> := [
    SaveEpisode(TaskAt("t", "p0"), Episode("e", "a")),
    EvaluateEpisodes(TaskAt("t", "p0"), WithProvenance(TaskAt("t", "p0"), Episode("e", "a")), ["s"]),
    FIRST_SWEEP,
    Synchronize("p1"),
    SaveEpisode(TaskAt("u", "p1"), Episode("f", "b")),
    EvaluateEpisodes(TaskAt("u", "p1"), WithProvenance(TaskAt("u", "p1"), Episode("f", "b")), ["z"]),
    SECOND_SWEEP,
    Synchronize("p2")]

  /** What a memory made from one saved episode looks like. */
  ghost predicate IsPromotionOf(memory: Claim, id: string, episode: Claim, value: string) {
    && memory.id == id && memory.tier == SEMANTIC && memory.projectRoot == "root"
    && memory.assertions == [Assertion("k", value)]
    && memory.validity == CURRENT && memory.lifecycle == ACTIVE && memory.promotedTo == None
    && memory.sourceClaimIds == [episode.id] && memory.validityReason == Because(MATCHES.reason)
    && memory.supersededBy == None
  }

  lemma SavedEpisode(task: Task, id: string, value: string)
    requires task.sourceClaimIds == []
    ensures OneValuePerKey(Episode(id, value))
    ensures WithProvenance(task, Episode(id, value)) ==
            Episode(id, value).(sourceTaskId := Some(task.id), validityReason := Because(MATCHES.reason),
                                validityHistory := [ValidityEvent(CURRENT, task.projectState, Because(MATCHES.reason))])
  {
    hide Normalize;
  }

  lemma PromotedMemory(task: Task, id: string, episode: Claim, value: string)
    requires task.sourceClaimIds == [] && task.projectRoot == "root" && episode.grounded
    ensures IsPromotionOf(NewSemantic(task, Assertion("k", value), [episode], id), id, episode, value)
  {
    IdsOfOne(episode);
    DeduplicatedOne(episode.id);
    assert IdsOf([episode]) + task.sourceClaimIds == [episode.id];
    assert episode in [episode];
  }

  lemma DeduplicatedOne(x: string)
    ensures Deduplicated([x]) == [x]
  {
    assert [x][..0] == [];
  }

  lemma {:induction false} NoneStaleNoSources(claims: seq<Claim>, ids: seq<string>)
    requires forall i | 0 <= i < |claims| :: !IsStale(claims[i])
    ensures StaleSources(claims, ids) == []
  {
    if ids != [] {
      NoneStaleNoSources(claims, ids[1..]);
    }
  }

  /** Rows of which none is stale synchronize to themselves, but for the lifecycle of derived ones. */
  lemma FreshRowsSettle(was: seq<Claim>, now: seq<Claim>, projectState: string)
    requires |was| == |now| && forall i | 0 <= i < |was| ::
               now[i] == (if IsDerived(was[i]) then was[i].(lifecycle := LiveLifecycle(was[i])) else was[i])
                 && !IsStale(was[i])
    ensures Synchronized(was, now, projectState)
  {
    hide Tainted;
    forall i | 0 <= i < |now| ensures SettledAt(now, i) && RowMoved(was[i], now[i], projectState, Tainted(was, i)) {
      NoneStaleNoSources(now, now[i].sourceClaimIds);
    }
  }

  /** Rows all stale synchronize to themselves, but for the lifecycle of derived ones. */
  lemma StaleRowsSettle(was: seq<Claim>, now: seq<Claim>, projectState: string)
    requires |was| == |now| && forall i | 0 <= i < |was| ::
               now[i] == (if IsDerived(was[i]) then was[i].(lifecycle := INVALID_MEMORY) else was[i]) && IsStale(was[i])
    ensures Synchronized(was, now, projectState)
  {
    hide Tainted;
    forall i | 0 <= i < |now| ensures SettledAt(now, i) && RowMoved(was[i], now[i], projectState, Tainted(was, i)) {
    }
  }

  function Linked(episode: Claim, target: string): Claim {
    episode.(lifecycle := PROMOTED, promotedTo := Some(target))
  }

  /** Evaluating a lone episode appends its memory and links the episode to it. */
  lemma LoneEvaluation(rows: seq<Claim>, task: Task, value: string, id: string) returns (memory: Claim)
    requires IsLone(rows, ONE_EPISODE, task, Assertion("k", value)) && task.projectRoot == "root"
    requires task.sourceClaimIds == []
    requires IsFresh(rows, id) && rows[|rows| - 1].grounded && rows[|rows| - 1].id != id
    ensures var e := rows[|rows| - 1];
            && IsPromotionOf(memory, id, e, value)
            && Next(ONE_EPISODE, rows, rows[..|rows| - 1] + [Linked(e, id), memory], EvaluateEpisodes(task, e, [id]))
  {
    hide IsPromotionOf, EvaluateAssertions, NewSemantic, Promoted, Linked, DistinctClaimIds, Synchronized,
         ProceduralEvaluation;
    var e, a := rows[|rows| - 1], Assertion("k", value);
    assert e.assertions == [a] && e.projectRoot == "root";
    memory := NewSemantic(task, a, [e], id);
    PromotedMemory(task, id, e, value);
    LoneEpisodeIsPromoted(rows, ONE_EPISODE, task, e, a, id);
    assert memory.id == id by { PromotionHasId(memory, id, e, value); }
    LastIsLinked(rows, memory, id);
    hide IsLone;
    EvaluationIsAStep(rows, rows[..|rows| - 1] + [Linked(e, id), memory], task, e, id);
  }

  lemma PromotionHasId(memory: Claim, id: string, episode: Claim, value: string)
    requires IsPromotionOf(memory, id, episode, value)
    ensures memory.id == id
  {
  }

  lemma EvaluationIsAStep(rows: seq<Claim>, now: seq<Claim>, task: Task, e: Claim, id: string)
    requires task.projectRoot == e.projectRoot != "" && |e.assertions| == 1 && IsFresh(rows, id)
    requires now == EvaluateAssertions(rows, ONE_EPISODE, task, e, [id], 1).rows
    ensures Next(ONE_EPISODE, rows, now, EvaluateEpisodes(task, e, [id]))
  {
  }

  lemma LastIsLinked(rows: seq<Claim>, memory: Claim, target: string)
    requires rows != [] && DistinctClaimIds(rows) && memory.id != rows[|rows| - 1].id
    ensures Promoted(rows + [memory], [rows[|rows| - 1].id], target) ==
              rows[..|rows| - 1] + [Linked(rows[|rows| - 1], target), memory]
  {
  }

  function Saved(task: Task, id: string, value: string): Claim {
    WithProvenance(task, Episode(id, value))
  }

  /** Where everything else is stale, saving one episode and evaluating it makes a memory of it. */
  lemma SaveAndPromote(before: seq<Claim>, task: Task, id: string, value: string, target: string)
    returns (memory: Claim)
    requires DistinctClaimIds(before) && IsFresh(before, id) && IsFresh(before, target) && id != target
    requires task.projectRoot == "root" && task.sourceClaimIds == [] && task.id != ""
    requires forall c | c in before :: IsStale(c)
    ensures var e := Saved(task, id, value);
            && Next(ONE_EPISODE, before, before + [e], SaveEpisode(task, Episode(id, value)))
            && Next(ONE_EPISODE, before + [e], before + [Linked(e, target), memory],
                    EvaluateEpisodes(task, e, [target]))
            && IsPromotionOf(memory, target, e, value)
  {
    var e := Saved(task, id, value);
    SavedEpisode(task, id, value);
    hide Normalize, WithProvenance, OneValuePerKey, Synchronized, IsPromotionOf, EvaluateAssertions;
    assert (before + [e])[..|before|] == before;
    AppendedIdIsDistinct(before, e);
    memory := LoneEvaluation(before + [e], task, value, target);
  }

  lemma MemoryGoesStale(e: Claim, s: Claim)
    requires e.tier == EPISODIC && e.id == "e" && s.tier == SEMANTIC && s.id == "s"
    ensures var gone := [RecordValidity(e, CHANGED, "p1"), RecordValidity(s, CHANGED, "p1")];
            && Next(ONE_EPISODE, [e, s], gone, FIRST_SWEEP)
            && Next(ONE_EPISODE, gone, [gone[0], gone[1].(lifecycle := INVALID_MEMORY)], Synchronize("p1"))
  {
    hide Synchronized;
    var gone := [RecordValidity(e, CHANGED, "p1"), RecordValidity(s, CHANGED, "p1")];
    StaleRowsSettle(gone, [gone[0], gone[1].(lifecycle := INVALID_MEMORY)], "p1");
  }

  lemma MemoryReturns(rows: seq<Claim>)
    requires |rows| == 4 && rows[0].id == "e" && rows[1].id == "s" && rows[2].id == "f" && rows[3].id == "z"
    requires rows[0].tier == EPISODIC && rows[1].tier == SEMANTIC && rows[2].tier == EPISODIC
    requires rows[3].tier == SEMANTIC
    requires rows[1].promotedTo == rows[3].promotedTo == None && rows[3].lifecycle == ACTIVE
    requires !IsNews(rows[2], MATCHES) && !IsNews(rows[3], MATCHES)
    ensures var back := [RecordValidity(rows[0], MATCHES, "p2"), RecordValidity(rows[1], MATCHES, "p2"), rows[2],
                         rows[3]];
            && Next(ONE_EPISODE, rows, back, SECOND_SWEEP)
            && Next(ONE_EPISODE, back, back[1 := back[1].(lifecycle := ACTIVE)], Synchronize("p2"))
  {
    hide Synchronized;
    var back := [RecordValidity(rows[0], MATCHES, "p2"), RecordValidity(rows[1], MATCHES, "p2"), rows[2], rows[3]];
    FreshRowsSettle(back, back[1 := back[1].(lifecycle := ACTIVE)], "p2");
  }

  lemma LetterIsNormal(s: string)
    requires IsToken(s)
    ensures Normalize(s) == s
  {
    JoinedTextIsNormal([s]);
    assert Join(" ", [s]) == s;
    LowerKeepsNormalText(s);
    TokensUndoJoin([s]);
  }

  lemma DisagreeingRivals(first: Claim, second: Claim, e: Claim, f: Claim)
    requires IsPromotionOf(first, "s", e, "a") && IsPromotionOf(second, "z", f, "b")
    ensures Rivals(first, second, SEMANTIC) && ValueAsserted(first) == "a" && ValueAsserted(second) == "b"
  {
    LetterIsNormal("a");
    LetterIsNormal("b");
  }

  /**
   The steps above are a run from the empty store, and after its last synchronization two
   CURRENT semantic memories of one root and key assert different values.
   */
  lemma RevivalCanBreakUniqueness() returns (states: seq<seq<Claim>>)
    ensures IsRun(ONE_EPISODE, states, REVIVAL_STEPS) && |states[8]| == 4
    ensures Rivals(states[8][1], states[8][3], SEMANTIC)
    ensures ValueAsserted(states[8][1]) == "a" && ValueAsserted(states[8][3]) == "b"
  {
    hide Next, WithProvenance, Rivals, ValueAsserted, Normalize;
    var t, u := TaskAt("t", "p0"), TaskAt("u", "p1");
    var e, f := Saved(t, "e", "a"), Saved(u, "f", "b");
    SavedEpisode(t, "e", "a");
    SavedEpisode(u, "f", "b");
    var s := SaveAndPromote([], t, "e", "a", "s");
    MemoryGoesStale(Linked(e, "s"), s);
    var gone := [RecordValidity(Linked(e, "s"), CHANGED, "p1"), RecordValidity(s, CHANGED, "p1")];
    var before := [gone[0], gone[1].(lifecycle := INVALID_MEMORY)];
    var z := SaveAndPromote(before, u, "f", "b", "z");
    var rows := before + [Linked(f, "z"), z];
    MemoryReturns(rows);
    var back := [RecordValidity(rows[0], MATCHES, "p2"), RecordValidity(rows[1], MATCHES, "p2"), rows[2], rows[3]];
    var end := back[1 := back[1].(lifecycle := ACTIVE)];
    DisagreeingRivals(end[1], z, e, f);
    states := [[], [e], [Linked(e, "s"), s], gone, before, before + [f], rows, back, end];
    assert [] + [e] == [e] && [] + [Linked(e, "s"), s] == [Linked(e, "s"), s];
  }
}
