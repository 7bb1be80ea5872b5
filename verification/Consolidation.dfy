/**
 Governed consolidation: episodes become semantic memories, semantic memories become
 procedures, under gates for contradiction, confidence and independence.
 */
module Consolidation {
  import opened Lists
  import opened Wrappers
  import opened Normalization
  import opened GraphData
  import opened DependencyValidity

  datatype Policy = Policy(
    semanticMinimumEpisodes: int,
    semanticMinimumConfidence: real,
    proceduralMinimumReuses: int,
    proceduralMinimumConfidence: real)

  /** `resolvedRoot` is the absolute path of `projectRoot`, used when the latter is empty. */
  datatype Task = Task(id: string, projectRoot: string, resolvedRoot: string, projectState: string,
                       sourceClaimIds: seq<string>)

  datatype Reason =
    | Accepted | AlreadyKnown(id: string) | Contradicted | TooFewEpisodes | NotIndependent
    | StaleSemantic | LowConfidence | TooFewReuses

  datatype Decision = Decision(
    taskId: string,
    projectRoot: string,
    assertionKey: string,
    fromTier: Tier,
    toTier: Tier,
    reason: Reason,
    candidateIds: seq<string>,
    acceptedIds: seq<string>,
    rejectedIds: seq<string>,
    contradictoryIds: seq<string>,
    staleIds: seq<string>,
    minimumSupport: int,
    minimumConfidence: real,
    observedSupport: int,
    observedConfidence: real,
    promotedId: Option<string>)

  // ----- list helpers -----

  function IdsOf(claims: seq<Claim>): (r: seq<string>)
    ensures forall id :: id in r <==> exists c | c in claims :: c.id == id
  {
    if claims == [] then [] else IdsOf(claims[..|claims| - 1]) + [claims[|claims| - 1].id]
  }

  function TotalConfidence(claims: seq<Claim>): real {
    if claims == [] then 0.0 else TotalConfidence(claims[..|claims| - 1]) + claims[|claims| - 1].confidence
  }

  function TaskIds(claims: seq<Claim>): set<string> {
    set c | c in claims && c.sourceTaskId.Some? && c.sourceTaskId.value != "" :: c.sourceTaskId.value
  }

  // ----- saving -----

  /** The reason with which a claim starts out CURRENT. */
  function Learned(claim: Claim): ValidityReason {
    Because(if claim.grounded then "Every supporting source file still matches its learned content hash."
            else "Ungrounded claim is restricted to its exact repository state.")
  }

  /** Provenance given to a claim when it is saved under a task; it starts out CURRENT. */
  function WithProvenance(task: Task, claim: Claim): Claim {
    claim.(validityReason := Learned(claim),
           validityHistory := if claim.validityHistory != [] then claim.validityHistory
                              else [ValidityEvent(CURRENT, task.projectState, Learned(claim))],
           projectRoot := if claim.projectRoot != "" then claim.projectRoot else task.resolvedRoot,
           sourceTaskId := if claim.sourceTaskId.Some? && claim.sourceTaskId.value != "" then claim.sourceTaskId
                           else Some(task.id),
           sourceClaimIds := Deduplicated(claim.sourceClaimIds + task.sourceClaimIds),
           validity := CURRENT,
           tier := if claim.tier == WORKING then EPISODIC else claim.tier)
  }

  /** Every row with one of the ids is marked promoted to `target`. */
  function Promoted(rows: seq<Claim>, ids: seq<string>, target: string): seq<Claim> {
    seq(|rows|, i requires 0 <= i < |rows| =>
      if rows[i].id in ids then rows[i].(lifecycle := PROMOTED, promotedTo := Some(target)) else rows[i])
  }

  // ----- episodes to semantic memory -----

  function Candidates(rows: seq<Claim>, root: string, key: string): seq<Claim> {
    Select(rows, (c: Claim) => c.projectRoot == root && c.tier == EPISODIC && Asserts(c, key))
  }

  function Current(claims: seq<Claim>): seq<Claim> {
    Select(claims, (c: Claim) => !IsStale(c))
  }

  function Matching(candidates: seq<Claim>, key: string, value: string): seq<Claim> {
    Select(Current(candidates), (c: Claim) => AssertsValue(c, key, value))
  }

  function Contradictory(candidates: seq<Claim>, key: string, value: string): seq<Claim> {
    Select(Current(candidates), (c: Claim) => c !in Matching(candidates, key, value))
  }

  function Strong(policy: Policy, candidates: seq<Claim>, key: string, value: string): seq<Claim> {
    Select(Matching(candidates, key, value), (c: Claim) => c.confidence >= policy.semanticMinimumConfidence)
  }

  /** The CURRENT memories of a tier for a root and key; with a value, only those asserting it. */
  function Known(rows: seq<Claim>, tier: Tier, root: string, key: string, value: Option<string>): seq<Claim> {
    Select(rows, (c: Claim) =>
      && c.projectRoot == root && c.tier == tier && !IsStale(c)
      && if value.Some? then AssertsValue(c, key, value.value) else Asserts(c, key))
  }

  function SemanticReason(rows: seq<Claim>, policy: Policy, task: Task, assertion: Assertion,
                          candidates: seq<Claim>): Reason {
    var key, value := Normalize(assertion.key), Normalize(assertion.value);
    var strong := Strong(policy, candidates, key, value);
    var known := Known(rows, SEMANTIC, task.projectRoot, key, Some(value));
    if known != [] then AlreadyKnown(known[0].id)
    else if Contradictory(candidates, key, value) != [] then Contradicted
    else if |strong| < policy.semanticMinimumEpisodes then TooFewEpisodes
    else if |TaskIds(strong)| < policy.semanticMinimumEpisodes then NotIndependent
    else Accepted
  }

  function SemanticDecision(rows: seq<Claim>, policy: Policy, task: Task, assertion: Assertion,
                            candidates: seq<Claim>): Decision {
    var key, value := Normalize(assertion.key), Normalize(assertion.value);
    var strong := Strong(policy, candidates, key, value);
    var reason := SemanticReason(rows, policy, task, assertion, candidates);
    var matching := Matching(candidates, key, value);
    Decision(task.id, task.projectRoot, assertion.key, EPISODIC, SEMANTIC, reason, IdsOf(candidates),
             if reason == Accepted then IdsOf(strong) else [],
             IdsOf(if reason == Accepted then Select(candidates, (c: Claim) => c !in strong) else candidates),
             IdsOf(Contradictory(candidates, key, value)),
             IdsOf(Select(candidates, (c: Claim) => IsStale(c))),
             policy.semanticMinimumEpisodes, policy.semanticMinimumConfidence,
             |strong|, if matching == [] then 0.0 else TotalConfidence(matching) / |matching| as real,
             None)
  }

  function NewSemantic(task: Task, assertion: Assertion, accepted: seq<Claim>, id: string): Claim
    requires accepted != []
  {
    WithProvenance(task, Claim(id, task.projectRoot, SEMANTIC, CURRENT, ACTIVE,
                               TotalConfidence(accepted) / |accepted| as real,
                               [assertion], None, IdsOf(accepted), None, 0, None,
                               exists c | c in accepted :: c.grounded, Because(""), None, []))
  }

  datatype Evaluation = Evaluation(rows: seq<Claim>, decisions: seq<Decision>, raised: bool)

  /** The candidates with an accepted id. */
  function AcceptedOf(candidates: seq<Claim>, decision: Decision): seq<Claim> {
    Select(candidates, (c: Claim) => c.id in decision.acceptedIds)
  }

  /** One assertion of the trigger. Accepting no episode at all makes the program raise. */
  function EvaluateAssertion(rows: seq<Claim>, policy: Policy, task: Task, root: string, assertion: Assertion,
                             id: string)
    : Evaluation
  {
    var candidates := Candidates(rows, root, Normalize(assertion.key));
    var decision := SemanticDecision(rows, policy, task, assertion, candidates);
    var accepted := AcceptedOf(candidates, decision);
    if decision.reason != Accepted then Evaluation(rows, [decision], false)
    else if accepted == [] then Evaluation(rows, [], true)
    else
      var semantic := NewSemantic(task, assertion, accepted, id);
      Evaluation(Promoted(rows + [semantic], IdsOf(accepted), id),
                 [decision.(promotedId := Some(id), acceptedIds := semantic.sourceClaimIds)], false)
  }

  /** The first `n` assertions of the trigger in turn; `ids` are the ids new memories will get. */
  function EvaluateAssertions(rows: seq<Claim>, policy: Policy, task: Task, trigger: Claim, ids: seq<string>,
                              n: nat): Evaluation
    requires n <= |trigger.assertions| <= |ids|
  {
    if n == 0 then Evaluation(rows, [], false)
    else
      var before := EvaluateAssertions(rows, policy, task, trigger, ids, n - 1);
      if before.raised then before
      else
        var one := EvaluateAssertion(before.rows, policy, task, trigger.projectRoot, trigger.assertions[n - 1],
                                     ids[n - 1]);
        Evaluation(one.rows, before.decisions + one.decisions, one.raised)
  }

  // ----- semantic memory to procedure -----

  function LeadAssertion(semantic: Claim): Assertion {
    if semantic.assertions != [] then semantic.assertions[0] else Assertion("memory", "")
  }

  function ProceduralReason(rows: seq<Claim>, policy: Policy, semantic: Claim): Reason {
    var known := Known(rows, PROCEDURAL, semantic.projectRoot, Normalize(LeadAssertion(semantic).key), None);
    if known != [] then AlreadyKnown(known[0].id)
    else if IsStale(semantic) then StaleSemantic
    else if semantic.confidence < policy.proceduralMinimumConfidence then LowConfidence
    else if semantic.successfulReuses < policy.proceduralMinimumReuses then TooFewReuses
    else Accepted
  }

  function NewProcedure(task: Task, semantic: Claim, id: string): Claim {
    WithProvenance(task, Claim(id, task.projectRoot, PROCEDURAL, CURRENT, ACTIVE, semantic.confidence,
                               [LeadAssertion(semantic)], None, [semantic.id], None, 0, None,
                               semantic.grounded, Because(""), None, []))
  }

  function ProceduralEvaluation(rows: seq<Claim>, policy: Policy, task: Task, semantic: Claim, id: string): Evaluation {
    var reason := ProceduralReason(rows, policy, semantic);
    var accepted := if reason == Accepted then [semantic.id] else [];
    var decision := Decision(task.id, task.projectRoot, LeadAssertion(semantic).key, SEMANTIC, PROCEDURAL, reason,
                             [semantic.id], accepted,
                             if reason == Accepted then [] else [semantic.id], [],
                             if IsStale(semantic) then [semantic.id] else [],
                             policy.proceduralMinimumReuses, policy.proceduralMinimumConfidence,
                             semantic.successfulReuses, semantic.confidence,
                             if reason == Accepted then Some(id) else None);
    Evaluation(if reason == Accepted then Promoted(rows + [NewProcedure(task, semantic, id)], [semantic.id], id)
               else rows,
               [decision], false)
  }

  // ----- the consolidator object -----

  class GovernedMemoryConsolidator {
    const policy: Policy
    const store: ClaimStore
    var decisions: seq<Decision>

    constructor (policy: Policy, store: ClaimStore)
      ensures this.policy == policy && this.store == store && decisions == []
    {
      this.policy, this.store, decisions := policy, store, [];
    }

    /** Marks the rows with these ids as promoted, one update per row. */
    method MarkPromoted(ids: seq<string>, target: string)
      modifies store
      ensures store.rows == Promoted(old(store.rows), ids, target)
    {
      ghost var before := store.rows;
      for k := 0 to |ids|
        invariant store.rows == Promoted(before, ids[..k], target)
      {
        assert ids[..k + 1] == ids[..k] + [ids[k]];
        for i := 0 to |store.rows|
          invariant |store.rows| == |before|
          invariant forall j | 0 <= j < |before| ::
                      store.rows[j] == if before[j].id in ids[..k] || (j < i && before[j].id == ids[k])
                                       then before[j].(lifecycle := PROMOTED, promotedTo := Some(target)) else before[j]
        {
          if store.rows[i].id == ids[k] {
            store.rows := store.rows[i := store.rows[i].(lifecycle := PROMOTED, promotedTo := Some(target))];
          }
        }
      }
      assert ids[..|ids|] == ids;
    }

    /** Decides on one assertion and, if accepted, creates the memory and records the decision. */
    method EvaluateOne(task: Task, root: string, assertion: Assertion, id: string)
      returns (made: seq<Decision>, raised: bool)
      modifies this, store
      ensures var e := EvaluateAssertion(old(store.rows), policy, task, root, assertion, id);
              store.rows == e.rows && made == e.decisions && raised == e.raised
      ensures decisions == old(decisions) + made
    {
      hide Promoted, SemanticDecision, Candidates, NewSemantic;
      var candidates := Candidates(store.rows, root, Normalize(assertion.key));
      var decision := SemanticDecision(store.rows, policy, task, assertion, candidates);
      if decision.reason == Accepted {
        var accepted := AcceptedOf(candidates, decision);
        if accepted == [] {
          return [], true;
        }
        var semantic := NewSemantic(task, assertion, accepted, id);
        store.rows := store.rows + [semantic];
        MarkPromoted(IdsOf(accepted), id);
        decision := decision.(promotedId := Some(id), acceptedIds := semantic.sourceClaimIds);
      }
      decisions := decisions + [decision];
      made, raised := [decision], false;
    }

    method EvaluateEpisodic(task: Task, trigger: Claim, ids: seq<string>) returns (made: seq<Decision>, raised: bool)
      requires |trigger.assertions| <= |ids|
      modifies this, store
      ensures var e := EvaluateAssertions(old(store.rows), policy, task, trigger, ids, |trigger.assertions|);
              store.rows == e.rows && made == e.decisions && raised == e.raised
      ensures decisions == old(decisions) + made
    {
      hide EvaluateAssertion;
      made, raised := [], false;
      ghost var before := store.rows;
      var n := 0;
      while n < |trigger.assertions| && !raised
        invariant n <= |trigger.assertions|
        invariant var e := EvaluateAssertions(before, policy, task, trigger, ids, n);
                  store.rows == e.rows && made == e.decisions && raised == e.raised
        invariant decisions == old(decisions) + made
        decreases |trigger.assertions| - n, !raised
      {
        var one;
        one, raised := EvaluateOne(task, trigger.projectRoot, trigger.assertions[n], ids[n]);
        made := made + one;
        n := n + 1;
      }
      if raised {
        RaisedStays(before, policy, task, trigger, ids, n, |trigger.assertions|);
      }
    }

    method EvaluateProcedural(task: Task, semantic: Claim, id: string) returns (decision: Decision)
      modifies this, store
      ensures store.rows == ProceduralEvaluation(old(store.rows), policy, task, semantic, id).rows
      ensures [decision] == ProceduralEvaluation(old(store.rows), policy, task, semantic, id).decisions
      ensures decisions == old(decisions) + [decision]
    {
      hide Promoted, NewProcedure;
      var reason := ProceduralReason(store.rows, policy, semantic);
      var eligible := reason == Accepted;
      decision := Decision(task.id, task.projectRoot, LeadAssertion(semantic).key, SEMANTIC, PROCEDURAL, reason,
                           [semantic.id],
                           if eligible then [semantic.id] else [], if eligible then [] else [semantic.id], [],
                           if IsStale(semantic) then [semantic.id] else [],
                           policy.proceduralMinimumReuses, policy.proceduralMinimumConfidence,
                           semantic.successfulReuses, semantic.confidence, None);
      if eligible {
        store.rows := store.rows + [NewProcedure(task, semantic, id)];
        MarkPromoted([semantic.id], id);
        decision := decision.(promotedId := Some(id));
      }
      decisions := decisions + [decision];
    }
  }

  lemma {:induction false} RaisedStays(rows: seq<Claim>, policy: Policy, task: Task, trigger: Claim, ids: seq<string>,
                                       n: nat, m: nat)
    requires n <= m <= |trigger.assertions| <= |ids|
    requires EvaluateAssertions(rows, policy, task, trigger, ids, n).raised
    ensures EvaluateAssertions(rows, policy, task, trigger, ids, m) ==
              EvaluateAssertions(rows, policy, task, trigger, ids, n)
  {
    hide EvaluateAssertion;
    if n < m {
      RaisedStays(rows, policy, task, trigger, ids, n, m - 1);
    }
  }
}
