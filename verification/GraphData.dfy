/** Claims of the task graph, as far as conflict detection and memory consolidation read them. */
module GraphData {
  import opened Wrappers
  import opened Normalization

  datatype Validity = CURRENT | SUPERSEDED | INVALIDATED

  datatype Tier = WORKING | EPISODIC | SEMANTIC | PROCEDURAL

  datatype Lifecycle = ACTIVE | PROMOTED | REJECTED | INVALID_MEMORY

  datatype Assertion = Assertion(key: string, value: string)

  /** Why a claim has its validity: a text, or the stale claims it was derived from. */
  datatype ValidityReason = Because(text: string) | DependsOnStale(ids: seq<string>)

  datatype ValidityEvent = ValidityEvent(status: Validity, projectState: string, reason: ValidityReason)

  datatype Claim = Claim(
    id: string,
    projectRoot: string,
    tier: Tier,
    validity: Validity,
    lifecycle: Lifecycle,
    confidence: real,
    assertions: seq<Assertion>,
    sourceTaskId: Option<string>,
    sourceClaimIds: seq<string>,
    promotedTo: Option<string>,
    successfulReuses: int,
    supersededBy: Option<string>,
    grounded: bool,
    validityReason: ValidityReason,
    validUntil: Option<string>,
    validityHistory: seq<ValidityEvent>)

  ghost predicate DistinctClaimIds(claims: seq<Claim>) {
    forall i, j :: 0 <= i < j < |claims| ==> claims[i].id != claims[j].id
  }

  predicate Asserts(claim: Claim, key: string) {
    exists i | 0 <= i < |claim.assertions| :: Normalize(claim.assertions[i].key) == key
  }

  predicate AssertsValue(claim: Claim, key: string, value: string) {
    exists i | 0 <= i < |claim.assertions| ::
      Normalize(claim.assertions[i].key) == key && Normalize(claim.assertions[i].value) == value
  }

  /** No two assertions of the claim share a normalized key. */
  ghost predicate OneValuePerKey(claim: Claim) {
    forall i, j | 0 <= i < |claim.assertions| && 0 <= j < |claim.assertions| ::
      Normalize(claim.assertions[i].key) == Normalize(claim.assertions[j].key) ==> i == j
  }

  /** The claim rows of the graph store, in insertion order. */
  class ClaimStore {
    var rows: seq<Claim>

    /** Replaces the row with the claim's id, if there is one. */
    method UpdateClaim(claim: Claim)
      modifies this
      ensures |rows| == |old(rows)|
      ensures forall i | 0 <= i < |rows| :: rows[i] == if old(rows)[i].id == claim.id then claim else old(rows)[i]
    {
      for i := 0 to |rows|
        invariant |rows| == |old(rows)|
        invariant forall k | 0 <= k < |rows| ::
                    rows[k] == if k < i && old(rows)[k].id == claim.id then claim else old(rows)[k]
      {
        if rows[i].id == claim.id {
          rows := rows[i := claim];
        }
      }
    }
  }
}
