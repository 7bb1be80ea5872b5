/**
 Re-assessment of claims against the repository: a claim becomes invalid when its sources change,
 and CURRENT again when they match once more.
 */
module Provenance {
  import opened Wrappers
  import opened GraphData

  /** What an assessment of a claim's source files found. */
  datatype Verdict = Verdict(valid: bool, reason: string)

  function Target(claim: Claim, verdict: Verdict): Validity {
    if verdict.valid then CURRENT
    else if claim.supersededBy.Some? && claim.supersededBy.value != "" then SUPERSEDED
    else INVALIDATED
  }

  /** Whether the verdict says anything new about the claim. */
  predicate IsNews(claim: Claim, verdict: Verdict) {
    claim.validity != Target(claim, verdict) || claim.validityReason != Because(verdict.reason)
  }

  /** The claim with the verdict recorded; its lifecycle is left to the synchronization. */
  function RecordValidity(claim: Claim, verdict: Verdict, projectState: string): Claim {
    if !IsNews(claim, verdict) then claim
    else
      claim.(validity := Target(claim, verdict),
             validityReason := Because(verdict.reason),
             validUntil := if verdict.valid then None else Some(projectState),
             validityHistory := claim.validityHistory
               + [ValidityEvent(Target(claim, verdict), projectState, Because(verdict.reason))])
  }

  /** Every row with a verdict has it recorded. */
  function Revalidated(rows: seq<Claim>, verdicts: map<string, Verdict>, projectState: string): seq<Claim> {
    seq(|rows|, i requires 0 <= i < |rows| =>
      if rows[i].id in verdicts then RecordValidity(rows[i], verdicts[rows[i].id], projectState) else rows[i])
  }

  function SupersededClaim(claim: Claim, replacementId: string, projectState: string): Claim {
    var reason := Because("Superseded by replacement claim " + replacementId + ".");
    claim.(validity := SUPERSEDED, supersededBy := Some(replacementId), validUntil := Some(projectState),
           validityReason := reason,
           validityHistory := claim.validityHistory + [ValidityEvent(SUPERSEDED, projectState, reason)])
  }

  /** The sweep over the stored claims, one update for each claim about which there is news. */
  method Revalidate(store: ClaimStore, verdicts: map<string, Verdict>, projectState: string)
    requires DistinctClaimIds(store.rows)
    modifies store
    ensures store.rows == Revalidated(old(store.rows), verdicts, projectState)
  {
    var claims := store.rows;
    for n := 0 to |claims|
      invariant |store.rows| == |claims|
      invariant forall i | 0 <= i < |claims| ::
                  store.rows[i] == if i < n then Revalidated(claims, verdicts, projectState)[i] else claims[i]
    {
      var claim := claims[n];
      if claim.id in verdicts && IsNews(claim, verdicts[claim.id]) {
        store.UpdateClaim(RecordValidity(claim, verdicts[claim.id], projectState));
      }
    }
  }

  /** A recorded verdict is no news, and a claim is CURRENT afterwards exactly when the verdict says so. */
  lemma VerdictIsRecorded(claim: Claim, verdict: Verdict, projectState: string, later: string)
    ensures var after := RecordValidity(claim, verdict, projectState);
            && (after.validity == CURRENT <==> verdict.valid)
            && RecordValidity(after, verdict, later) == after
  {
  }

  /** The claim names the claim that replaced it. */
  predicate IsReplaced(claim: Claim) {
    match claim.supersededBy
    case Some(id) => |id| > 0
    case None => false
  }

  /** Nothing changes but the validity with its reason and end, and the history by one event that states them. */
  ghost predicate Notes(claim: Claim, after: Claim, projectState: string) {
    && after == claim.(validity := after.validity, validityReason := after.validityReason,
                       validUntil := after.validUntil, validityHistory := after.validityHistory,
                       supersededBy := after.supersededBy)
    && after.validUntil == (if after.validity == CURRENT then None else Some(projectState))
    && after.validityHistory ==
         claim.validityHistory + [ValidityEvent(after.validity, projectState, after.validityReason)]
  }

  /**
   What a verdict makes of a claim: CURRENT if valid, else SUPERSEDED if it was replaced, else INVALIDATED.
   It is noted exactly when the status or the reason is another than before.
   */
  lemma VerdictExactly(claim: Claim, verdict: Verdict, projectState: string)
    ensures var after := RecordValidity(claim, verdict, projectState);
            && (after.validity == CURRENT <==> verdict.valid)
            && (after.validity == SUPERSEDED <==> !verdict.valid && IsReplaced(claim))
            && after.validityReason == Because(verdict.reason) && after.supersededBy == claim.supersededBy
            && (if after.validity == claim.validity && claim.validityReason == Because(verdict.reason)
                then after == claim else Notes(claim, after, projectState))
  {
  }

  /** A replaced claim is SUPERSEDED by its replacement until a verdict says otherwise. */
  lemma ReplacementIsNoted(claim: Claim, replacementId: string, projectState: string)
    ensures var after := SupersededClaim(claim, replacementId, projectState);
            after.validity == SUPERSEDED && after.supersededBy == Some(replacementId)
              && Notes(claim, after, projectState)
  {
  }
}
