/**
 What the ledger's accepted calls say, and what an assessment makes of them. Rows, bodies and
 predicates of the implementation do not appear in the results: eligibility, level, disposition
 and authentication are stated in the arguments of earlier calls, the files and the keys.
 */
module LedgerCalls {
  import opened Wrappers
  import opened LedgerData
  import opened LedgerAssessment
  import opened LedgerRuns
  import opened LedgerInvariant
  import opened LedgerTheorems
  import opened Ordering
  import opened PlainText

  // ----- accepted calls -----

  /** What a call returns after these. */
  function Answer(calls: seq<Call>, call: Call): Result<Outcome, Failure> {
    Perform(Run(calls), call)
  }

  ghost predicate IsAccepted(calls: seq<Call>, i: nat)
    requires i < |calls|
  {
    Answer(calls[..i], calls[i]).Ok?
  }

  ghost predicate Proposed(calls: seq<Call>, claim: ClaimStatement) {
    exists i | 0 <= i < |calls| :: calls[i].operation == ProposeCall(claim) && IsAccepted(calls, i)
  }

  /** The call submits this evidence, but for the path, which resolves to the stored one. */
  predicate Submits(call: Call, x: ClaimEvidence) {
    && call.operation.AppendCall?
    && var submitted := call.operation.evidence;
    && submitted.artifactPath in call.files.resolved
    && x == submitted.(artifactPath := call.files.resolved[submitted.artifactPath])
  }

  ghost predicate Appended(calls: seq<Call>, x: ClaimEvidence) {
    exists i | 0 <= i < |calls| :: Submits(calls[i], x) && IsAccepted(calls, i)
  }

  ghost predicate Superseded(calls: seq<Call>, c: string, replacementId: string, reason: string) {
    exists i | 0 <= i < |calls| ::
      calls[i].operation == SupersedeCall(c, replacementId, reason) && IsAccepted(calls, i)
  }

  predicate Authenticates(call: Call, c: string) {
    call.operation.AuthenticateCall? && call.operation.claimId == c
  }

  // ----- the rows are what was accepted -----

  ghost predicate HasClaim(t: Tables, claim: ClaimStatement) {
    claim.claimId in t.claims && t.claims[claim.claimId] == NewClaimRow(claim)
  }

  ghost predicate HasEvidence(t: Tables, x: ClaimEvidence) {
    x.evidenceId in t.evidence && t.evidence[x.evidenceId] == NewEvidenceRow(x)
  }

  ghost predicate HasSupersession(t: Tables, c: string, replacementId: string, reason: string) {
    c in t.supersessions && t.supersessions[c] == NewSupersessionRow(c, replacementId, reason)
  }

  lemma SameClaimRow(t: Tables, claim: ClaimStatement)
    requires RowsOk(t) && claim.claimId in t.claims && t.claims[claim.claimId].payload == NewClaimRow(claim).payload
    ensures t.claims[claim.claimId] == NewClaimRow(claim)
  {
    assert ClaimRowOk(claim.claimId, t.claims[claim.claimId]);
  }

  lemma SameEvidenceRow(t: Tables, x: ClaimEvidence)
    requires RowsOk(t) && x.evidenceId in t.evidence && t.evidence[x.evidenceId].payload == NewEvidenceRow(x).payload
    ensures t.evidence[x.evidenceId] == NewEvidenceRow(x)
  {
    assert EvidenceRowOk(x.evidenceId, t.evidence[x.evidenceId], t.claims.Keys);
  }

  lemma SameSupersessionRow(t: Tables, c: string, replacementId: string, reason: string)
    requires RowsOk(t) && c in t.supersessions
    requires t.supersessions[c].payload == NewSupersessionRow(c, replacementId, reason).payload
    ensures t.supersessions[c] == NewSupersessionRow(c, replacementId, reason)
  {
    assert SupersessionRowOk(c, t.supersessions[c], t.claims.Keys);
  }

  lemma SameEnvelopeRow(t: Tables, row: EnvelopeRow)
    requires RowsOk(t) && row.payload.Json? && row.payload.document.EnvelopeDocument?
    requires row == NewEnvelopeRow(row.payload.document.envelope) && ShortId(row.payloadSha) in t.envelopes
    ensures t.envelopes[ShortId(row.payloadSha)] == row
  {
    assert EnvelopeRowOk(ShortId(row.payloadSha), t.envelopes[ShortId(row.payloadSha)], t.claims.Keys);
  }

  /** What an accepted call leaves in the four row tables. */
  ghost predicate Inserts(t: Tables, t': Tables, claims: map<string, ClaimRow>, evidence: map<string, EvidenceRow>,
                          supersessions: map<string, SupersessionRow>, envelopes: map<ShortId, EnvelopeRow>) {
    t'.claims == claims && t'.evidence == evidence && t'.supersessions == supersessions && t'.envelopes == envelopes
  }

  lemma ProposeRows(t: Tables, keys: Keys, files: Files, claim: ClaimStatement)
    requires RowsOk(t)
    ensures var r := Propose(t, keys, files, claim);
            r.Ok? ==> Inserts(t, r.value.tables, t.claims[claim.claimId := NewClaimRow(claim)], t.evidence,
                              t.supersessions, t.envelopes)
  {
    hide RowsOk, Assess, ValidClaim, NewClaimRow, CanAssess, NewEventRow, EventsOf;
    var r := Propose(t, keys, files, claim);
    if r.Ok? && claim.claimId in t.claims {
      SameClaimRow(t, claim);
    }
  }

  lemma AppendRows(t: Tables, keys: Keys, files: Files, x: ClaimEvidence)
    requires RowsOk(t)
    ensures var r := AppendEvidence(t, keys, files, x);
            r.Ok? ==> && x.artifactPath in files.resolved
                      && var y := x.(artifactPath := files.resolved[x.artifactPath]);
                      Inserts(t, r.value.tables, t.claims, t.evidence[y.evidenceId := NewEvidenceRow(y)],
                              t.supersessions, t.envelopes)
  {
    hide RowsOk, Assess, WellFormedEvidence, MeetsKindRules, NewEvidenceRow, CanAssess, NewEventRow, EventsOf;
    var r := AppendEvidence(t, keys, files, x);
    if r.Ok? && x.evidenceId in t.evidence {
      SameEvidenceRow(t, x.(artifactPath := files.resolved[x.artifactPath]));
    }
  }

  lemma SupersedeRows(t: Tables, keys: Keys, files: Files, c: string, replacementId: string, reason: string)
    requires RowsOk(t)
    ensures var r := Supersede(t, keys, files, c, replacementId, reason);
            r.Ok? ==> Inserts(t, r.value.tables, t.claims, t.evidence,
                              t.supersessions[c := NewSupersessionRow(c, replacementId, reason)], t.envelopes)
  {
    hide RowsOk, Assess, HasText, NewSupersessionRow, CanAssess, NewEventRow, EventsOf;
    var r := Supersede(t, keys, files, c, replacementId, reason);
    if r.Ok? && c in t.supersessions {
      SameSupersessionRow(t, c, replacementId, reason);
    }
  }

  /** The envelope row an authentication writes. */
  function SealedRow(t: Tables, keys: Keys, files: Files, c: string, keyId: string): EnvelopeRow
    requires RowsOk(t) && c in t.claims && keyId in keys
  {
    NewEnvelopeRow(Seal(keys[keyId], BodyFor(c, ViewOf(t, c), files, keyId)))
  }

  lemma AuthenticateRows(t: Tables, keys: Keys, files: Files, c: string, keyId: string)
    requires RowsOk(t)
    ensures var r := Authenticate(t, keys, files, c, keyId);
            r.Ok? ==> && c in t.claims && keyId in keys
                      && var row := SealedRow(t, keys, files, c, keyId);
                      Inserts(t, r.value.tables, t.claims, t.evidence, t.supersessions,
                              t.envelopes[ShortId(row.payloadSha) := row])
  {
    hide RowsOk, Assess, HasText, BodyFor, CanAssess, NewEventRow, EventsOf, ViewOf;
    var r := Authenticate(t, keys, files, c, keyId);
    if r.Ok? {
      var row := SealedRow(t, keys, files, c, keyId);
      if ShortId(row.payloadSha) in t.envelopes {
        SameEnvelopeRow(t, row);
      }
    }
  }

  lemma ClaimRowsDiffer(a: ClaimStatement, b: ClaimStatement)
    ensures NewClaimRow(a) == NewClaimRow(b) ==> a == b
  {
  }

  lemma EvidenceRowsDiffer(x: ClaimEvidence, y: ClaimEvidence)
    ensures NewEvidenceRow(x) == NewEvidenceRow(y) ==> x == y
  {
  }

  lemma ClaimStep(t: Tables, call: Call, claim: ClaimStatement)
    requires Inv(t)
    ensures HasClaim(After(t, call), claim) <==>
              HasClaim(t, claim) || (call.operation == ProposeCall(claim) && Perform(t, call).Ok?)
  {
    hide Propose, AppendEvidence, Authenticate, Supersede, Assess, EventsOk, RowsOk, NewEvidenceRow, SealedRow,
         NewClaimRow;
    CallKeepsInv(t, call);
    match call.operation
    case ProposeCall(other) =>
      ClaimRowsDiffer(claim, other);
      ProposeRows(t, call.keys, call.files, other);
    case AppendCall(x) =>
      AppendRows(t, call.keys, call.files, x);
    case AuthenticateCall(c, keyId) =>
      AuthenticateRows(t, call.keys, call.files, c, keyId);
    case SupersedeCall(c, replacementId, reason) =>
      SupersedeRows(t, call.keys, call.files, c, replacementId, reason);
  }

  lemma EvidenceStep(t: Tables, call: Call, x: ClaimEvidence)
    requires Inv(t)
    ensures HasEvidence(After(t, call), x) <==> HasEvidence(t, x) || (Submits(call, x) && Perform(t, call).Ok?)
  {
    hide Propose, AppendEvidence, Authenticate, Supersede, Assess, EventsOk, RowsOk, NewEvidenceRow, SealedRow,
         NewClaimRow;
    CallKeepsInv(t, call);
    match call.operation
    case ProposeCall(claim) =>
      ProposeRows(t, call.keys, call.files, claim);
    case AppendCall(y) =>
      AppendRows(t, call.keys, call.files, y);
      if Perform(t, call).Ok? {
        EvidenceRowsDiffer(x, y.(artifactPath := call.files.resolved[y.artifactPath]));
      }
    case AuthenticateCall(c, keyId) =>
      AuthenticateRows(t, call.keys, call.files, c, keyId);
    case SupersedeCall(c, replacementId, reason) =>
      SupersedeRows(t, call.keys, call.files, c, replacementId, reason);
  }

  lemma SupersessionRowsDiffer(c: string, r: string, reason: string, r': string, reason': string)
    ensures NewSupersessionRow(c, r, reason) == NewSupersessionRow(c, r', reason') ==> r == r' && reason == reason'
  {
  }

  lemma SupersessionStep(t: Tables, call: Call, c: string, replacementId: string, reason: string)
    requires Inv(t)
    ensures HasSupersession(After(t, call), c, replacementId, reason) <==>
              || HasSupersession(t, c, replacementId, reason)
              || (call.operation == SupersedeCall(c, replacementId, reason) && Perform(t, call).Ok?)
  {
    hide Propose, AppendEvidence, Authenticate, Supersede, Assess, EventsOk, RowsOk, NewEvidenceRow, SealedRow,
         NewClaimRow, NewSupersessionRow;
    CallKeepsInv(t, call);
    match call.operation
    case ProposeCall(claim) =>
      ProposeRows(t, call.keys, call.files, claim);
    case AppendCall(y) =>
      AppendRows(t, call.keys, call.files, y);
    case AuthenticateCall(d, keyId) =>
      AuthenticateRows(t, call.keys, call.files, d, keyId);
    case SupersedeCall(d, other, why) =>
      SupersedeRows(t, call.keys, call.files, d, other, why);
      SupersessionRowsDiffer(c, replacementId, reason, other, why);
  }

  /** The call is an authentication that writes this row. */
  ghost predicate Seals(t: Tables, call: Call, row: EnvelopeRow)
    requires Inv(t)
  {
    && call.operation.AuthenticateCall? && Perform(t, call).Ok?
    && call.operation.claimId in t.claims && call.operation.keyId in call.keys
    && row == SealedRow(t, call.keys, call.files, call.operation.claimId, call.operation.keyId)
  }

  ghost predicate HasEnvelope(t: Tables, row: EnvelopeRow) {
    ShortId(row.payloadSha) in t.envelopes && t.envelopes[ShortId(row.payloadSha)] == row
  }

  lemma EnvelopeStep(t: Tables, call: Call, row: EnvelopeRow)
    requires Inv(t)
    ensures HasEnvelope(After(t, call), row) <==> HasEnvelope(t, row) || Seals(t, call, row)
  {
    hide Propose, AppendEvidence, Authenticate, Supersede, Assess, EventsOk, RowsOk, NewEvidenceRow, SealedRow,
         NewClaimRow;
    CallKeepsInv(t, call);
    match call.operation
    case ProposeCall(claim) =>
      ProposeRows(t, call.keys, call.files, claim);
    case AppendCall(y) =>
      AppendRows(t, call.keys, call.files, y);
    case AuthenticateCall(d, keyId) =>
      AuthenticateRows(t, call.keys, call.files, d, keyId);
    case SupersedeCall(d, other, reason) =>
      SupersedeRows(t, call.keys, call.files, d, other, reason);
  }

  lemma LastCall(calls: seq<Call>)
    requires calls != []
    ensures var before, last := calls[..|calls| - 1], calls[|calls| - 1];
            && Run(calls) == After(Run(before), last)
            && (forall i | 0 <= i < |before| :: before[i] == calls[i] && before[..i] == calls[..i])
            && calls[..|calls| - 1] == before
  {
  }

  lemma EmptyRun()
    ensures Run([]) == EMPTY
  {
  }

  /** A claim is in the ledger exactly when it was proposed. */
  lemma {:induction false} ClaimsWereProposed(calls: seq<Call>, claim: ClaimStatement)
    ensures HasClaim(Run(calls), claim) <==> Proposed(calls, claim)
  {
    hide Run, Perform, After;
    if calls == [] {
      EmptyRun();
    } else {
      LastCall(calls);
      ClaimsWereProposed(calls[..|calls| - 1], claim);
      ClaimStep(Run(calls[..|calls| - 1]), calls[|calls| - 1], claim);
    }
  }

  /** Evidence is in the ledger exactly when it was appended. */
  lemma {:induction false} EvidenceWasAppended(calls: seq<Call>, x: ClaimEvidence)
    ensures HasEvidence(Run(calls), x) <==> Appended(calls, x)
  {
    hide Run, Perform, After;
    if calls == [] {
      EmptyRun();
    } else {
      LastCall(calls);
      EvidenceWasAppended(calls[..|calls| - 1], x);
      EvidenceStep(Run(calls[..|calls| - 1]), calls[|calls| - 1], x);
    }
  }

  /** A claim is superseded by another exactly when a call said so. */
  lemma {:induction false} SupersessionsWereCalled(calls: seq<Call>, c: string, replacementId: string, reason: string)
    ensures HasSupersession(Run(calls), c, replacementId, reason) <==> Superseded(calls, c, replacementId, reason)
  {
    hide Run, Perform, After;
    if calls == [] {
      EmptyRun();
    } else {
      LastCall(calls);
      SupersessionsWereCalled(calls[..|calls| - 1], c, replacementId, reason);
      SupersessionStep(Run(calls[..|calls| - 1]), calls[|calls| - 1], c, replacementId, reason);
    }
  }

  /** An envelope is stored exactly when an accepted authentication wrote it. */
  lemma {:induction false} EnvelopesWereSealed(calls: seq<Call>, row: EnvelopeRow)
    ensures HasEnvelope(Run(calls), row) <==> exists i | 0 <= i < |calls| :: Seals(Run(calls[..i]), calls[i], row)
  {
    hide Run, Perform, After, Seals;
    if calls == [] {
      EmptyRun();
    } else {
      LastCall(calls);
      EnvelopesWereSealed(calls[..|calls| - 1], row);
      EnvelopeStep(Run(calls[..|calls| - 1]), calls[|calls| - 1], row);
    }
  }

  // ----- which evidence is eligible -----

  /** The artifact is there with the stated digest, and the evidence is about what the claim is about. */
  ghost predicate Counts(files: Files, claim: ClaimStatement, x: ClaimEvidence) {
    && x.claimId == claim.claimId
    && x.artifactPath in files.resolved && files.resolved[x.artifactPath] in files.contents
    && x.artifactSha == Hex(Sha256(Bytes(files.contents[files.resolved[x.artifactPath]])))
    && x.sourceManifest == claim.sourceManifest && x.policy == claim.policy
    && (x.kind == TEST_RUN || x.kind == REPLICATION_RUN || x.kind == COUNTEREVIDENCE ==>
          x.testSpec == Some(claim.requiredTestSpec))
  }

  ghost predicate IsEligible(calls: seq<Call>, files: Files, claim: ClaimStatement, x: ClaimEvidence) {
    Appended(calls, x) && Counts(files, claim, x)
  }

  lemma ProposedIsAssessed(calls: seq<Call>, claim: ClaimStatement)
    requires Proposed(calls, claim)
    ensures var t := Run(calls);
            && HasClaim(t, claim) && CanAssess(t, claim.claimId) && ViewOf(t, claim.claimId).Claim() == claim
  {
    hide Run, EventsOk, RowsOk;
    ClaimsWereProposed(calls, claim);
    ReadableView(Run(calls), claim.claimId);
  }

  lemma EvidenceOfView(calls: seq<Call>, c: string, e: string)
    requires c in Run(calls).claims && CanAssess(Run(calls), c) && e in ViewOf(Run(calls), c).evidence
    ensures var x := ViewOf(Run(calls), c).Evidence(e);
            x.evidenceId == e && x.claimId == c && Appended(calls, x)
  {
    hide Run, EventsOk;
    var t := Run(calls);
    assert EvidenceRowOk(e, t.evidence[e], t.claims.Keys);
    EvidenceWasAppended(calls, ViewOf(t, c).Evidence(e));
  }

  lemma AppendedIsInView(calls: seq<Call>, claim: ClaimStatement, x: ClaimEvidence)
    requires Proposed(calls, claim) && Appended(calls, x) && x.claimId == claim.claimId
    ensures CanAssess(Run(calls), claim.claimId)
    ensures var v := ViewOf(Run(calls), claim.claimId); x.evidenceId in v.evidence && v.Evidence(x.evidenceId) == x
  {
    hide Run, EventsOk, RowsOk;
    ProposedIsAssessed(calls, claim);
    EvidenceWasAppended(calls, x);
  }

  lemma EligibleIdsAre(calls: seq<Call>, files: Files, claim: ClaimStatement, e: string)
    requires Proposed(calls, claim)
    ensures CanAssess(Run(calls), claim.claimId)
    ensures var v := ViewOf(Run(calls), claim.claimId);
            e in EligibleIds(v, files) <==> exists x :: IsEligible(calls, files, claim, x) && x.evidenceId == e
  {
    hide Run, EventsOk, RowsOk, Appended, Proposed;
    ProposedIsAssessed(calls, claim);
    var v := ViewOf(Run(calls), claim.claimId);
    if e in EligibleIds(v, files) {
      EvidenceOfView(calls, claim.claimId, e);
      assert IsEligible(calls, files, claim, v.Evidence(e));
    }
    forall x | IsEligible(calls, files, claim, x) && x.evidenceId == e ensures e in EligibleIds(v, files) {
      AppendedIsInView(calls, claim, x);
    }
  }

  /**
   The evidence listed for a claim is what was appended for it; the eligible part is that whose artifact is
   still the stated one and that has the claim's source manifest, policy and, where a test is meant, test.
   */
  lemma EligibleExactly(calls: seq<Call>, keys: Keys, files: Files, claim: ClaimStatement, e: string)
    requires Proposed(calls, claim)
    ensures CanAssess(Run(calls), claim.claimId)
    ensures var a := Assess(Run(calls), keys, files, claim.claimId);
            && (e in a.eligibleIds <==> exists x :: IsEligible(calls, files, claim, x) && x.evidenceId == e)
            && (e in a.evidenceIds <==>
                exists x :: Appended(calls, x) && x.claimId == claim.claimId && x.evidenceId == e)
  {
    hide Run, EventsOk, RowsOk, Appended, Proposed;
    EligibleIdsAre(calls, files, claim, e);
    var v := ViewOf(Run(calls), claim.claimId);
    hide EligibleIds, IsEligible;
    assert e in Listing(EligibleIds(v, files)) <==> e in Elements(Listing(EligibleIds(v, files)));
    assert e in Listing(v.evidence.Keys) <==> e in Elements(Listing(v.evidence.Keys));
    if e in v.evidence {
      EvidenceOfView(calls, claim.claimId, e);
    }
    forall x | Appended(calls, x) && x.claimId == claim.claimId && x.evidenceId == e ensures e in v.evidence {
      AppendedIsInView(calls, claim, x);
    }
  }

  // ----- what an assessment says -----

  lemma SupersessionRowIs(t: Tables, c: string)
    requires RowsOk(t) && c in t.supersessions
    ensures t.supersessions[c].payload.Json? && t.supersessions[c].payload.document.SupersessionDocument?
    ensures HasSupersession(t, c, t.supersessions[c].replacementId, t.supersessions[c].payload.document.reason)
  {
    assert SupersessionRowOk(c, t.supersessions[c], t.claims.Keys);
  }

  predicate Passes(x: ClaimEvidence) {
    (x.kind == TEST_RUN || x.kind == REPLICATION_RUN) && x.outcome == PASSED
  }

  /** Two passing tests, known to come from different sources. */
  ghost predicate IsReplicated(calls: seq<Call>, files: Files, claim: ClaimStatement) {
    exists x, y ::
      && IsEligible(calls, files, claim, x) && IsEligible(calls, files, claim, y) && Passes(x) && Passes(y)
      && x.independenceKey.Some? && y.independenceKey.Some? && x.independenceKey.value != y.independenceKey.value
      && x.independenceKey.value != "" && y.independenceKey.value != ""
  }

  ghost predicate IsTested(calls: seq<Call>, files: Files, claim: ClaimStatement) {
    exists x :: IsEligible(calls, files, claim, x) && Passes(x)
  }

  ghost predicate IsObserved(calls: seq<Call>, files: Files, claim: ClaimStatement) {
    exists x :: IsEligible(calls, files, claim, x) && x.kind == SOURCE_OBSERVATION
  }

  ghost predicate IsRefuted(calls: seq<Call>, files: Files, claim: ClaimStatement) {
    exists x :: IsEligible(calls, files, claim, x) && x.kind == COUNTEREVIDENCE && x.outcome == FAILED
  }

  ghost predicate IsSuperseded(calls: seq<Call>, claim: ClaimStatement) {
    exists r, reason :: Superseded(calls, claim.claimId, r, reason)
  }

  lemma EligibleAre(calls: seq<Call>, files: Files, claim: ClaimStatement, x: ClaimEvidence)
    requires Proposed(calls, claim)
    ensures CanAssess(Run(calls), claim.claimId)
    ensures x in Eligible(ViewOf(Run(calls), claim.claimId), files) <==> IsEligible(calls, files, claim, x)
  {
    hide Run, EventsOk, RowsOk, Appended, Proposed, EligibleIds;
    ProposedIsAssessed(calls, claim);
    var v := ViewOf(Run(calls), claim.claimId);
    EligibleAreRows(v, files);
    if x in Eligible(v, files) {
      var e :| e in EligibleIds(v, files) && v.Evidence(e) == x;
      EligibleIdsAre(calls, files, claim, e);
      EvidenceOfView(calls, claim.claimId, e);
      var y :| IsEligible(calls, files, claim, y) && y.evidenceId == e;
      AppendedIsInView(calls, claim, y);
    }
    if IsEligible(calls, files, claim, x) {
      EligibleIdsAre(calls, files, claim, x.evidenceId);
      AppendedIsInView(calls, claim, x);
    }
  }

  /** What the eligible evidence of every run amounts to. */
  lemma LevelExactly(calls: seq<Call>, keys: Keys, files: Files, claim: ClaimStatement)
    requires Proposed(calls, claim)
    ensures CanAssess(Run(calls), claim.claimId)
    ensures var level := Assess(Run(calls), keys, files, claim.claimId).level;
            && (level == REPLICATED <==> IsReplicated(calls, files, claim))
            && (level == TESTED <==> IsTested(calls, files, claim) && !IsReplicated(calls, files, claim))
            && (level == OBSERVED <==> IsObserved(calls, files, claim) && !IsTested(calls, files, claim))
  {
    hide Run, EventsOk, RowsOk, Proposed, Eligible, IsEligible, LevelOf, DispositionOf, AuthenticationOf, EvidenceRoot;
    ProposedIsAssessed(calls, claim);
    var eligible := Eligible(ViewOf(Run(calls), claim.claimId), files);
    forall x ensures x in eligible <==> IsEligible(calls, files, claim, x) {
      EligibleAre(calls, files, claim, x);
    }
    LevelMeaning(eligible);
    assert IsReplicated(calls, files, claim) <==> TwoIndependentPasses(eligible);
  }

  /** What a claim is shown as: superseded by the named claim, refuted, authenticated, or at its level. */
  lemma DispositionExactly(calls: seq<Call>, keys: Keys, files: Files, claim: ClaimStatement)
    requires Proposed(calls, claim)
    ensures CanAssess(Run(calls), claim.claimId)
    ensures var a := Assess(Run(calls), keys, files, claim.claimId);
            && (a.disposition == SUPERSEDED <==> IsSuperseded(calls, claim))
            && (a.disposition == REJECTED <==> !IsSuperseded(calls, claim) && IsRefuted(calls, files, claim))
            && (forall r :: a.supersededBy == Some(r) <==> exists reason :: Superseded(calls, claim.claimId, r, reason))
            && a.display == if a.disposition == SUPERSEDED then ClaimDisplayState.Superseded
                            else if a.disposition == REJECTED then Rejected
                            else if a.authentication == AUTHENTICATED then Authenticated
                            else Level(a.level)
  {
    hide Run, EventsOk, RowsOk, Proposed, Eligible, IsEligible, LevelOf, AuthenticationOf, EvidenceRoot, Superseded;
    ProposedIsAssessed(calls, claim);
    var t := Run(calls);
    var eligible := Eligible(ViewOf(t, claim.claimId), files);
    forall x ensures x in eligible <==> IsEligible(calls, files, claim, x) {
      EligibleAre(calls, files, claim, x);
    }
    forall r, reason
      ensures HasSupersession(t, claim.claimId, r, reason) <==> Superseded(calls, claim.claimId, r, reason)
    {
      SupersessionsWereCalled(calls, claim.claimId, r, reason);
    }
    if claim.claimId in t.supersessions {
      SupersessionRowIs(t, claim.claimId);
    }
  }

  // ----- authentication -----

  /** The call authenticated the claim when this evidence was eligible. */
  ghost predicate SealedAt(calls: seq<Call>, i: nat, c: string, eligible: seq<string>)
    requires i < |calls|
  {
    && Authenticates(calls[i], c) && IsAccepted(calls, i) && CanAssess(Run(calls[..i]), c)
    && Assess(Run(calls[..i]), calls[i].keys, calls[i].files, c).eligibleIds == eligible
  }

  /** The key it signed with is still held, with the same secret. */
  predicate IsHeld(keys: Keys, call: Call) {
    && call.operation.AuthenticateCall?
    && var k := call.operation.keyId;
    && k in call.keys && k in keys && keys[k] == call.keys[k]
  }

  lemma SealsExactly(calls: seq<Call>, i: nat, c: string)
    requires i < |calls|
    ensures Authenticates(calls[i], c) && IsAccepted(calls, i) ==>
              && c in Run(calls[..i]).claims && CanAssess(Run(calls[..i]), c)
              && calls[i].operation.keyId in calls[i].keys
              && Assess(Run(calls[..i]), calls[i].keys, calls[i].files, c).disposition == ACTIVE
              && Seals(Run(calls[..i]), calls[i],
                       SealedRow(Run(calls[..i]), calls[i].keys, calls[i].files, c, calls[i].operation.keyId))
  {
    hide Run, HasText, BodyFor, AssessView, RowsOk, EventsOk, Recorded, SealedRow;
    if Authenticates(calls[i], c) && IsAccepted(calls, i) {
      ReadableView(Run(calls[..i]), c);
    }
  }

  lemma SameListing(a: set<string>, b: set<string>)
    requires Listing(a) == Listing(b)
    ensures a == b
  {
    assert Elements(Listing(a)) == Elements(Listing(b));
  }

  /** What was sealed when the same evidence was eligible describes the claim as it is now. */
  lemma SealStillDescribes(calls: seq<Call>, files: Files, claim: ClaimStatement, i: nat, keyId: string)
    requires Proposed(calls, claim) && !IsSuperseded(calls, claim) && i < |calls|
    requires CanAssess(Run(calls), claim.claimId) && CanAssess(Run(calls[..i]), claim.claimId)
    requires ViewOf(Run(calls[..i]), claim.claimId).replacement == None
    requires Listing(EligibleIds(ViewOf(Run(calls[..i]), claim.claimId), calls[i].files)) ==
               Listing(EligibleIds(ViewOf(Run(calls), claim.claimId), files))
    ensures var c := claim.claimId;
            BodyFor(c, ViewOf(Run(calls[..i]), c), calls[i].files, keyId) ==
              BodyFor(c, ViewOf(Run(calls), c), files, keyId)
  {
    hide Run, BodyFor, EligibleIds, Listing, Superseded, Extends;
    var c := claim.claimId;
    var v, v' := ViewOf(Run(calls[..i]), c), ViewOf(Run(calls), c);
    RunsExtend(calls, i);
    ViewsGrow(Run(calls[..i]), Run(calls), c);
    SameListing(EligibleIds(v, calls[i].files), EligibleIds(v', files));
    if v'.replacement.Some? {
      SupersessionRowIs(Run(calls), c);
      SupersessionsWereCalled(calls, c, v'.replacement.value, Run(calls).supersessions[c].payload.document.reason);
    }
    SameIdsSameBody(v, v', calls[i].files, files, c, keyId);
  }

  function Now(calls: seq<Call>, c: string): View
    requires c in Run(calls).claims
  {
    ViewOf(Run(calls), c)
  }

  lemma SealedEnvelope(calls: seq<Call>, keys: Keys, files: Files, claim: ClaimStatement, i: nat) returns (n: ShortId)
    requires Proposed(calls, claim) && !IsSuperseded(calls, claim) && i < |calls|
    requires CanAssess(Run(calls), claim.claimId)
    requires SealedAt(calls, i, claim.claimId, Assess(Run(calls), keys, files, claim.claimId).eligibleIds)
    ensures var v, call := Now(calls, claim.claimId), calls[i];
            && call.operation.keyId in call.keys && n in v.envelopes
            && v.Envelope(n) == Seal(call.keys[call.operation.keyId],
                                     BodyFor(claim.claimId, v, files, call.operation.keyId))
  {
    hide Run, BodyFor, EligibleIds, Listing, Superseded, Proposed, IsAccepted, Seals, LevelOf, AuthenticationOf,
         Eligible;
    var c, call := claim.claimId, calls[i];
    SealsExactly(calls, i, c);
    var row := SealedRow(Run(calls[..i]), call.keys, call.files, c, call.operation.keyId);
    SealStillDescribes(calls, files, claim, i, call.operation.keyId);
    EnvelopesWereSealed(calls, row);
    n := ShortId(row.payloadSha);
    SealedRowIs(Run(calls[..i]), call.keys, call.files, c, call.operation.keyId);
    hide SealedRow, Seal;
  }

  lemma SealedRowIs(t: Tables, keys: Keys, files: Files, c: string, keyId: string)
    requires RowsOk(t) && c in t.claims && keyId in keys
    ensures CanAssess(t, c)
    ensures var row := SealedRow(t, keys, files, c, keyId);
            && row.claimId == c && row.payload.Json? && row.payload.document.EnvelopeDocument?
            && row.payload.document.envelope == Seal(keys[keyId], BodyFor(c, ViewOf(t, c), files, keyId))
  {
    ReadableView(t, c);
    hide EligibleIds, LevelOf, DispositionOf, EvidenceRoot, RowsOk;
  }

  lemma StoredEnvelope(t: Tables, c: string, n: ShortId)
    requires Inv(t) && c in t.claims && CanAssess(t, c) && n in ViewOf(t, c).envelopes
    ensures n in t.envelopes && HasEnvelope(t, t.envelopes[n]) && t.envelopes[n].claimId == c
    ensures ViewOf(t, c).Envelope(n) == t.envelopes[n].payload.document.envelope
  {
    hide EventsOk;
    assert EnvelopeRowOk(n, t.envelopes[n], t.claims.Keys);
  }

  lemma SealOrigin(calls: seq<Call>, keys: Keys, files: Files, claim: ClaimStatement, n: ShortId) returns (i: nat)
    requires Proposed(calls, claim) && CanAssess(Run(calls), claim.claimId)
    requires n in Now(calls, claim.claimId).envelopes
    requires var v := Now(calls, claim.claimId);
             v.Envelope(n).body == BodyFor(claim.claimId, v, files, v.Envelope(n).body.keyId)
    ensures var v := Now(calls, claim.claimId);
            && i < |calls|
            && SealedAt(calls, i, claim.claimId, Assess(Run(calls), keys, files, claim.claimId).eligibleIds)
            && calls[i].operation.keyId in calls[i].keys && v.Envelope(n).body.keyId == calls[i].operation.keyId
            && v.Envelope(n) == Seal(calls[i].keys[calls[i].operation.keyId], v.Envelope(n).body)
  {
    hide Run, Proposed, Inv, Seals, Seal, BodyFor, AssessView, Perform;
    var t, c := Run(calls), claim.claimId;
    StoredEnvelope(t, c, n);
    EnvelopesWereSealed(calls, t.envelopes[n]);
    i :| 0 <= i < |calls| && Seals(Run(calls[..i]), calls[i], t.envelopes[n]);
    SealsMeans(Run(calls[..i]), calls[i], t.envelopes[n]);
    var call := calls[i];
    SameBodySameEvidence(c, Now(calls, c), files, ViewOf(Run(calls[..i]), c), call.files, keys, call.keys);
  }

  lemma SealsMeans(t: Tables, call: Call, row: EnvelopeRow)
    requires Inv(t) && Seals(t, call, row)
    ensures call.operation.AuthenticateCall?
    ensures var c, k := call.operation.claimId, call.operation.keyId;
            && row.claimId == c && c in t.claims && k in call.keys && CanAssess(t, c) && Perform(t, call).Ok?
            && row.payload.Json? && row.payload.document.EnvelopeDocument?
            && row.payload.document.envelope == Seal(call.keys[k], BodyFor(c, ViewOf(t, c), call.files, k))
            && row.payload.document.envelope.body == BodyFor(c, ViewOf(t, c), call.files, k)
            && row.payload.document.envelope.body.keyId == k
  {
    hide RowsOk, EventsOk, Perform, LevelOf, DispositionOf, EvidenceRoot, EligibleIds, SealedRow;
    SealedRowIs(t, call.keys, call.files, call.operation.claimId, call.operation.keyId);
  }

  lemma SameBodySameEvidence(c: string, v: View, files: Files, v': View, files': Files, keys: Keys, keys': Keys)
    requires v.Readable() && v'.Readable()
    requires exists k :: BodyFor(c, v, files, k) == BodyFor(c, v', files', k)
    ensures AssessView(c, v, keys, files).eligibleIds == AssessView(c, v', keys', files').eligibleIds
  {
    hide LevelOf, DispositionOf, EvidenceRoot, EligibleIds, Listing, AuthenticationOf;
  }

  /** An envelope that signs what the claim shows now comes from a call that sealed the same evidence. */
  lemma SealedNowOrigin(calls: seq<Call>, keys: Keys, files: Files, claim: ClaimStatement) returns (i: nat)
    requires Proposed(calls, claim) && CanAssess(Run(calls), claim.claimId)
    requires SealedNow(Run(calls), keys, files, claim.claimId)
    ensures i < |calls| && IsHeld(keys, calls[i])
    ensures SealedAt(calls, i, claim.claimId, Assess(Run(calls), keys, files, claim.claimId).eligibleIds)
  {
    hide Run, Proposed, SealedAt, BodyFor, AssessView, Seal, SignatureVerifies, IsHeld;
    var c, v := claim.claimId, Now(calls, claim.claimId);
    var n :| n in v.envelopes && v.Envelope(n).body == BodyFor(c, v, files, v.Envelope(n).body.keyId)
             && SignatureVerifies(keys, v.Envelope(n));
    i := SealOrigin(calls, keys, files, claim, n);
    assert calls[i].operation.AuthenticateCall? by {
      SealedByAuthentication(calls, i, c, Assess(Run(calls), keys, files, c).eligibleIds);
    }
    SecretOf(keys, calls[i], v.Envelope(n));
  }

  lemma SealedByAuthentication(calls: seq<Call>, i: nat, c: string, eligible: seq<string>)
    requires i < |calls| && SealedAt(calls, i, c, eligible)
    ensures calls[i].operation.AuthenticateCall?
  {
    hide Run, IsAccepted;
  }

  lemma SealedAgain(calls: seq<Call>, keys: Keys, files: Files, claim: ClaimStatement, i: nat)
    requires Proposed(calls, claim) && CanAssess(Run(calls), claim.claimId) && !IsSuperseded(calls, claim)
    requires i < |calls| && IsHeld(keys, calls[i])
    requires SealedAt(calls, i, claim.claimId, Assess(Run(calls), keys, files, claim.claimId).eligibleIds)
    ensures SealedNow(Run(calls), keys, files, claim.claimId)
  {
    hide Run, Proposed, SealedAt, BodyFor, AssessView, Seal, SignatureVerifies, IsHeld, IsSuperseded;
    var c, v := claim.claimId, Now(calls, claim.claimId);
    var n := SealedEnvelope(calls, keys, files, claim, i);
    SealedByAuthentication(calls, i, c, Assess(Run(calls), keys, files, c).eligibleIds);
    BodyNames(c, v, files, calls[i].operation.keyId);
    SealVerifies(keys, calls[i], v.Envelope(n), BodyFor(c, v, files, calls[i].operation.keyId));
  }

  /**
   A claim shows AUTHENTICATED exactly when it is not superseded and was once authenticated, with the
   evidence eligible that is eligible now, under a key that is held with the same secret.
   */
  lemma AuthenticatedExactly(calls: seq<Call>, keys: Keys, files: Files, claim: ClaimStatement)
    requires Proposed(calls, claim)
    ensures CanAssess(Run(calls), claim.claimId)
    ensures var a := Assess(Run(calls), keys, files, claim.claimId);
            a.authentication == AUTHENTICATED <==>
              && !IsSuperseded(calls, claim)
              && exists i | 0 <= i < |calls| ::
                   SealedAt(calls, i, claim.claimId, a.eligibleIds) && IsHeld(keys, calls[i])
  {
    ProposedIsAssessed(calls, claim);
    hide Run, Proposed, HasClaim, ViewOf, SealedAt, AssessView, IsSuperseded, IsHeld, SealedNow, CanAssess;
    var a := Assess(Run(calls), keys, files, claim.claimId);
    AuthenticatedExactlyWhenSealed(calls, keys, files, claim.claimId);
    DispositionExactly(calls, keys, files, claim);
    if SealedNow(Run(calls), keys, files, claim.claimId) {
      var i := SealedNowOrigin(calls, keys, files, claim);
    }
    if i :| 0 <= i < |calls| && SealedAt(calls, i, claim.claimId, a.eligibleIds) && IsHeld(keys, calls[i])
            && !IsSuperseded(calls, claim) {
      SealedAgain(calls, keys, files, claim, i);
    }
  }

  lemma SecretOf(keys: Keys, call: Call, envelope: Envelope)
    requires call.operation.AuthenticateCall? && call.operation.keyId in call.keys
    requires envelope.body.keyId == call.operation.keyId && SignatureVerifies(keys, envelope)
    requires envelope == Seal(call.keys[call.operation.keyId], envelope.body)
    ensures IsHeld(keys, call)
  {
  }

  lemma SealVerifies(keys: Keys, call: Call, envelope: Envelope, body: SignedBody)
    requires call.operation.AuthenticateCall? && IsHeld(keys, call) && body.keyId == call.operation.keyId
    requires envelope == Seal(call.keys[call.operation.keyId], body)
    ensures envelope.body == body && SignatureVerifies(keys, envelope)
  {
  }

  lemma BodyNames(c: string, v: View, files: Files, keyId: string)
    requires v.Readable()
    ensures BodyFor(c, v, files, keyId).keyId == keyId
  {
    hide LevelOf, DispositionOf, EvidenceRoot, EligibleIds;
  }

  lemma MatchingEnvelope(calls: seq<Call>, keys: Keys, files: Files, c: string) returns (n: ShortId)
    requires c in Run(calls).claims && CanAssess(Run(calls), c)
    requires Assess(Run(calls), keys, files, c).authentication != UNAUTHENTICATED
    ensures var v := Now(calls, c);
            n in v.envelopes && v.Envelope(n).body == BodyFor(c, v, files, v.Envelope(n).body.keyId)
  {
    hide Run, LevelOf, DispositionOf, EvidenceRoot, EligibleIds, SignatureVerifies, BodyFor;
    var v := Now(calls, c);
    n :| n in v.envelopes && Describes(v, files, v.Envelope(n).body);
    EnvelopeOfClaim(Run(calls), c, n);
  }

  lemma MatchedIsNotUnauthenticated(t: Tables, keys: Keys, files: Files, c: string, n: ShortId, keyId: string)
    requires CanAssess(t, c) && n in ViewOf(t, c).envelopes
    requires ViewOf(t, c).Envelope(n).body == BodyFor(c, ViewOf(t, c), files, keyId)
    ensures Assess(t, keys, files, c).authentication != UNAUTHENTICATED
  {
    hide LevelOf, DispositionOf, EvidenceRoot, EligibleIds, SignatureVerifies;
    var v := ViewOf(t, c);
    assert Describes(v, files, v.Envelope(n).body);
    assert AuthenticationOf(v, keys, files) != UNAUTHENTICATED by {
      hide BodyFor, Describes;
      var matching := set m | m in v.envelopes && Describes(v, files, v.Envelope(m).body);
      assert n in matching;
    }
  }

  /** A claim shows UNAUTHENTICATED exactly when nothing was sealed for what it shows now, under whatever key. */
  lemma UnauthenticatedExactly(calls: seq<Call>, keys: Keys, files: Files, claim: ClaimStatement)
    requires Proposed(calls, claim)
    ensures CanAssess(Run(calls), claim.claimId)
    ensures var a := Assess(Run(calls), keys, files, claim.claimId);
            a.authentication == UNAUTHENTICATED <==>
              || IsSuperseded(calls, claim)
              || forall i | 0 <= i < |calls| :: !SealedAt(calls, i, claim.claimId, a.eligibleIds)
  {
    ProposedIsAssessed(calls, claim);
    hide Run, Proposed, HasClaim, SealedAt, AssessView, IsSuperseded, BodyFor, SealedNow;
    var c := claim.claimId;
    var a, v := Assess(Run(calls), keys, files, c), Now(calls, c);
    AuthenticatedExactlyWhenSealed(calls, keys, files, c);
    DispositionExactly(calls, keys, files, claim);
    if a.authentication != UNAUTHENTICATED {
      var n := MatchingEnvelope(calls, keys, files, c);
      var i := SealOrigin(calls, keys, files, claim, n);
    }
    if i :| 0 <= i < |calls| && SealedAt(calls, i, c, a.eligibleIds) && !IsSuperseded(calls, claim) {
      var n := SealedEnvelope(calls, keys, files, claim, i);
      SealedByAuthentication(calls, i, c, a.eligibleIds);
      MatchedIsNotUnauthenticated(Run(calls), keys, files, c, n, calls[i].operation.keyId);
    }
  }

  // ----- which calls are accepted -----

  ghost predicate IsKnown(calls: seq<Call>, c: string) {
    exists claim :: Proposed(calls, claim) && claim.claimId == c
  }

  lemma KnownIsProposed(calls: seq<Call>, c: string)
    ensures c in Run(calls).claims <==> IsKnown(calls, c)
  {
    hide Run, Proposed, RowsOk, EventsOk;
    if c in Run(calls).claims {
      ClaimRowIs(Run(calls), c);
      ClaimsWereProposed(calls, Run(calls).claims[c].payload.document.claim);
    }
    forall claim | Proposed(calls, claim) && claim.claimId == c ensures c in Run(calls).claims {
      ClaimsWereProposed(calls, claim);
    }
  }

  lemma ClaimRowIs(t: Tables, c: string)
    requires RowsOk(t) && c in t.claims
    ensures t.claims[c].payload.Json? && t.claims[c].payload.document.ClaimDocument?
    ensures t.claims[c].payload.document.claim.claimId == c
    ensures t.claims[c] == NewClaimRow(t.claims[c].payload.document.claim)
  {
    assert ClaimRowOk(c, t.claims[c]);
  }

  /** A proposal is accepted when its fields are filled and no other statement was proposed under its id. */
  lemma ProposalAcceptedExactly(calls: seq<Call>, call: Call, claim: ClaimStatement)
    requires call.operation == ProposeCall(claim)
    ensures Answer(calls, call).Ok? <==>
              && claim.schema == Supported
              && HasText(claim.claimId) && HasText(claim.subject) && HasText(claim.assertion)
              && !claim.sourceManifest.NotHex? && !claim.policy.NotHex? && !claim.requiredTestSpec.NotHex?
              && forall other | Proposed(calls, other) && other.claimId == claim.claimId :: other == claim
  {
    hide Run, Proposed, RowsOk, EventsOk, HasText, Assess, Recorded;
    var t := Run(calls);
    forall other ensures Proposed(calls, other) <==> HasClaim(t, other) {
      ClaimsWereProposed(calls, other);
    }
    if claim.claimId in t.claims {
      ClaimRowIs(t, claim.claimId);
      var other := t.claims[claim.claimId].payload.document.claim;
      assert HasClaim(t, other);
    }
  }

  /** The fields that every piece of evidence must have. */
  predicate IsFilled(x: ClaimEvidence) {
    && x.schema == Supported
    && HasText(x.evidenceId) && HasText(x.claimId) && HasText(x.producerId)
    && !x.artifactSha.NotHex? && !x.sourceManifest.NotHex? && !x.policy.NotHex?
    && (x.testSpec.Some? ==> !x.testSpec.value.NotHex?)
  }

  /** Tests name their test and run, replications their origin, and counterevidence a test that failed. */
  predicate IsFilledForKind(x: ClaimEvidence) {
    && (x.kind == TEST_RUN || x.kind == REPLICATION_RUN || x.kind == COUNTEREVIDENCE ==> x.testSpec.Some?)
    && (x.kind == TEST_RUN || x.kind == REPLICATION_RUN ==> x.runId.Some? && x.runId.value != "")
    && (x.kind == REPLICATION_RUN ==> x.independenceKey.Some? && x.independenceKey.value != "")
    && (x.kind == COUNTEREVIDENCE ==> x.outcome == FAILED)
  }

  /** A regular file is at the path, with the stated digest. */
  predicate HasArtifact(files: Files, x: ClaimEvidence) {
    && x.artifactPath in files.resolved && files.resolved[x.artifactPath] in files.contents
    && x.artifactSha == Hex(Sha256(Bytes(files.contents[files.resolved[x.artifactPath]])))
  }

  /**
   Evidence is accepted when its fields are filled as its kind asks, its artifact is there with the stated
   digest, its claim is known, and nothing else was appended under its id; and which error each other case is.
   */
  lemma AppendAcceptedExactly(calls: seq<Call>, call: Call, x: ClaimEvidence)
    requires call.operation == AppendCall(x)
    ensures var r := Answer(calls, call);
            var valid := IsFilled(x) && HasArtifact(call.files, x) && IsFilledForKind(x);
            var alone := forall y | Appended(calls, y) && y.evidenceId == x.evidenceId :: Submits(call, y);
            && (r.Ok? <==> valid && IsKnown(calls, x.claimId) && alone)
            && (r == Err(InvalidValue) <==> !IsFilled(x) || (HasArtifact(call.files, x) && !IsFilledForKind(x)))
            && (r == Err(ArtifactMissing) <==> IsFilled(x) && x.artifactPath !in call.files.resolved)
            && (r == Err(ArtifactMismatch) <==>
                IsFilled(x) && x.artifactPath in call.files.resolved && !HasArtifact(call.files, x))
            && (r == Err(UnknownClaim) <==> valid && !IsKnown(calls, x.claimId))
            && (r == Err(DuplicatePayload) <==> valid && IsKnown(calls, x.claimId) && !alone)
  {
    hide RowsOk, EventsOk, Run, Appended, IsKnown, Validated, IsFilled, IsFilledForKind, HasArtifact, NewEvidenceRow;
    KnownIsProposed(calls, x.claimId);
    ValidatedExactly(x, call.files);
    AppendOutcome(Run(calls), call.keys, call.files, x);
    hide AppendEvidence, Propose, Authenticate, Supersede;
    if Validated(x, call.files).Ok? {
      AloneExactly(calls, x.(artifactPath := call.files.resolved[x.artifactPath]));
      assert forall y :: Submits(call, y) <==> y == x.(artifactPath := call.files.resolved[x.artifactPath]);
    }
    hide Submits;
  }

  lemma AppendOutcome(t: Tables, keys: Keys, files: Files, x: ClaimEvidence)
    requires RowsOk(t)
    ensures var r, checked := AppendEvidence(t, keys, files, x), Validated(x, files);
            if checked.Err? then r == Err(checked.error)
            else if checked.value.claimId !in t.claims then r == Err(UnknownClaim)
            else if checked.value.evidenceId in t.evidence
                    && t.evidence[checked.value.evidenceId].payload != NewEvidenceRow(checked.value).payload
                 then r == Err(DuplicatePayload)
            else r.Ok?
  {
    hide RowsOk, Assess, Recorded, Validated, NewEvidenceRow, CanAssess;
  }

  lemma ValidatedExactly(x: ClaimEvidence, files: Files)
    ensures var r := Validated(x, files);
            && (r.Ok? <==> IsFilled(x) && HasArtifact(files, x) && IsFilledForKind(x))
            && (r.Ok? ==> x.artifactPath in files.resolved
                          && r.value == x.(artifactPath := files.resolved[x.artifactPath]))
            && (r == Err(InvalidValue) <==> !IsFilled(x) || (HasArtifact(files, x) && !IsFilledForKind(x)))
            && (r == Err(ArtifactMissing) <==> IsFilled(x) && x.artifactPath !in files.resolved)
            && (r == Err(ArtifactMismatch) <==>
                IsFilled(x) && x.artifactPath in files.resolved && !HasArtifact(files, x))
            && (r.Err? ==> r.error in {InvalidValue, ArtifactMissing, ArtifactMismatch})
  {
    hide HasText;
  }

  /** Nothing else is stored under the evidence's id. */
  lemma AloneExactly(calls: seq<Call>, x: ClaimEvidence)
    ensures var t := Run(calls);
            (x.evidenceId in t.evidence ==> t.evidence[x.evidenceId].payload == NewEvidenceRow(x).payload) <==>
              forall y | Appended(calls, y) && y.evidenceId == x.evidenceId :: y == x
  {
    hide Run, Appended, RowsOk, EventsOk;
    var t := Run(calls);
    forall y ensures Appended(calls, y) <==> HasEvidence(t, y) {
      EvidenceWasAppended(calls, y);
    }
    if x.evidenceId in t.evidence {
      EvidenceRowIs(t, x.evidenceId);
      assert HasEvidence(t, t.evidence[x.evidenceId].payload.document.evidence);
    }
  }

  lemma EvidenceRowIs(t: Tables, e: string)
    requires RowsOk(t) && e in t.evidence
    ensures t.evidence[e].payload.Json? && t.evidence[e].payload.document.EvidenceDocument?
    ensures t.evidence[e].payload.document.evidence.evidenceId == e
    ensures t.evidence[e] == NewEvidenceRow(t.evidence[e].payload.document.evidence)
  {
    assert EvidenceRowOk(e, t.evidence[e], t.claims.Keys);
  }

  /** A claim can be superseded by another known one, for a reason, once. */
  lemma SupersessionAcceptedExactly(calls: seq<Call>, call: Call, c: string, replacementId: string, reason: string)
    requires call.operation == SupersedeCall(c, replacementId, reason)
    ensures Answer(calls, call).Ok? <==>
              && HasText(reason) && c != replacementId && IsKnown(calls, c) && IsKnown(calls, replacementId)
              && forall r, why | Superseded(calls, c, r, why) :: r == replacementId && why == reason
  {
    hide Run, Superseded, IsKnown, RowsOk, EventsOk, HasText, Assess, Recorded;
    var t := Run(calls);
    KnownIsProposed(calls, c);
    KnownIsProposed(calls, replacementId);
    forall r, why ensures Superseded(calls, c, r, why) <==> HasSupersession(t, c, r, why) {
      SupersessionsWereCalled(calls, c, r, why);
    }
    if c in t.supersessions {
      SupersessionRowIs(t, c);
    }
  }

  lemma KnownClaimIsAuthenticated(calls: seq<Call>, call: Call, claim: ClaimStatement, keyId: string)
    requires call.operation == AuthenticateCall(claim.claimId, keyId) && Proposed(calls, claim)
    ensures Answer(calls, call).Ok? <==>
              && HasText(keyId) && keyId in call.keys
              && !IsSuperseded(calls, claim) && !IsRefuted(calls, call.files, claim)
              && IsReplicated(calls, call.files, claim)
  {
    hide Run, Proposed, RowsOk, EventsOk, HasText, AssessView, Recorded, IsSuperseded, IsRefuted, IsReplicated, BodyFor,
         Seal, NewEnvelopeRow;
    ProposedIsAssessed(calls, claim);
    LevelExactly(calls, call.keys, call.files, claim);
    DispositionExactly(calls, call.keys, call.files, claim);
    var t, c := Run(calls), claim.claimId;
    if keyId in call.keys && ShortId(SealedRow(t, call.keys, call.files, c, keyId).payloadSha) in t.envelopes {
      SameSealedRow(t, call.keys, call.files, c, keyId);
    }
  }

  lemma SameSealedRow(t: Tables, keys: Keys, files: Files, c: string, keyId: string)
    requires RowsOk(t) && c in t.claims && keyId in keys
    requires ShortId(SealedRow(t, keys, files, c, keyId).payloadSha) in t.envelopes
    ensures var row := SealedRow(t, keys, files, c, keyId); t.envelopes[ShortId(row.payloadSha)] == row
  {
    hide RowsOk, BodyFor;
    SameEnvelopeRow(t, SealedRow(t, keys, files, c, keyId));
  }

  /**
   A claim can be authenticated under a held key exactly when it was proposed, is not superseded, not refuted
   by eligible counterevidence, and tested with success by two eligible runs of different origin.
   */
  lemma AuthenticationAcceptedExactly(calls: seq<Call>, call: Call, c: string, keyId: string)
    requires call.operation == AuthenticateCall(c, keyId)
    ensures Answer(calls, call).Ok? <==>
              && HasText(keyId) && keyId in call.keys
              && exists claim ::
                   && Proposed(calls, claim) && claim.claimId == c && !IsSuperseded(calls, claim)
                   && !IsRefuted(calls, call.files, claim) && IsReplicated(calls, call.files, claim)
  {
    hide Run, Proposed, HasText, Authenticate, IsSuperseded, IsRefuted, IsReplicated;
    KnownIsProposed(calls, c);
    forall claim | Proposed(calls, claim) && claim.claimId == c
      ensures Answer(calls, call).Ok? <==>
                && HasText(keyId) && keyId in call.keys && !IsSuperseded(calls, claim)
                && !IsRefuted(calls, call.files, claim) && IsReplicated(calls, call.files, claim)
    {
      KnownClaimIsAuthenticated(calls, call, claim, keyId);
    }
    if !IsKnown(calls, c) {
      UnknownIsRefused(calls, call);
    }
  }

  lemma UnknownIsRefused(calls: seq<Call>, call: Call)
    requires call.operation.AuthenticateCall? && call.operation.claimId !in Run(calls).claims
    ensures Perform(Run(calls), call).Err?
  {
    hide Run, HasText;
  }
}
