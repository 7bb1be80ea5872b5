/** What holds of every claim in every run: authentication, replay, isolation and monotonicity. */
module LedgerTheorems {
  import opened Wrappers
  import opened LedgerData
  import opened LedgerAssessment
  import opened LedgerRuns
  import opened LedgerInvariant
  import opened Merkle
  import opened Ordering
  import opened PlainText

  // ----- authentication -----

  /** Some stored envelope of `c` signs, under a key now held, exactly what `c` shows now. */
  ghost predicate SealedNow(t: Tables, keys: Keys, files: Files, c: string)
    requires CanAssess(t, c)
  {
    var v := ViewOf(t, c);
    exists n | n in v.envelopes ::
      && v.Envelope(n).body == BodyFor(c, v, files, v.Envelope(n).body.keyId)
      && SignatureVerifies(keys, v.Envelope(n))
  }

  lemma EnvelopeOfClaim(t: Tables, c: string, n: ShortId)
    requires RowsOk(t) && CanAssess(t, c) && n in ViewOf(t, c).envelopes
    ensures var body := ViewOf(t, c).Envelope(n).body;
            body.claimId == c && body.level == REPLICATED && body.disposition == ACTIVE
  {
    assert EnvelopeRowOk(n, t.envelopes[n], t.claims.Keys);
  }

  lemma AuthenticationMeansSealed(t: Tables, keys: Keys, files: Files, c: string)
    requires RowsOk(t) && CanAssess(t, c)
    ensures Assess(t, keys, files, c).authentication == AUTHENTICATED <==> SealedNow(t, keys, files, c)
  {
    hide RowsOk, LevelOf, DispositionOf, EvidenceRoot, SignatureVerifies;
    var v := ViewOf(t, c);
    var matching := set n | n in v.envelopes && Describes(v, files, v.Envelope(n).body);
    forall n | n in v.envelopes
      ensures n in matching <==> v.Envelope(n).body == BodyFor(c, v, files, v.Envelope(n).body.keyId)
    {
      EnvelopeOfClaim(t, c, n);
    }
  }

  /** AUTHENTICATED is exactly "sealed now", and is only ever shown by a REPLICATED, ACTIVE claim. */
  lemma AuthenticatedExactlyWhenSealed(calls: seq<Call>, keys: Keys, files: Files, c: string)
    requires c in Run(calls).claims
    ensures var t := Run(calls);
            && CanAssess(t, c)
            && var a := Assess(t, keys, files, c);
            && (a.authentication == AUTHENTICATED <==> SealedNow(t, keys, files, c))
            && (a.authentication != UNAUTHENTICATED ==> a.level == REPLICATED && a.disposition == ACTIVE)
            && (a.display == Authenticated <==> a.authentication == AUTHENTICATED)
  {
    hide Run, RowsOk, EventsOk, LevelOf, DispositionOf, EvidenceRoot, SignatureVerifies;
    var t := Run(calls);
    ReadableView(t, c);
    AuthenticationMeansSealed(t, keys, files, c);
    var v := ViewOf(t, c);
    forall n | n in v.envelopes && Describes(v, files, v.Envelope(n).body)
      ensures LevelOf(Eligible(v, files)) == REPLICATED && DispositionOf(v, files) == ACTIVE
    {
      EnvelopeOfClaim(t, c, n);
    }
  }

  /** A set of eligible evidence that no envelope lists leaves the claim unauthenticated. */
  lemma UnsealedEvidenceIsUnauthenticated(t: Tables, keys: Keys, files: Files, c: string)
    requires CanAssess(t, c)
    requires forall n | n in ViewOf(t, c).envelopes ::
               Elements(ViewOf(t, c).Envelope(n).body.evidenceIds) != EligibleIds(ViewOf(t, c), files)
    ensures Assess(t, keys, files, c).authentication == UNAUTHENTICATED
  {
    hide LevelOf, DispositionOf, EvidenceRoot, EligibleIds;
    var v := ViewOf(t, c);
    forall n | n in v.envelopes ensures !Describes(v, files, v.Envelope(n).body) {
      assert Elements(BodyFor(c, v, files, "").evidenceIds) == EligibleIds(v, files);
    }
  }

  lemma RecordsStaySame(a: map<string, EvidenceRow>, b: map<string, EvidenceRow>, ids: seq<string>)
    requires SubMap(a, b) && forall e | e in ids :: e in a
    ensures RecordsOf(a, ids) == RecordsOf(b, ids)
  {
  }

  lemma ViewsGrow(t: Tables, t': Tables, c: string)
    requires Extends(t, t') && c in t.claims
    ensures c in t'.claims && ViewOf(t', c).claim == ViewOf(t, c).claim
    ensures SubMap(ViewOf(t, c).evidence, ViewOf(t', c).evidence)
    ensures SubMap(ViewOf(t, c).envelopes, ViewOf(t', c).envelopes)
    ensures ViewOf(t, c).replacement.Some? ==> ViewOf(t', c).replacement == ViewOf(t, c).replacement
  {
  }

  lemma EligibleEvidenceGrows(t: Tables, t': Tables, files: Files, c: string)
    requires Extends(t, t') && CanAssess(t, c) && CanAssess(t', c)
    ensures EligibleIds(ViewOf(t, c), files) <= EligibleIds(ViewOf(t', c), files)
    ensures Eligible(ViewOf(t, c), files) <= Eligible(ViewOf(t', c), files)
  {
    ViewsGrow(t, t', c);
    hide ViewOf, Extends, ArtifactMatches, BindingMatches;
  }

  lemma SameIdsSameBody(v: View, v': View, files: Files, files': Files, c: string, keyId: string)
    requires v.Readable() && v'.Readable() && v'.claim == v.claim && v'.replacement == v.replacement
    requires SubMap(v.evidence, v'.evidence)
    requires EligibleIds(v', files') == EligibleIds(v, files)
    ensures BodyFor(c, v', files', keyId) == BodyFor(c, v, files, keyId)
  {
    SameIdsSameRoot(v, v', files, files');
    hide EligibleIds, EvidenceRoot, Listing, LevelOf, IsRejected;
    assert Eligible(v', files') == Eligible(v, files) by {
      EligibleAreRows(v, files);
      forall e | e in EligibleIds(v, files) ensures v'.Evidence(e) == v.Evidence(e) {}
    }
  }

  lemma EligibleAreRows(v: View, files: Files)
    requires v.Readable()
    ensures EligibleIds(v, files) <= v.evidence.Keys
  {
  }

  lemma SameIdsSameRoot(v: View, v': View, files: Files, files': Files)
    requires v.Readable() && v'.Readable() && SubMap(v.evidence, v'.evidence)
    requires EligibleIds(v', files') == EligibleIds(v, files)
    ensures EvidenceRoot(v', files') == EvidenceRoot(v, files)
  {
    var ids := Listing(EligibleIds(v, files));
    assert forall e | e in ids :: e in Elements(ids);
    EligibleAreRows(v, files);
    hide EligibleIds, MerkleRoot, Listing, StrictlySorted;
    RecordsStaySame(v.evidence, v'.evidence, ids);
  }

  /**
   Restoring the eligible set restores the authentication: however the ledger grew and the
   files changed in between, as long as the claim was not superseded.
   */
  lemma RestoredEvidenceIsAuthenticatedAgain(t: Tables, t': Tables, keys: Keys, files: Files, files': Files, c: string)
    requires Inv(t) && Inv(t') && Extends(t, t') && CanAssess(t, c) && CanAssess(t', c)
    requires Assess(t, keys, files, c).authentication == AUTHENTICATED
    requires c !in t'.supersessions
    requires EligibleIds(ViewOf(t', c), files') == EligibleIds(ViewOf(t, c), files)
    ensures Assess(t', keys, files', c).authentication == AUTHENTICATED
  {
    hide RowsOk, EventsOk, Assess, SealedNow, EligibleIds, CanAssess;
    AuthenticationMeansSealed(t, keys, files, c);
    AuthenticationMeansSealed(t', keys, files', c);
    SealSurvives(t, t', keys, files, files', c);
  }

  lemma SealSurvives(t: Tables, t': Tables, keys: Keys, files: Files, files': Files, c: string)
    requires Extends(t, t') && CanAssess(t, c) && CanAssess(t', c)
    requires c !in t'.supersessions && SealedNow(t, keys, files, c)
    requires EligibleIds(ViewOf(t', c), files') == EligibleIds(ViewOf(t, c), files)
    ensures SealedNow(t', keys, files', c)
  {
    ViewsGrow(t, t', c);
    var v, v' := ViewOf(t, c), ViewOf(t', c);
    assert v.replacement == None && v'.replacement == None by {
      assert c in t.supersessions ==> c in t'.supersessions;
    }
    hide Extends, ViewOf, BodyFor, EligibleIds, SignatureVerifies;
    var n :| n in v.envelopes && v.Envelope(n).body == BodyFor(c, v, files, v.Envelope(n).body.keyId)
             && SignatureVerifies(keys, v.Envelope(n));
    assert n in v'.envelopes && v'.Envelope(n) == v.Envelope(n);
    SameIdsSameBody(v, v', files, files', c, v.Envelope(n).body.keyId);
  }

  // ----- monotonicity -----

  /** With the files fixed, more rows never lower the level nor move the disposition back. */
  lemma LevelAndDispositionOnlyAdvance(t: Tables, t': Tables, keys: Keys, keys': Keys, files: Files, c: string)
    requires Extends(t, t') && CanAssess(t, c) && CanAssess(t', c)
    ensures Rank(Assess(t, keys, files, c).level) <= Rank(Assess(t', keys', files, c).level)
    ensures Stage(Assess(t, keys, files, c).disposition) <= Stage(Assess(t', keys', files, c).disposition)
  {
    hide Extends, ViewOf, Eligible, LevelOf, IsRejected, AuthenticationOf, EvidenceRoot, EligibleIds;
    EligibleEvidenceGrows(t, t', files, c);
    ViewsGrow(t, t', c);
    LevelIsMonotone(Eligible(ViewOf(t, c), files), Eligible(ViewOf(t', c), files));
  }

  /** A superseded claim stays superseded by the same claim, whatever happens to the files. */
  lemma SupersededForever(t: Tables, t': Tables, keys: Keys, keys': Keys, files: Files, files': Files, c: string)
    requires Extends(t, t') && CanAssess(t, c) && CanAssess(t', c)
    requires Assess(t, keys, files, c).disposition == SUPERSEDED
    ensures Assess(t', keys', files', c).disposition == SUPERSEDED
    ensures Assess(t', keys', files', c).display == Superseded
    ensures Assess(t', keys', files', c).supersededBy == Assess(t, keys, files, c).supersededBy
  {
    ViewsGrow(t, t', c);
    hide Extends, ViewOf, Eligible, LevelOf, IsRejected, AuthenticationOf, EvidenceRoot, EligibleIds;
  }

  /** Later tables of a run extend earlier ones, so the three lemmas above speak of every run. */
  lemma {:induction false} RunsExtend(calls: seq<Call>, n: nat)
    requires n <= |calls|
    ensures Extends(Run(calls[..n]), Run(calls))
  {
    hide Inv, After;
    if n == |calls| {
      assert calls[..n] == calls;
      ExtendsIsReflexive(Run(calls));
    } else {
      var before := calls[..|calls| - 1];
      RunsExtend(before, n);
      assert before[..n] == calls[..n];
      CallKeepsInv(Run(before), calls[|calls| - 1]);
      ExtendsIsTransitive(Run(calls[..n]), Run(before), Run(calls));
    }
  }

  lemma ExtendsIsReflexive(t: Tables)
    ensures Extends(t, t)
  {
  }

  lemma ExtendsIsTransitive(a: Tables, b: Tables, c: Tables)
    requires Extends(a, b) && Extends(b, c)
    ensures Extends(a, c)
  {
  }

  // ----- isolation -----

  /** A call about another claim changes neither this claim's assessment nor its events. */
  lemma OtherClaimsAreUntouched(t: Tables, call: Call, keys: Keys, files: Files, c: string)
    requires Inv(t) && c in t.claims && call.operation.Subject() != c
    ensures CanAssess(t, c) && CanAssess(After(t, call), c)
    ensures Assess(After(t, call), keys, files, c) == Assess(t, keys, files, c)
    ensures EventsOf(After(t, call), c) == EventsOf(t, c)
  {
    hide Inv, Perform, Assess, CanAssess, EventsOf, Records;
    KnownClaimIsAssessed(t, c);
    if Perform(t, call).Ok? {
      AcceptedCallRecords(t, call);
      var t' := Perform(t, call).value.tables;
      if t' != t {
        RecordsLeavesOthers(t, t', call, keys, files, c);
      }
    }
  }

  lemma KnownClaimIsAssessed(t: Tables, c: string)
    requires Inv(t) && c in t.claims
    ensures RowsOk(t) && CanAssess(t, c)
  {
    hide EventsOk, RowCount;
    ReadableView(t, c);
  }

  lemma RecordsLeavesOthers(t: Tables, t': Tables, call: Call, keys: Keys, files: Files, c: string)
    requires Records(t, t', call.keys, call.files, call.operation.Subject())
    requires call.operation.Subject() != c && CanAssess(t, c)
    ensures CanAssess(t', c) && Assess(t', keys, files, c) == Assess(t, keys, files, c)
    ensures EventsOf(t', c) == EventsOf(t, c)
  {
    hide Extends, ViewOf, AssessView, LastAssessment;
    assert Inv(t') ==> t'.events.Keys == t'.claims.Keys;
    hide Inv;
  }

  // ----- the last event -----

  /** The claim's last event holds what an assessment with these keys and files returns. */
  ghost predicate LastEventIsCurrent(t: Tables, keys: Keys, files: Files, c: string) {
    CanAssess(t, c) && LastAssessment(EventsOf(t, c)) == Some(Assess(t, keys, files, c))
  }

  lemma CallKeepsLastEventCurrent(t: Tables, call: Call, keys: Keys, files: Files, c: string)
    requires Inv(t)
    requires c in t.claims ==> LastEventIsCurrent(t, keys, files, c)
    requires call.operation.Subject() == c ==> call.keys == keys && call.files == files
    requires c in After(t, call).claims
    ensures LastEventIsCurrent(After(t, call), keys, files, c)
  {
    if c in t.claims && call.operation.Subject() != c {
      OtherClaimsAreUntouched(t, call, keys, files, c);
    }
    hide Perform, RowsOk, EventsOk, Assess, CanAssess, ViewOf, LastAssessment;
    if Perform(t, call).Ok? {
      AcceptedCallRecords(t, call);
    }
  }

  /** A call that changes the tables leaves an event that holds the assessment it made. */
  lemma ChangingCallRecordsAssessment(t: Tables, call: Call)
    requires Inv(t) && Perform(t, call).Ok? && After(t, call) != t
    ensures LastEventIsCurrent(After(t, call), call.keys, call.files, call.operation.Subject())
  {
    hide Perform, RowsOk, EventsOk, Assess, CanAssess, ViewOf, LastAssessment;
    AcceptedCallRecords(t, call);
  }

  lemma {:induction false} RunsConcatenate(calls: seq<Call>, call: Call)
    ensures Run(calls + [call]) == After(Run(calls), call)
  {
    assert (calls + [call])[..|calls|] == calls;
  }

  /**
   From any call that changes the tables on, as long as later calls about its claim see its keys
   and files, the claim's last event is what `assess` returns under them. Calls before it, and
   calls about other claims, may see anything.
   */
  lemma {:induction false} LastEventEqualsAssess(calls: seq<Call>, call: Call, later: seq<Call>)
    requires Perform(Run(calls), call).Ok? && After(Run(calls), call) != Run(calls)
    requires forall l | l in later ::
               l.operation.Subject() == call.operation.Subject() ==> l.keys == call.keys && l.files == call.files
    ensures LastEventIsCurrent(Run(calls + [call] + later), call.keys, call.files, call.operation.Subject())
    decreases |later|
  {
    hide Inv, After, LastEventIsCurrent, Perform, Run;
    if later == [] {
      ChangingCallRecordsAssessment(Run(calls), call);
      RunsConcatenate(calls, call);
      assert calls + [call] + later == calls + [call];
    } else {
      var before, last := later[..|later| - 1], later[|later| - 1];
      assert last in later && forall l | l in before :: l in later;
      LastEventEqualsAssess(calls, call, before);
      RunsConcatenate(calls + [call] + before, last);
      assert calls + [call] + before + [last] == calls + [call] + later;
      CurrentClaimIsKnown(Run(calls + [call] + before), last, call.keys, call.files, call.operation.Subject());
      CallKeepsLastEventCurrent(Run(calls + [call] + before), last, call.keys, call.files, call.operation.Subject());
    }
  }

  lemma CurrentClaimIsKnown(t: Tables, call: Call, keys: Keys, files: Files, c: string)
    requires Inv(t) && LastEventIsCurrent(t, keys, files, c)
    ensures c in t.claims && c in After(t, call).claims
  {
    CallKeepsInv(t, call);
    hide Inv, After, Assess, LastAssessment;
  }

  // ----- replay -----

  lemma ProposeReplays(t: Tables, keys: Keys, files: Files, claim: ClaimStatement)
    requires Inv(t) && Propose(t, keys, files, claim).Ok?
    ensures var t' := Propose(t, keys, files, claim).value.tables;
            RowsOk(t') ==> Propose(t', keys, files, claim).Ok? && Propose(t', keys, files, claim).value.tables == t'
  {
    hide RowsOk, EventsOk, Assess, HasText, NewEventRow;
  }

  lemma AppendReplays(t: Tables, keys: Keys, files: Files, e: ClaimEvidence)
    requires Inv(t) && AppendEvidence(t, keys, files, e).Ok?
    ensures var t' := AppendEvidence(t, keys, files, e).value.tables;
            RowsOk(t') ==>
                AppendEvidence(t', keys, files, e).Ok? && AppendEvidence(t', keys, files, e).value.tables == t'
  {
    hide RowsOk, EventsOk, Assess, Validated, NewEventRow;
  }

  lemma SupersedeReplays(t: Tables, keys: Keys, files: Files, c: string, replacementId: string, reason: string)
    requires Inv(t) && Supersede(t, keys, files, c, replacementId, reason).Ok?
    ensures var t' := Supersede(t, keys, files, c, replacementId, reason).value.tables;
            RowsOk(t') ==> Supersede(t', keys, files, c, replacementId, reason).Ok?
                           && Supersede(t', keys, files, c, replacementId, reason).value.tables == t'
  {
    hide RowsOk, EventsOk, Assess, HasText, NewEventRow;
  }

  /** Sealing a claim does not change what the next seal would sign. */
  lemma SealingKeepsBody(t: Tables, t': Tables, files: Files, c: string, keyId: string)
    requires CanAssess(t, c) && CanAssess(t', c) && t'.claims == t.claims && t'.evidence == t.evidence
    requires t'.supersessions == t.supersessions
    ensures BodyFor(c, ViewOf(t', c), files, keyId) == BodyFor(c, ViewOf(t, c), files, keyId)
  {
    var v, v' := ViewOf(t, c), ViewOf(t', c);
    assert EligibleIds(v', files) == EligibleIds(v, files);
    hide EligibleIds;
    SameIdsSameBody(v, v', files, files, c, keyId);
  }

  lemma SealIsAllowed(t: Tables, keys: Keys, files: Files, c: string, keyId: string)
    requires RowsOk(t) && Authenticate(t, keys, files, c, keyId).Ok?
    ensures HasText(keyId) && keyId in keys && c in t.claims && CanAssess(t, c)
    ensures Assess(t, keys, files, c).level == REPLICATED && Assess(t, keys, files, c).disposition == ACTIVE
  {
    ReadableView(t, c);
    hide RowsOk, Assess, HasText, BodyFor, ViewOf, Seal, NewEnvelopeRow, Recorded, CanAssess;
  }

  /** An accepted seal is stored, and nothing but envelopes and events changes. */
  lemma SealIsStored(t: Tables, keys: Keys, files: Files, c: string, keyId: string)
    requires RowsOk(t) && CanAssess(t, c) && Authenticate(t, keys, files, c, keyId).Ok? && keyId in keys
    ensures var t' := Authenticate(t, keys, files, c, keyId).value.tables;
            var row := NewEnvelopeRow(Seal(keys[keyId], BodyFor(c, ViewOf(t, c), files, keyId)));
            && t'.claims == t.claims && t'.evidence == t.evidence && t'.supersessions == t.supersessions
            && ShortId(row.payloadSha) in t'.envelopes && t'.envelopes[ShortId(row.payloadSha)].payload == row.payload
  {
    hide RowsOk, Assess, HasText, BodyFor, ViewOf, Seal, NewEnvelopeRow, NewEventRow, EventsOf, CanAssess;
  }

  lemma AuthenticateReplays(t: Tables, keys: Keys, files: Files, c: string, keyId: string)
    requires Inv(t) && Authenticate(t, keys, files, c, keyId).Ok?
    ensures var t' := Authenticate(t, keys, files, c, keyId).value.tables;
            RowsOk(t') ==> Authenticate(t', keys, files, c, keyId).Ok?
                           && Authenticate(t', keys, files, c, keyId).value.tables == t'
  {
    var t' := Authenticate(t, keys, files, c, keyId).value.tables;
    SealIsAllowed(t, keys, files, c, keyId);
    SealIsStored(t, keys, files, c, keyId);
    if RowsOk(t') {
      ReadableView(t, c);
      BodyShowsAssessment(t, keys, files, c, keyId);
      ReadableView(t', c);
      BodyShowsAssessment(t', keys, files, c, keyId);
      hide Inv, RowsOk, Assess, HasText, Recorded, BodyFor, ViewOf, CanAssess, Seal, NewEnvelopeRow;
      SealingKeepsBody(t, t', files, c, keyId);
    }
  }

  lemma BodyShowsAssessment(t: Tables, keys: Keys, files: Files, c: string, keyId: string)
    requires CanAssess(t, c)
    ensures BodyFor(c, ViewOf(t, c), files, keyId).level == Assess(t, keys, files, c).level
    ensures BodyFor(c, ViewOf(t, c), files, keyId).disposition == Assess(t, keys, files, c).disposition
  {
  }

  /** Repeating an accepted call under the same keys and files is accepted and adds nothing. */
  lemma ReplayAddsNothing(t: Tables, call: Call)
    requires Inv(t) && Perform(t, call).Ok?
    ensures var t' := After(t, call);
            Inv(t') && Perform(t', call).Ok? && After(t', call) == t'
            && Perform(t', call).value.assessment == Perform(t, call).value.assessment
  {
    CallKeepsInv(t, call);
    ResultIsAssessment(t, call);
    CallReplays(t, call);
    ResultIsAssessment(After(t, call), call);
    hide Inv, Perform, Assess, CanAssess;
  }

  lemma CallReplays(t: Tables, call: Call)
    requires Inv(t) && Perform(t, call).Ok? && RowsOk(After(t, call))
    ensures Perform(After(t, call), call).Ok? && After(After(t, call), call) == After(t, call)
  {
    match call.operation
    case ProposeCall(claim) =>
      ProposeReplays(t, call.keys, call.files, claim);
      hide Inv, RowsOk, Propose;
    case AppendCall(evidence) =>
      AppendReplays(t, call.keys, call.files, evidence);
      hide Inv, RowsOk, AppendEvidence;
    case AuthenticateCall(c, keyId) =>
      AuthenticateReplays(t, call.keys, call.files, c, keyId);
      hide Inv, RowsOk, Authenticate;
    case SupersedeCall(c, r, reason) =>
      SupersedeReplays(t, call.keys, call.files, c, r, reason);
      hide Inv, RowsOk, Supersede;
  }

  /** What a call returns is the assessment of the tables it leaves behind. */
  lemma ResultIsAssessment(t: Tables, call: Call)
    requires Inv(t) && Perform(t, call).Ok?
    ensures var r, c := Perform(t, call).value, call.operation.Subject();
            && CanAssess(r.tables, c) && r.assessment == Assess(r.tables, call.keys, call.files, c)
  {
    match call.operation
    case ProposeCall(claim) =>
      ProposeAssesses(t, call.keys, call.files, claim);
      hide Inv, RowsOk, Propose, Assess, CanAssess;
    case AppendCall(evidence) =>
      AppendAssesses(t, call.keys, call.files, evidence);
      hide Inv, RowsOk, AppendEvidence, Assess, CanAssess;
    case AuthenticateCall(c, keyId) =>
      AuthenticateAssesses(t, call.keys, call.files, c, keyId);
      hide Inv, RowsOk, Authenticate, Assess, CanAssess;
    case SupersedeCall(c, r, reason) =>
      SupersedeAssesses(t, call.keys, call.files, c, r, reason);
      hide Inv, RowsOk, Supersede, Assess, CanAssess;
  }

  lemma ProposeAssesses(t: Tables, keys: Keys, files: Files, claim: ClaimStatement)
    requires RowsOk(t) && Propose(t, keys, files, claim).Ok?
    ensures var r := Propose(t, keys, files, claim).value;
            CanAssess(r.tables, claim.claimId) && r.assessment == Assess(r.tables, keys, files, claim.claimId)
  {
    if claim.claimId in t.claims {
      ReadableView(t, claim.claimId);
    }
    hide RowsOk, Assess, Recorded, HasText, NewSupersessionRow, CanAssess;
  }

  lemma AppendAssesses(t: Tables, keys: Keys, files: Files, e: ClaimEvidence)
    requires RowsOk(t) && AppendEvidence(t, keys, files, e).Ok?
    ensures var r := AppendEvidence(t, keys, files, e).value;
            CanAssess(r.tables, e.claimId) && r.assessment == Assess(r.tables, keys, files, e.claimId)
  {
    hide RowsOk, Assess, Recorded, Validated, NewEvidenceRow, CanAssess;
    ValidatedKeepsIds(e, files);
    if e.claimId in t.claims {
      ReadableView(t, e.claimId);
    }
  }

  lemma AuthenticateAssesses(t: Tables, keys: Keys, files: Files, c: string, keyId: string)
    requires RowsOk(t) && Authenticate(t, keys, files, c, keyId).Ok?
    ensures var r := Authenticate(t, keys, files, c, keyId).value;
            CanAssess(r.tables, c) && r.assessment == Assess(r.tables, keys, files, c)
  {
    ReadableView(t, c);
    hide RowsOk, Assess, Recorded, HasText, BodyFor, NewEnvelopeRow, Seal, CanAssess;
  }

  lemma SupersedeAssesses(t: Tables, keys: Keys, files: Files, c: string, replacementId: string, reason: string)
    requires RowsOk(t) && Supersede(t, keys, files, c, replacementId, reason).Ok?
    ensures var r := Supersede(t, keys, files, c, replacementId, reason).value;
            CanAssess(r.tables, c) && r.assessment == Assess(r.tables, keys, files, c)
  {
    ReadableView(t, c);
    hide RowsOk, Assess, Recorded, HasText, NewSupersessionRow, CanAssess;
  }

  lemma ValidatedKeepsIds(e: ClaimEvidence, files: Files)
    ensures Validated(e, files).Ok? ==>
              var v := Validated(e, files).value;
              v.evidenceId == e.evidenceId && v.claimId == e.claimId
  {
  }

  // ----- order of appends -----

  /** The rows an accepted append leaves: those before it, plus the checked evidence. */
  lemma AppendedRows(t: Tables, keys: Keys, files: Files, e: ClaimEvidence)
    requires RowsOk(t) && Validated(e, files).Ok?
    ensures var v := Validated(e, files).value;
            && (AppendEvidence(t, keys, files, e).Ok? <==>
                v.claimId in t.claims
                  && (v.evidenceId in t.evidence ==> t.evidence[v.evidenceId].payload == NewEvidenceRow(v).payload))
            && (AppendEvidence(t, keys, files, e).Ok? ==>
                SameRows(AppendEvidence(t, keys, files, e).value.tables,
                         if v.evidenceId in t.evidence then t
                         else t.(evidence := t.evidence[v.evidenceId := NewEvidenceRow(v)])))
  {
    hide RowsOk, Assess, NewEventRow, NewEvidenceRow, Validated;
  }

  ghost predicate SameRows(t: Tables, t': Tables) {
    t'.claims == t.claims && t'.evidence == t.evidence && t'.supersessions == t.supersessions
      && t'.envelopes == t.envelopes
  }

  /** Assessments read only the rows: equal row sets assess equally, whatever the event history. */
  lemma RowsDetermineAssessment(t: Tables, t': Tables, keys: Keys, files: Files, c: string)
    requires SameRows(t, t') && CanAssess(t, c)
    ensures CanAssess(t', c) && Assess(t', keys, files, c) == Assess(t, keys, files, c)
  {
    hide AssessView;
    assert ViewOf(t', c) == ViewOf(t, c);
  }

  /** Event ids never collide, so inserting an event is never refused by its primary key. */
  lemma EventIdsAreUnique(calls: seq<Call>, c: string, d: string, i: nat, j: nat)
    requires c in Run(calls).events && d in Run(calls).events
    requires i < |Run(calls).events[c]| && j < |Run(calls).events[d]|
    requires Run(calls).events[c][i].eventId == Run(calls).events[d][j].eventId
    ensures c == d && i == j
  {
    hide Run, RowsOk, RowCount, InventoryOk;
    var t := Run(calls);
    assert EventsOk(t, c) && EventsOk(t, d);
    assert EventOk(t.evidence, t.claims[c].payloadSha, c, t.events[c], i);
    assert EventOk(t.evidence, t.claims[d].payloadSha, d, t.events[d], j);
  }

  /** One event per row: the proposal, each evidence row, each envelope, and the supersession. */
  lemma EventCountIsRowCount(calls: seq<Call>, c: string)
    requires c in Run(calls).claims
    ensures c in Run(calls).events && |Run(calls).events[c]| == RowCount(ViewOf(Run(calls), c))
  {
    hide Run, RowsOk, RowCount, ChainOk;
    assert EventsOk(Run(calls), c);
  }
}
