/**
 The four ledger operations as steps on the tables, and what every run of them keeps.
 A call that raises leaves the tables as they were.
 */
module LedgerRuns {
  import opened Wrappers
  import opened LedgerData
  import opened LedgerAssessment
  import opened Merkle
  import opened Ordering
  import opened PlainText

  // ----- validation -----

  datatype Failure =
    | InvalidValue | ArtifactMissing | ArtifactMismatch | UnknownClaim | DuplicatePayload | TransitionRefused

  predicate IsDigest(text: DigestText) {
    !text.NotHex?
  }

  predicate ValidClaim(claim: ClaimStatement) {
    && claim.schema == Supported
    && HasText(claim.claimId) && HasText(claim.subject) && HasText(claim.assertion)
    && IsDigest(claim.sourceManifest) && IsDigest(claim.policy) && IsDigest(claim.requiredTestSpec)
  }

  predicate WellFormedEvidence(e: ClaimEvidence) {
    && e.schema == Supported
    && HasText(e.evidenceId) && HasText(e.claimId) && HasText(e.producerId)
    && IsDigest(e.artifactSha) && IsDigest(e.sourceManifest) && IsDigest(e.policy)
    && (e.testSpec.Some? ==> IsDigest(e.testSpec.value))
  }

  predicate MeetsKindRules(e: ClaimEvidence) {
    && (e.kind in {TEST_RUN, REPLICATION_RUN} ==> e.testSpec.Some? && Truthy(e.runId))
    && (e.kind == REPLICATION_RUN ==> Truthy(e.independenceKey))
    && (e.kind == COUNTEREVIDENCE ==> e.outcome == FAILED && e.testSpec.Some?)
  }

  /** Checks the evidence against the files now present, and stores the resolved path. */
  function Validated(e: ClaimEvidence, files: Files): Result<ClaimEvidence, Failure> {
    if !WellFormedEvidence(e) then Err(InvalidValue)
    else if e.artifactPath !in files.resolved then Err(ArtifactMissing)
    else
      var artifact := files.resolved[e.artifactPath];
      if artifact !in files.contents then Err(ArtifactMismatch)
      else if e.artifactSha != Hex(Sha256(Bytes(files.contents[artifact]))) then Err(ArtifactMismatch)
      else if !MeetsKindRules(e) then Err(InvalidValue)
      else Ok(e.(artifactPath := artifact))
  }

  // ----- rows -----

  function NewClaimRow(claim: ClaimStatement): ClaimRow {
    var payload := Canonical(ClaimDocument(claim));
    ClaimRow(ShaOfText(payload), payload)
  }

  function NewEvidenceRow(e: ClaimEvidence): EvidenceRow {
    var payload := Canonical(EvidenceDocument(e));
    EvidenceRow(e.claimId, ShaOfText(payload), payload)
  }

  function NewSupersessionRow(c: string, replacementId: string, reason: string): SupersessionRow {
    var payload := Canonical(SupersessionDocument(c, replacementId, reason));
    SupersessionRow(replacementId, ShaOfText(payload), payload)
  }

  function Seal(secret: Secret, body: SignedBody): Envelope {
    Envelope(body, Hmac(secret, Canonical(SignedBodyDocument(body))))
  }

  function NewEnvelopeRow(envelope: Envelope): EnvelopeRow {
    var payload := Canonical(EnvelopeDocument(envelope));
    EnvelopeRow(envelope.body.claimId, ShaOfText(payload), payload)
  }

  function EventsOf(t: Tables, c: string): seq<EventRow> {
    if c in t.events then t.events[c] else []
  }

  function NewEventRow(t: Tables, a: ClaimAssessment, kind: ActionKind, actionId: ActionId): EventRow
    requires a.claimId in t.claims
  {
    var rows := EventsOf(t, a.claimId);
    var sequence := if rows == [] then 1 else rows[|rows| - 1].sequence + 1;
    var previous := if rows == [] then None else Some(rows[|rows| - 1].eventSha);
    var payload :=
      Canonical(EventDocument(EventBody(t.claims[a.claimId].payloadSha, sequence, previous, kind, actionId, a)));
    EventRow(ShortId(ShaOfText(payload)), a.claimId, sequence, previous, ShaOfText(payload), payload)
  }

  function AppendEvent(t: Tables, a: ClaimAssessment, kind: ActionKind, actionId: ActionId): Tables
    requires a.claimId in t.claims
  {
    t.(events := t.events[a.claimId := EventsOf(t, a.claimId) + [NewEventRow(t, a, kind, actionId)]])
  }

  // ----- operations -----

  datatype Outcome = Outcome(tables: Tables, assessment: ClaimAssessment)

  /** Insert has happened: assess, and chain the assessment to the claim's events. */
  function Recorded(t: Tables, keys: Keys, files: Files, c: string, kind: ActionKind, actionId: ActionId): (o: Outcome)
    requires CanAssess(t, c)
    ensures CanAssess(o.tables, c) && o.assessment == Assess(o.tables, keys, files, c)
  {
    var a := Assess(t, keys, files, c);
    var t' := AppendEvent(t, a, kind, actionId);
    assert ViewOf(t', c) == ViewOf(t, c);
    Outcome(t', a)
  }

  function Propose(t: Tables, keys: Keys, files: Files, claim: ClaimStatement): Result<Outcome, Failure>
    requires RowsOk(t)
  {
    var c := claim.claimId;
    if !ValidClaim(claim) then Err(InvalidValue)
    else
      var row := NewClaimRow(claim);
      if c in t.claims then
        if t.claims[c].payload != row.payload then Err(DuplicatePayload)
        else Ok(Outcome(t, Assess(t, keys, files, c)))
      else
        Ok(Recorded(t.(claims := t.claims[c := row]), keys, files, c, CLAIM_PROPOSED, OfDigest(row.payloadSha)))
  }

  function AppendEvidence(t: Tables, keys: Keys, files: Files, evidence: ClaimEvidence): Result<Outcome, Failure>
    requires RowsOk(t)
  {
    var checked := Validated(evidence, files);
    if checked.Err? then Err(checked.error)
    else
      var e := checked.value;
      var row := NewEvidenceRow(e);
      if e.claimId !in t.claims then Err(UnknownClaim)
      else if e.evidenceId in t.evidence then
        if t.evidence[e.evidenceId].payload != row.payload then Err(DuplicatePayload)
        else Ok(Outcome(t, Assess(t, keys, files, e.claimId)))
      else
        Ok(Recorded(t.(evidence := t.evidence[e.evidenceId := row]), keys, files, e.claimId,
                    EVIDENCE_APPENDED, OfEvidence(e.evidenceId)))
  }

  function Authenticate(t: Tables, keys: Keys, files: Files, c: string, keyId: string): Result<Outcome, Failure>
    requires RowsOk(t)
  {
    if !HasText(keyId) then Err(InvalidValue)
    else if keyId !in keys then Err(TransitionRefused)
    else if c !in t.claims then Err(UnknownClaim)
    else
      var a := Assess(t, keys, files, c);
      if a.disposition != ACTIVE || a.level != REPLICATED then Err(TransitionRefused)
      else
        var row := NewEnvelopeRow(Seal(keys[keyId], BodyFor(c, ViewOf(t, c), files, keyId)));
        var id := ShortId(row.payloadSha);
        if id in t.envelopes then
          if t.envelopes[id].payload != row.payload then Err(DuplicatePayload)
          else Ok(Outcome(t, a))
        else
          Ok(Recorded(t.(envelopes := t.envelopes[id := row]), keys, files, c, CLAIM_AUTHENTICATED, OfEnvelope(id)))
  }

  function Supersede(t: Tables, keys: Keys, files: Files, c: string, replacementId: string, reason: string)
    : Result<Outcome, Failure>
    requires RowsOk(t)
  {
    if !HasText(reason) then Err(InvalidValue)
    else if c == replacementId then Err(TransitionRefused)
    else if c !in t.claims || replacementId !in t.claims then Err(UnknownClaim)
    else
      var row := NewSupersessionRow(c, replacementId, reason);
      if c in t.supersessions then
        if t.supersessions[c].payload != row.payload then Err(DuplicatePayload)
        else Ok(Outcome(t, Assess(t, keys, files, c)))
      else
        Ok(Recorded(t.(supersessions := t.supersessions[c := row]), keys, files, c,
                    CLAIM_SUPERSEDED, OfDigest(row.payloadSha)))
  }

  datatype Operation =
    | ProposeCall(claim: ClaimStatement)
    | AppendCall(evidence: ClaimEvidence)
    | AuthenticateCall(claimId: string, keyId: string)
    | SupersedeCall(claimId: string, replacementId: string, reason: string)
  {
    /** The claim the call is about. */
    function Subject(): string {
      match this
      case ProposeCall(claim) => claim.claimId
      case AppendCall(evidence) => evidence.claimId
      case AuthenticateCall(c, _) => c
      case SupersedeCall(c, _, _) => c
    }
  }

  /** One call, with the keys the ledger was opened with and the files as they are just then. */
  datatype Call = Call(keys: Keys, files: Files, operation: Operation)

  function Perform(t: Tables, call: Call): Result<Outcome, Failure>
    requires RowsOk(t)
  {
    match call.operation
    case ProposeCall(claim) => Propose(t, call.keys, call.files, claim)
    case AppendCall(evidence) => AppendEvidence(t, call.keys, call.files, evidence)
    case AuthenticateCall(c, keyId) => Authenticate(t, call.keys, call.files, c, keyId)
    case SupersedeCall(c, replacementId, reason) => Supersede(t, call.keys, call.files, c, replacementId, reason)
  }

  function After(t: Tables, call: Call): Tables
    requires RowsOk(t)
  {
    var r := Perform(t, call);
    if r.Ok? then r.value.tables else t
  }

  // ----- what the stored rows always look like -----

  ghost predicate ClaimRowOk(c: string, row: ClaimRow) {
    && row.payload.Json? && row.payload.document.ClaimDocument?
    && row.payload.document.claim.claimId == c
    && row == NewClaimRow(row.payload.document.claim)
  }

  ghost predicate EvidenceRowOk(e: string, row: EvidenceRow, known: set<string>) {
    && row.payload.Json? && row.payload.document.EvidenceDocument?
    && row.payload.document.evidence.evidenceId == e
    && row == NewEvidenceRow(row.payload.document.evidence)
    && row.claimId in known
  }

  ghost predicate SupersessionRowOk(c: string, row: SupersessionRow, known: set<string>) {
    && row.payload.Json? && row.payload.document.SupersessionDocument?
    && row == NewSupersessionRow(c, row.replacementId, row.payload.document.reason)
    && c in known && row.replacementId in known
  }

  /** An envelope was sealed for a REPLICATED and ACTIVE view of a claim that exists. */
  ghost predicate EnvelopeRowOk(n: ShortId, row: EnvelopeRow, known: set<string>) {
    && row.payload.Json? && row.payload.document.EnvelopeDocument?
    && row == NewEnvelopeRow(row.payload.document.envelope)
    && n == ShortId(row.payloadSha)
    && row.claimId in known
    && var envelope := row.payload.document.envelope;
    && envelope == Seal(envelope.signature.secret, envelope.body)
    && envelope.body.level == REPLICATED && envelope.body.disposition == ACTIVE
  }

  ghost predicate ClaimsOk(claims: map<string, ClaimRow>) {
    forall c | c in claims :: ClaimRowOk(c, claims[c])
  }

  ghost predicate EvidenceOk(evidence: map<string, EvidenceRow>, known: set<string>) {
    forall e | e in evidence :: EvidenceRowOk(e, evidence[e], known)
  }

  ghost predicate SupersessionsOk(supersessions: map<string, SupersessionRow>, known: set<string>) {
    forall c | c in supersessions :: SupersessionRowOk(c, supersessions[c], known)
  }

  ghost predicate EnvelopesOk(envelopes: map<ShortId, EnvelopeRow>, known: set<string>) {
    forall n | n in envelopes :: EnvelopeRowOk(n, envelopes[n], known)
  }

  ghost predicate RowsOk(t: Tables) {
    && ClaimsOk(t.claims)
    && EvidenceOk(t.evidence, t.claims.Keys)
    && SupersessionsOk(t.supersessions, t.claims.Keys)
    && EnvelopesOk(t.envelopes, t.claims.Keys)
  }

  // ----- what the event chains always look like -----

  /** The recorded eligible evidence is listed once, belongs to the claim, and hashes to the root. */
  ghost predicate InventoryOk(evidence: map<string, EvidenceRow>, c: string, a: ClaimAssessment) {
    && StrictlySorted(a.eligibleIds)
    && (forall e | e in a.eligibleIds :: e in a.evidenceIds && e in evidence && evidence[e].claimId == c)
    && a.root == MerkleRoot(RecordsOf(evidence, a.eligibleIds))
  }

  ghost predicate EventOk(evidence: map<string, EvidenceRow>, claimSha: Digest, c: string, rows: seq<EventRow>, i: int)
    requires 0 <= i < |rows|
  {
    var row := rows[i];
    && row.claimId == c && row.sequence == i + 1
    && row.previous == (if i == 0 then None else Some(rows[i - 1].eventSha))
    && row.eventSha == ShaOfText(row.payload) && row.eventId == ShortId(row.eventSha)
    && row.payload.Json? && row.payload.document.EventDocument?
    && var body := row.payload.document.event;
    && body.sequence == row.sequence && body.previous == row.previous
    && body.claimSha == claimSha
    && body.assessment.claimId == c
    && InventoryOk(evidence, c, body.assessment)
  }

  ghost predicate ChainOk(evidence: map<string, EvidenceRow>, claimSha: Digest, c: string, rows: seq<EventRow>) {
    forall i | 0 <= i < |rows| :: EventOk(evidence, claimSha, c, rows, i)
  }

  /** Rows that the claim's view is made of, its proposal included. */
  ghost function RowCount(v: View): nat {
    1 + |v.evidence| + |v.envelopes| + (if v.replacement.Some? then 1 else 0)
  }

  ghost predicate EventsOk(t: Tables, c: string)
    requires c in t.claims && c in t.events
  {
    && ChainOk(t.evidence, t.claims[c].payloadSha, c, t.events[c])
    && |t.events[c]| == RowCount(ViewOf(t, c))
  }

  ghost predicate Inv(t: Tables) {
    && RowsOk(t)
    && t.events.Keys == t.claims.Keys
    && (forall c | c in t.claims :: EventsOk(t, c))
  }
}
