/**
 The records of the claim evidence ledger and the symbolic cryptography that binds them.

 SHA-256 and HMAC-SHA256 are free constructors: equal digests have equal messages, equal
 signatures have equal secrets and equal signed texts. The message shapes are kept apart. A
 `Concat` message is exactly two raw 32-byte digests, shorter than any JSON text hashed here.
 `Bytes` and `Utf8` can be one byte string, when an artifact file holds a payload's JSON; but the
 program compares a file's digest with a stated artifact digest only, never with a payload's.
 */
module LedgerData {
  import opened Wrappers

  type Byte = bv8
  type Secret = seq<Byte>

  datatype Digest = Sha256(message: Message)

  datatype Message =
    | Bytes(bytes: seq<Byte>)
    | Utf8(text: Text)
    | Concat(left: Digest, right: Digest)

  /** A stored payload column. `layout` tells apart texts that parse to one document; the
      canonical encoder only writes layout 0. */
  datatype Text = Json(document: Document, layout: nat) | Junk(characters: string)

  datatype Document =
    | ClaimDocument(claim: ClaimStatement)
    | EvidenceDocument(evidence: ClaimEvidence)
    | SupersessionDocument(claimId: string, replacementId: string, reason: string)
    | SignedBodyDocument(body: SignedBody)
    | EnvelopeDocument(envelope: Envelope)
    | EventDocument(event: EventBody)
    | LeafDocument(recordId: string, payloadSha: Digest)

  /** A text field that should hold a lowercase 64-digit hexadecimal digest. */
  datatype DigestText = Hex(digest: Digest) | OtherHex(digits: string) | NotHex(characters: string)

  datatype Schema = Supported | Unsupported(name: string)

  datatype EvidenceLevel = PROPOSED | OBSERVED | TESTED | REPLICATED

  datatype ClaimDisposition = ACTIVE | REJECTED | SUPERSEDED

  datatype AuthenticationState = UNAUTHENTICATED | AUTHENTICATED | INVALID

  datatype ClaimDisplayState = Level(level: EvidenceLevel) | Authenticated | Rejected | Superseded

  datatype EvidenceKind = AGENT_REPORT | SOURCE_OBSERVATION | TEST_RUN | REPLICATION_RUN | COUNTEREVIDENCE

  datatype EvidenceOutcome = PASSED | FAILED | INAPPLICABLE

  datatype ClaimStatement = ClaimStatement(
    claimId: string,
    subject: string,
    assertion: string,
    sourceManifest: DigestText,
    policy: DigestText,
    requiredTestSpec: DigestText,
    schema: Schema)

  datatype ClaimEvidence = ClaimEvidence(
    evidenceId: string,
    claimId: string,
    kind: EvidenceKind,
    artifactPath: string,
    artifactSha: DigestText,
    sourceManifest: DigestText,
    policy: DigestText,
    producerId: string,
    outcome: EvidenceOutcome,
    testSpec: Option<DigestText>,
    runId: Option<string>,
    independenceKey: Option<string>,
    detail: string,
    schema: Schema)

  datatype ClaimAssessment = ClaimAssessment(
    claimId: string,
    level: EvidenceLevel,
    disposition: ClaimDisposition,
    authentication: AuthenticationState,
    display: ClaimDisplayState,
    evidenceIds: seq<string>,
    eligibleIds: seq<string>,
    root: Digest,
    supersededBy: Option<string>)

  datatype SignedBody = SignedBody(
    claimId: string,
    claimSha: Digest,
    sourceManifest: DigestText,
    policy: DigestText,
    testSpec: DigestText,
    level: EvidenceLevel,
    disposition: ClaimDisposition,
    evidenceIds: seq<string>,
    root: Digest,
    keyId: string)

  datatype Signature = Hmac(secret: Secret, signed: Text)

  datatype Envelope = Envelope(body: SignedBody, signature: Signature)

  datatype ActionKind = CLAIM_PROPOSED | EVIDENCE_APPENDED | CLAIM_AUTHENTICATED | CLAIM_SUPERSEDED

  datatype ActionId = OfDigest(digest: Digest) | OfEvidence(evidenceId: string) | OfEnvelope(short: ShortId)

  datatype EventBody = EventBody(
    claimSha: Digest,
    sequence: int,
    previous: Option<Digest>,
    kind: ActionKind,
    actionId: ActionId,
    assessment: ClaimAssessment)

  /** An identifier made of a fixed prefix and the first 32 digits of a digest. */
  datatype ShortId = ShortId(of: Digest)

  function Canonical(document: Document): Text {
    Json(document, 0)
  }

  function ShaOfText(text: Text): Digest {
    Sha256(Utf8(text))
  }

  function Loads(text: Text): Option<Document> {
    match text
    case Json(document, _) => Some(document)
    case Junk(_) => None
  }

  // ----- tables -----

  datatype ClaimRow = ClaimRow(payloadSha: Digest, payload: Text)

  datatype EvidenceRow = EvidenceRow(claimId: string, payloadSha: Digest, payload: Text)

  datatype SupersessionRow = SupersessionRow(replacementId: string, payloadSha: Digest, payload: Text)

  datatype EnvelopeRow = EnvelopeRow(claimId: string, payloadSha: Digest, payload: Text)

  datatype EventRow = EventRow(
    eventId: ShortId,
    claimId: string,
    sequence: int,
    previous: Option<Digest>,
    eventSha: Digest,
    payload: Text)

  /** The five tables, keyed by primary key; events are grouped by claim and listed by sequence. */
  datatype Tables = Tables(
    claims: map<string, ClaimRow>,
    evidence: map<string, EvidenceRow>,
    supersessions: map<string, SupersessionRow>,
    envelopes: map<ShortId, EnvelopeRow>,
    events: map<string, seq<EventRow>>)

  const EMPTY := Tables(map[], map[], map[], map[], map[])

  // ----- the world outside the ledger -----

  /** What the file system holds at one moment: where each existing path resolves to, and the
      contents of the regular files. */
  datatype Files = Files(resolved: map<string, string>, contents: map<string, seq<Byte>>)
  {
    function Read(path: string): Option<seq<Byte>> {
      if path in resolved && resolved[path] in contents then Some(contents[resolved[path]]) else None
    }
  }

  type Keys = map<string, Secret>
}
