/**
 The derived view of one claim: which evidence is eligible now, and the level, disposition,
 authentication and root that follow from it.
 */
module LedgerAssessment {
  import opened Wrappers
  import opened LedgerData
  import opened Merkle
  import opened Ordering

  // ----- what an assessment reads -----

  /** The rows of one claim, as the queries of the assessment select them. */
  datatype View = View(
    claim: ClaimRow,
    evidence: map<string, EvidenceRow>,
    replacement: Option<string>,
    envelopes: map<ShortId, EnvelopeRow>)
  {
    predicate Readable() {
      && claim.payload.Json? && claim.payload.document.ClaimDocument?
      && (forall e | e in evidence :: evidence[e].payload.Json? && evidence[e].payload.document.EvidenceDocument?)
      && (forall n | n in envelopes :: envelopes[n].payload.Json? && envelopes[n].payload.document.EnvelopeDocument?)
    }

    function Claim(): ClaimStatement
      requires Readable()
    {
      claim.payload.document.claim
    }

    function Evidence(e: string): ClaimEvidence
      requires Readable() && e in evidence
    {
      evidence[e].payload.document.evidence
    }

    function Envelope(n: ShortId): Envelope
      requires Readable() && n in envelopes
    {
      envelopes[n].payload.document.envelope
    }
  }

  function EvidenceFor(evidence: map<string, EvidenceRow>, c: string): map<string, EvidenceRow> {
    map e | e in evidence && evidence[e].claimId == c :: evidence[e]
  }

  function ReplacementFor(supersessions: map<string, SupersessionRow>, c: string): Option<string> {
    if c in supersessions then Some(supersessions[c].replacementId) else None
  }

  function EnvelopesFor(envelopes: map<ShortId, EnvelopeRow>, c: string): map<ShortId, EnvelopeRow> {
    map n | n in envelopes && envelopes[n].claimId == c :: envelopes[n]
  }

  function ViewOf(t: Tables, c: string): View
    requires c in t.claims
  {
    View(t.claims[c], EvidenceFor(t.evidence, c), ReplacementFor(t.supersessions, c), EnvelopesFor(t.envelopes, c))
  }

  // ----- eligibility -----

  predicate ArtifactMatches(files: Files, evidence: ClaimEvidence) {
    var found := files.Read(evidence.artifactPath);
    found.Some? && evidence.artifactSha == Hex(Sha256(Bytes(found.value)))
  }

  predicate BindingMatches(claim: ClaimStatement, evidence: ClaimEvidence) {
    && evidence.sourceManifest == claim.sourceManifest
    && evidence.policy == claim.policy
    && (evidence.kind in {TEST_RUN, REPLICATION_RUN, COUNTEREVIDENCE} ==>
          evidence.testSpec == Some(claim.requiredTestSpec))
  }

  function EligibleIds(v: View, files: Files): set<string>
    requires v.Readable()
  {
    set e | e in v.evidence && ArtifactMatches(files, v.Evidence(e)) && BindingMatches(v.Claim(), v.Evidence(e))
  }

  function Eligible(v: View, files: Files): set<ClaimEvidence>
    requires v.Readable()
  {
    set e | e in EligibleIds(v, files) :: v.Evidence(e)
  }

  // ----- level and disposition -----

  predicate Truthy(text: Option<string>) {
    text.Some? && text.value != ""
  }

  predicate IsPassingTest(e: ClaimEvidence) {
    e.kind in {TEST_RUN, REPLICATION_RUN} && e.outcome == PASSED
  }

  function IndependentKeys(eligible: set<ClaimEvidence>): set<string> {
    set e | e in eligible && IsPassingTest(e) && Truthy(e.independenceKey) :: e.independenceKey.value
  }

  function LevelOf(eligible: set<ClaimEvidence>): EvidenceLevel {
    if |IndependentKeys(eligible)| >= 2 then REPLICATED
    else if exists e | e in eligible :: IsPassingTest(e) then TESTED
    else if exists e | e in eligible :: e.kind == SOURCE_OBSERVATION then OBSERVED
    else PROPOSED
  }

  predicate IsRejected(eligible: set<ClaimEvidence>) {
    exists e | e in eligible :: e.kind == COUNTEREVIDENCE && e.outcome == FAILED
  }

  function DispositionOf(v: View, files: Files): ClaimDisposition
    requires v.Readable()
  {
    if v.replacement.Some? then SUPERSEDED
    else if IsRejected(Eligible(v, files)) then REJECTED
    else ACTIVE
  }

  // ----- root and authentication -----

  function RecordsOf(evidence: map<string, EvidenceRow>, ids: seq<string>): seq<EvidenceRecord>
    requires forall e | e in ids :: e in evidence
  {
    seq(|ids|, i requires 0 <= i < |ids| => EvidenceRecord(ids[i], evidence[ids[i]].payloadSha))
  }

  function EvidenceRoot(v: View, files: Files): Digest
    requires v.Readable()
  {
    var ids := Listing(EligibleIds(v, files));
    assert forall e | e in ids :: e in Elements(ids);
    MerkleRoot(RecordsOf(v.evidence, ids))
  }

  /** What an authentication signs for this view, under a given key name. */
  function BodyFor(c: string, v: View, files: Files, keyId: string): SignedBody
    requires v.Readable()
  {
    SignedBody(c, v.claim.payloadSha, v.Claim().sourceManifest, v.Claim().policy, v.Claim().requiredTestSpec,
               LevelOf(Eligible(v, files)), DispositionOf(v, files),
               Listing(EligibleIds(v, files)), EvidenceRoot(v, files), keyId)
  }

  /** The envelope describes this view; neither the claim id nor the key id is compared. */
  predicate Describes(v: View, files: Files, body: SignedBody)
    requires v.Readable()
  {
    body == BodyFor(body.claimId, v, files, body.keyId)
  }

  predicate SignatureVerifies(keys: Keys, envelope: Envelope) {
    && envelope.body.keyId in keys
    && envelope.signature == Hmac(keys[envelope.body.keyId], Canonical(SignedBodyDocument(envelope.body)))
  }

  function AuthenticationOf(v: View, keys: Keys, files: Files): AuthenticationState
    requires v.Readable()
  {
    var matching := set n | n in v.envelopes && Describes(v, files, v.Envelope(n).body);
    if matching == {} then UNAUTHENTICATED
    else if exists n | n in matching :: SignatureVerifies(keys, v.Envelope(n)) then AUTHENTICATED
    else INVALID
  }

  function DisplayOf(level: EvidenceLevel, disposition: ClaimDisposition, authentication: AuthenticationState)
    : ClaimDisplayState
  {
    if disposition == SUPERSEDED then Superseded
    else if disposition == REJECTED then Rejected
    else if authentication == AUTHENTICATED then Authenticated
    else Level(level)
  }

  function AssessView(c: string, v: View, keys: Keys, files: Files): ClaimAssessment
    requires v.Readable()
  {
    var level := LevelOf(Eligible(v, files));
    var disposition := DispositionOf(v, files);
    var authentication := AuthenticationOf(v, keys, files);
    ClaimAssessment(
      c, level, disposition, authentication, DisplayOf(level, disposition, authentication),
      Listing(v.evidence.Keys), Listing(EligibleIds(v, files)), EvidenceRoot(v, files), v.replacement)
  }

  predicate CanAssess(t: Tables, c: string) {
    c in t.claims && ViewOf(t, c).Readable()
  }

  function Assess(t: Tables, keys: Keys, files: Files, c: string): ClaimAssessment
    requires CanAssess(t, c)
  {
    AssessView(c, ViewOf(t, c), keys, files)
  }

  // ----- what a level means -----

  ghost predicate TwoIndependentPasses(eligible: set<ClaimEvidence>) {
    exists e, f | e in eligible && f in eligible ::
      && IsPassingTest(e) && IsPassingTest(f)
      && Truthy(e.independenceKey) && Truthy(f.independenceKey) && e.independenceKey != f.independenceKey
  }

  lemma TwoElements<T>(s: set<T>)
    ensures |s| >= 2 <==> exists x, y :: x in s && y in s && x != y
  {
    if |s| >= 2 {
      var x :| x in s;
      assert |s - {x}| >= 1;
      var y :| y in s - {x};
      assert x in s && y in s && x != y;
    }
    if exists x, y :: x in s && y in s && x != y {
      var x, y :| x in s && y in s && x != y;
      SubsetIsNoLarger({x, y}, s);
    }
  }

  /** REPLICATED takes two passing tests from different sources; TESTED takes one; a single source never replicates. */
  lemma LevelMeaning(eligible: set<ClaimEvidence>)
    ensures LevelOf(eligible) == REPLICATED <==> TwoIndependentPasses(eligible)
    ensures Rank(LevelOf(eligible)) >= 2 <==> exists e | e in eligible :: IsPassingTest(e)
    ensures LevelOf(eligible) == PROPOSED <==>
              forall e | e in eligible :: !IsPassingTest(e) && e.kind != SOURCE_OBSERVATION
  {
    var keys := IndependentKeys(eligible);
    TwoElements(keys);
    if TwoIndependentPasses(eligible) {
      var e, f :| && e in eligible && f in eligible && IsPassingTest(e) && IsPassingTest(f)
                  && Truthy(e.independenceKey) && Truthy(f.independenceKey) && e.independenceKey != f.independenceKey;
      assert e.independenceKey.value in keys && f.independenceKey.value in keys;
    }
  }

  /** A report by an agent raises no level, however many are appended. */
  lemma AgentReportsPromoteNothing(eligible: set<ClaimEvidence>, report: ClaimEvidence)
    requires report.kind == AGENT_REPORT
    ensures LevelOf(eligible + {report}) == LevelOf(eligible)
    ensures IsRejected(eligible + {report}) <==> IsRejected(eligible)
  {
    assert IndependentKeys(eligible + {report}) == IndependentKeys(eligible);
    LevelMeaning(eligible);
    LevelMeaning(eligible + {report});
  }

  // ----- more evidence, higher level -----

  function Rank(level: EvidenceLevel): nat {
    match level
    case PROPOSED => 0
    case OBSERVED => 1
    case TESTED => 2
    case REPLICATED => 3
  }

  function Stage(disposition: ClaimDisposition): nat {
    match disposition
    case ACTIVE => 0
    case REJECTED => 1
    case SUPERSEDED => 2
  }

  lemma SubsetIsNoLarger<T>(a: set<T>, b: set<T>)
    requires a <= b
    ensures |a| <= |b|
  {
    assert b == a + (b - a);
  }

  lemma LevelIsMonotone(a: set<ClaimEvidence>, b: set<ClaimEvidence>)
    requires a <= b
    ensures Rank(LevelOf(a)) <= Rank(LevelOf(b))
    ensures IsRejected(a) ==> IsRejected(b)
  {
    SubsetIsNoLarger(IndependentKeys(a), IndependentKeys(b));
    if |IndependentKeys(a)| >= 2 {
    } else if exists e | e in a :: IsPassingTest(e) {
      var e :| e in a && IsPassingTest(e);
      assert e in b;
    }
  }
}
