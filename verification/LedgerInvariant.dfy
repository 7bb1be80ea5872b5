/** Every call keeps the ledger invariant, and never rewrites or removes a row. */
module LedgerInvariant {
  import opened Wrappers
  import opened LedgerData
  import opened LedgerAssessment
  import opened LedgerRuns
  import opened Merkle
  import opened Ordering
  import opened PlainText

  ghost predicate SubMap<K, V>(a: map<K, V>, b: map<K, V>) {
    forall k | k in a :: k in b && b[k] == a[k]
  }

  ghost predicate RowsExtend(t: Tables, t': Tables) {
    && SubMap(t.claims, t'.claims) && SubMap(t.evidence, t'.evidence)
    && SubMap(t.supersessions, t'.supersessions) && SubMap(t.envelopes, t'.envelopes)
  }

  /** Append-only: rows are never changed or dropped, and event lists only grow at the end. */
  ghost predicate Extends(t: Tables, t': Tables) {
    && RowsExtend(t, t')
    && forall c | c in t.events :: c in t'.events && t.events[c] <= t'.events[c]
  }

  /** `t'` is `t` with one row added for claim `c`. */
  ghost predicate InsertsFor(t: Tables, t': Tables, c: string) {
    && RowsExtend(t, t') && t'.events == t.events && c in t'.claims
    && t'.claims.Keys == t.claims.Keys + {c}
    && (forall d | d in t.claims && d != c :: ViewOf(t', d) == ViewOf(t, d))
    && RowCount(ViewOf(t', c)) == (if c in t.claims then RowCount(ViewOf(t, c)) + 1 else 1)
  }

  lemma ReadableView(t: Tables, c: string)
    requires RowsOk(t) && c in t.claims
    ensures CanAssess(t, c)
  {
  }

  lemma ChainStaysOk(evidence: map<string, EvidenceRow>, evidence': map<string, EvidenceRow>, claimSha: Digest,
                     c: string, rows: seq<EventRow>)
    requires SubMap(evidence, evidence') && ChainOk(evidence, claimSha, c, rows)
    ensures ChainOk(evidence', claimSha, c, rows)
  {
    forall i | 0 <= i < |rows| ensures EventOk(evidence', claimSha, c, rows, i) {
      assert EventOk(evidence, claimSha, c, rows, i);
      var ids := rows[i].payload.document.event.assessment.eligibleIds;
      assert RecordsOf(evidence', ids) == RecordsOf(evidence, ids);
    }
  }

  lemma EligibleAreEvidence(v: View, files: Files)
    requires v.Readable()
    ensures forall e | e in Listing(EligibleIds(v, files)) :: e in v.evidence && e in Listing(v.evidence.Keys)
  {
    var ids, all := Listing(EligibleIds(v, files)), Listing(v.evidence.Keys);
    assert forall e | e in ids :: e in Elements(ids);
    assert forall e | e in v.evidence.Keys :: e in Elements(all) && e in all;
  }

  lemma AssessmentInventoryOk(t: Tables, keys: Keys, files: Files, c: string)
    requires CanAssess(t, c)
    ensures InventoryOk(t.evidence, c, Assess(t, keys, files, c))
  {
    var v := ViewOf(t, c);
    var ids, all := Listing(EligibleIds(v, files)), Listing(v.evidence.Keys);
    EligibleAreEvidence(v, files);
    assert v.evidence == EvidenceFor(t.evidence, c);
    hide LevelOf, DispositionOf, AuthenticationOf, MerkleRoot, Eligible, EligibleIds, ReplacementFor, EnvelopesFor,
         Listing, StrictlySorted;
    assert RecordsOf(t.evidence, ids) == RecordsOf(v.evidence, ids);
  }

  lemma ExtendedChainIsOk(t: Tables, a: ClaimAssessment, kind: ActionKind, actionId: ActionId)
    requires a.claimId in t.claims && InventoryOk(t.evidence, a.claimId, a)
    requires ChainOk(t.evidence, t.claims[a.claimId].payloadSha, a.claimId, EventsOf(t, a.claimId))
    ensures ChainOk(t.evidence, t.claims[a.claimId].payloadSha, a.claimId,
                    EventsOf(t, a.claimId) + [NewEventRow(t, a, kind, actionId)])
  {
    var c := a.claimId;
    var sha := t.claims[c].payloadSha;
    var rows := EventsOf(t, c);
    var rows' := rows + [NewEventRow(t, a, kind, actionId)];
    forall i | 0 <= i < |rows'| ensures EventOk(t.evidence, sha, c, rows', i) {
      assert i < |rows| ==> EventOk(t.evidence, sha, c, rows, i);
      assert rows != [] ==> EventOk(t.evidence, sha, c, rows, |rows| - 1);
    }
  }

  // ----- what one accepted call does -----

  function LastAssessment(rows: seq<EventRow>): Option<ClaimAssessment> {
    if rows == [] then None
    else
      var payload := rows[|rows| - 1].payload;
      if payload.Json? && payload.document.EventDocument? then Some(payload.document.event.assessment) else None
  }

  /** `t'` is `t` plus one row and one event for `c`; the event holds the assessment of `t'`. */
  ghost predicate Records(t: Tables, t': Tables, keys: Keys, files: Files, c: string) {
    && Inv(t') && Extends(t, t') && CanAssess(t', c)
    && t'.claims.Keys == t.claims.Keys + {c}
    && (forall d | d in t.claims && d != c :: ViewOf(t', d) == ViewOf(t, d) && t'.events[d] == EventsOf(t, d))
    && |t'.events[c]| == |EventsOf(t, c)| + 1
    && LastAssessment(t'.events[c]) == Some(Assess(t', keys, files, c))
  }

  lemma EventsStayOk(t: Tables, t': Tables, t'': Tables, d: string)
    requires Inv(t) && RowsExtend(t, t')
    requires d in t.claims && d in t'.claims && d in t''.claims && d in t''.events
    requires t'' == t'.(events := t''.events) && t''.events[d] == t.events[d]
    requires ViewOf(t', d) == ViewOf(t, d)
    ensures EventsOk(t'', d)
  {
    assert EventsOk(t, d);
    ChainStaysOk(t.evidence, t'.evidence, t.claims[d].payloadSha, d, t.events[d]);
  }

  lemma RowsIgnoreEvents(t: Tables, t': Tables)
    requires RowsOk(t) && t' == t.(events := t'.events)
    ensures RowsOk(t')
  {
    hide ClaimsOk, EvidenceOk, SupersessionsOk, EnvelopesOk;
  }

  lemma ViewIgnoresEvents(t: Tables, t': Tables, c: string)
    requires c in t.claims && t' == t.(events := t'.events)
    ensures ViewOf(t', c) == ViewOf(t, c)
  {
    hide EvidenceFor, ReplacementFor, EnvelopesFor;
  }

  lemma SubjectEventsOk(t: Tables, t': Tables, a: ClaimAssessment, kind: ActionKind, actionId: ActionId)
    requires Inv(t) && InsertsFor(t, t', a.claimId) && InventoryOk(t'.evidence, a.claimId, a)
    ensures EventsOk(AppendEvent(t', a, kind, actionId), a.claimId)
  {
    var c := a.claimId;
    if c in t.claims {
      assert EventsOk(t, c);
      ChainStaysOk(t.evidence, t'.evidence, t.claims[c].payloadSha, c, t.events[c]);
    }
    ExtendedChainIsOk(t', a, kind, actionId);
  }

  lemma AppendEventKeepsInv(t: Tables, t': Tables, a: ClaimAssessment, kind: ActionKind, actionId: ActionId)
    requires Inv(t) && RowsOk(t') && InsertsFor(t, t', a.claimId) && InventoryOk(t'.evidence, a.claimId, a)
    ensures Inv(AppendEvent(t', a, kind, actionId))
  {
    hide RowsOk, InventoryOk, ViewOf, RowCount;
    var t'' := AppendEvent(t', a, kind, actionId);
    RowsIgnoreEvents(t', t'');
    SubjectEventsOk(t, t', a, kind, actionId);
    forall d | d in t''.claims ensures EventsOk(t'', d) {
      if d != a.claimId {
        EventsStayOk(t, t', t'', d);
      }
    }
  }

  lemma AppendEventExtends(t: Tables, t': Tables, a: ClaimAssessment, kind: ActionKind, actionId: ActionId)
    requires InsertsFor(t, t', a.claimId) && t.events.Keys == t.claims.Keys
    ensures Extends(t, AppendEvent(t', a, kind, actionId))
    ensures forall d | d in t.claims && d != a.claimId ::
              && ViewOf(AppendEvent(t', a, kind, actionId), d) == ViewOf(t, d)
              && AppendEvent(t', a, kind, actionId).events[d] == EventsOf(t, d)
  {
    hide RowCount, NewEventRow;
    var t'' := AppendEvent(t', a, kind, actionId);
    forall d | d in t'.claims ensures ViewOf(t'', d) == ViewOf(t', d) {
      ViewIgnoresEvents(t', t'', d);
    }
  }

  lemma AppendEventShape(t: Tables, a: ClaimAssessment, kind: ActionKind, actionId: ActionId)
    requires a.claimId in t.claims
    ensures var t' := AppendEvent(t, a, kind, actionId);
            && t' == t.(events := t'.events) && a.claimId in t'.events
            && |t'.events[a.claimId]| == |EventsOf(t, a.claimId)| + 1
            && LastAssessment(t'.events[a.claimId]) == Some(a)
  {
  }

  lemma AssessIgnoresEvents(t: Tables, t': Tables, keys: Keys, files: Files, c: string)
    requires CanAssess(t, c) && t' == t.(events := t'.events)
    ensures CanAssess(t', c) && Assess(t', keys, files, c) == Assess(t, keys, files, c)
    ensures Assess(t, keys, files, c).claimId == c
  {
    ViewIgnoresEvents(t, t', c);
  }

  lemma RecordedRecords(t: Tables, t': Tables, keys: Keys, files: Files, c: string, kind: ActionKind,
                        actionId: ActionId)
    requires Inv(t) && RowsOk(t') && InsertsFor(t, t', c) && CanAssess(t', c)
    ensures Records(t, Recorded(t', keys, files, c, kind, actionId).tables, keys, files, c)
  {
    hide RowsOk, InventoryOk, RowCount, EventsOk, Extends, InsertsFor, AppendEvent, ViewOf, CanAssess, Assess,
         LastAssessment;
    var a := Assess(t', keys, files, c);
    AssessIgnoresEvents(t', t', keys, files, c);
    InsertedKeys(t, t', c);
    var t'' := AppendEvent(t', a, kind, actionId);
    AppendEventShape(t', a, kind, actionId);
    AssessmentInventoryOk(t', keys, files, c);
    AppendEventKeepsInv(t, t', a, kind, actionId);
    AppendEventExtends(t, t', a, kind, actionId);
    AssessIgnoresEvents(t', t'', keys, files, c);
  }

  lemma InsertedKeys(t: Tables, t': Tables, c: string)
    requires InsertsFor(t, t', c)
    ensures t'.claims.Keys == t.claims.Keys + {c} && t'.events == t.events && c in t'.claims
  {
  }

  lemma KnownGrows(t: Tables, known: set<string>)
    requires RowsOk(t) && t.claims.Keys <= known
    ensures EvidenceOk(t.evidence, known) && SupersessionsOk(t.supersessions, known) && EnvelopesOk(t.envelopes, known)
  {
    assert forall e | e in t.evidence :: EvidenceRowOk(e, t.evidence[e], t.claims.Keys);
    assert forall n | n in t.envelopes :: EnvelopeRowOk(n, t.envelopes[n], t.claims.Keys);
    assert forall d | d in t.supersessions :: SupersessionRowOk(d, t.supersessions[d], t.claims.Keys);
  }

  lemma ClaimsGrow(claims: map<string, ClaimRow>, c: string, row: ClaimRow)
    requires ClaimsOk(claims) && ClaimRowOk(c, row)
    ensures ClaimsOk(claims[c := row])
  {
    assert forall d | d in claims :: ClaimRowOk(d, claims[d]);
  }

  lemma EvidenceGrows(t: Tables, e: string, row: EvidenceRow)
    requires RowsOk(t) && EvidenceRowOk(e, row, t.claims.Keys)
    ensures RowsOk(t.(evidence := t.evidence[e := row]))
  {
    hide EvidenceRowOk, ClaimsOk, SupersessionsOk, EnvelopesOk;
  }

  lemma SupersessionsGrow(t: Tables, c: string, row: SupersessionRow)
    requires RowsOk(t) && SupersessionRowOk(c, row, t.claims.Keys)
    ensures RowsOk(t.(supersessions := t.supersessions[c := row]))
  {
    hide SupersessionRowOk, ClaimsOk, EvidenceOk, EnvelopesOk;
  }

  lemma EnvelopesGrow(t: Tables, n: ShortId, row: EnvelopeRow)
    requires RowsOk(t) && EnvelopeRowOk(n, row, t.claims.Keys)
    ensures RowsOk(t.(envelopes := t.envelopes[n := row]))
  {
    hide EnvelopeRowOk, ClaimsOk, EvidenceOk, SupersessionsOk;
  }

  lemma UnknownClaimHasNoRows(t: Tables, c: string)
    requires RowsOk(t) && c !in t.claims
    ensures EvidenceFor(t.evidence, c) == map[] && EnvelopesFor(t.envelopes, c) == map[] && c !in t.supersessions
  {
    hide NewEvidenceRow, NewEnvelopeRow, NewSupersessionRow, Seal;
    assert forall e | e in t.evidence :: EvidenceRowOk(e, t.evidence[e], t.claims.Keys);
    assert forall n | n in t.envelopes :: EnvelopeRowOk(n, t.envelopes[n], t.claims.Keys);
    assert c in t.supersessions ==> SupersessionRowOk(c, t.supersessions[c], t.claims.Keys);
  }

  lemma ProposeInserts(t: Tables, c: string, row: ClaimRow)
    requires RowsOk(t) && c !in t.claims
    ensures InsertsFor(t, t.(claims := t.claims[c := row]), c)
  {
    hide RowsOk;
    UnknownClaimHasNoRows(t, c);
  }

  lemma EvidenceForAfterInsert(evidence: map<string, EvidenceRow>, e: string, row: EvidenceRow, d: string)
    requires e !in evidence
    ensures EvidenceFor(evidence[e := row], d) ==
            if row.claimId == d then EvidenceFor(evidence, d)[e := row] else EvidenceFor(evidence, d)
  {
  }

  lemma EvidenceInserts(t: Tables, e: string, row: EvidenceRow)
    requires row.claimId in t.claims && e !in t.evidence
    ensures InsertsFor(t, t.(evidence := t.evidence[e := row]), row.claimId)
  {
    var t' := t.(evidence := t.evidence[e := row]);
    EvidenceForAfterInsert(t.evidence, e, row, row.claimId);
    forall d | d in t.claims && d != row.claimId ensures ViewOf(t', d) == ViewOf(t, d) {
      EvidenceForAfterInsert(t.evidence, e, row, d);
    }
  }

  lemma EnvelopesForAfterInsert(envelopes: map<ShortId, EnvelopeRow>, n: ShortId, row: EnvelopeRow, d: string)
    requires n !in envelopes
    ensures EnvelopesFor(envelopes[n := row], d) ==
            if row.claimId == d then EnvelopesFor(envelopes, d)[n := row] else EnvelopesFor(envelopes, d)
  {
  }

  lemma EnvelopeInserts(t: Tables, n: ShortId, row: EnvelopeRow)
    requires row.claimId in t.claims && n !in t.envelopes
    ensures InsertsFor(t, t.(envelopes := t.envelopes[n := row]), row.claimId)
  {
    var t' := t.(envelopes := t.envelopes[n := row]);
    EnvelopesForAfterInsert(t.envelopes, n, row, row.claimId);
    forall d | d in t.claims && d != row.claimId ensures ViewOf(t', d) == ViewOf(t, d) {
      EnvelopesForAfterInsert(t.envelopes, n, row, d);
    }
  }

  lemma SupersessionInserts(t: Tables, c: string, row: SupersessionRow)
    requires c in t.claims && c !in t.supersessions
    ensures InsertsFor(t, t.(supersessions := t.supersessions[c := row]), c)
  {
  }

  lemma ProposeRecords(t: Tables, keys: Keys, files: Files, claim: ClaimStatement)
    requires Inv(t) && Propose(t, keys, files, claim).Ok? && claim.claimId !in t.claims
    ensures Records(t, Propose(t, keys, files, claim).value.tables, keys, files, claim.claimId)
  {
    var c, row := claim.claimId, NewClaimRow(claim);
    var t' := t.(claims := t.claims[c := row]);
    KnownGrows(t, t'.claims.Keys);
    ClaimsGrow(t.claims, c, row);
    assert RowsOk(t');
    hide RowsOk, Records, InsertsFor, Recorded;
    ProposeInserts(t, c, row);
    ReadableView(t', c);
    RecordedRecords(t, t', keys, files, c, CLAIM_PROPOSED, OfDigest(row.payloadSha));
  }

  lemma AppendRecords(t: Tables, keys: Keys, files: Files, e: ClaimEvidence)
    requires Inv(t) && e.claimId in t.claims && e.evidenceId !in t.evidence
    ensures var t' := t.(evidence := t.evidence[e.evidenceId := NewEvidenceRow(e)]);
            && CanAssess(t', e.claimId)
            && Records(t, Recorded(t', keys, files, e.claimId, EVIDENCE_APPENDED, OfEvidence(e.evidenceId)).tables,
                       keys, files, e.claimId)
  {
    hide RowsOk, EventsOk, Records, InsertsFor, Recorded, CanAssess;
    var row := NewEvidenceRow(e);
    var t' := t.(evidence := t.evidence[e.evidenceId := row]);
    EvidenceInserts(t, e.evidenceId, row);
    EvidenceGrows(t, e.evidenceId, row);
    ReadableView(t', e.claimId);
    RecordedRecords(t, t', keys, files, e.claimId, EVIDENCE_APPENDED, OfEvidence(e.evidenceId));
  }

  lemma AuthenticateRecords(t: Tables, keys: Keys, files: Files, c: string, secret: Secret, body: SignedBody)
    requires Inv(t) && c in t.claims && body.claimId == c && body.level == REPLICATED && body.disposition == ACTIVE
    requires ShortId(NewEnvelopeRow(Seal(secret, body)).payloadSha) !in t.envelopes
    ensures var row := NewEnvelopeRow(Seal(secret, body));
            var id := ShortId(row.payloadSha);
            var t' := t.(envelopes := t.envelopes[id := row]);
            && CanAssess(t', c)
            && Records(t, Recorded(t', keys, files, c, CLAIM_AUTHENTICATED, OfEnvelope(id)).tables, keys, files, c)
  {
    hide RowsOk, EventsOk, Records, InsertsFor, Recorded, CanAssess;
    var row := NewEnvelopeRow(Seal(secret, body));
    var id := ShortId(row.payloadSha);
    var t' := t.(envelopes := t.envelopes[id := row]);
    EnvelopeInserts(t, id, row);
    EnvelopesGrow(t, id, row);
    ReadableView(t', c);
    RecordedRecords(t, t', keys, files, c, CLAIM_AUTHENTICATED, OfEnvelope(id));
  }

  lemma SupersedeRecords(t: Tables, keys: Keys, files: Files, c: string, replacementId: string, reason: string)
    requires Inv(t) && c in t.claims && replacementId in t.claims && c !in t.supersessions
    ensures var row := NewSupersessionRow(c, replacementId, reason);
            var t' := t.(supersessions := t.supersessions[c := row]);
            && CanAssess(t', c)
            && Records(t, Recorded(t', keys, files, c, CLAIM_SUPERSEDED, OfDigest(row.payloadSha)).tables, keys, files,
                       c)
  {
    hide RowsOk, EventsOk, Records, InsertsFor, Recorded, CanAssess;
    var row := NewSupersessionRow(c, replacementId, reason);
    var t' := t.(supersessions := t.supersessions[c := row]);
    SupersessionInserts(t, c, row);
    SupersessionsGrow(t, c, row);
    ReadableView(t', c);
    RecordedRecords(t, t', keys, files, c, CLAIM_SUPERSEDED, OfDigest(row.payloadSha));
  }

  lemma AuthenticateCallRecords(t: Tables, keys: Keys, files: Files, c: string, keyId: string)
    requires Inv(t)
    requires Authenticate(t, keys, files, c, keyId).Ok? && Authenticate(t, keys, files, c, keyId).value.tables != t
    ensures Records(t, Authenticate(t, keys, files, c, keyId).value.tables, keys, files, c)
  {
    hide Records, Recorded, HasText, EventsOk;
    ReadableView(t, c);
    var body := BodyFor(c, ViewOf(t, c), files, keyId);
    assert body.level == Assess(t, keys, files, c).level && body.disposition == Assess(t, keys, files, c).disposition;
    AuthenticateRecords(t, keys, files, c, keys[keyId], body);
  }

  /** An accepted call changes nothing, or records one row and one event for its subject. */
  lemma AcceptedCallRecords(t: Tables, call: Call)
    requires Inv(t) && Perform(t, call).Ok?
    ensures var t' := Perform(t, call).value.tables;
            t' == t || Records(t, t', call.keys, call.files, call.operation.Subject())
  {
    hide Records, Recorded, RowsOk, Assess, BodyFor, ValidClaim, HasText, EventsOk;
    if Perform(t, call).value.tables != t {
      match call.operation
      case ProposeCall(claim) =>
        ProposeRecords(t, call.keys, call.files, claim);
      case AppendCall(evidence) =>
        AppendRecords(t, call.keys, call.files, Validated(evidence, call.files).value);
      case AuthenticateCall(c, keyId) =>
        AuthenticateCallRecords(t, call.keys, call.files, c, keyId);
      case SupersedeCall(c, replacementId, reason) =>
        SupersedeRecords(t, call.keys, call.files, c, replacementId, reason);
    }
  }

  lemma CallKeepsInv(t: Tables, call: Call)
    requires Inv(t)
    ensures Inv(After(t, call)) && Extends(t, After(t, call))
  {
    hide Perform, RowsOk, EventsOk, ViewOf, Assess, LastAssessment, CanAssess;
    if Perform(t, call).Ok? {
      AcceptedCallRecords(t, call);
    }
  }

  /** The tables after a sequence of calls on an empty ledger. */
  function Run(calls: seq<Call>): (t: Tables)
    ensures Inv(t)
  {
    if calls == [] then EMPTY
    else
      var before := Run(calls[..|calls| - 1]);
      var call := calls[|calls| - 1];
      CallKeepsInv(before, call);
      After(before, call)
  }
}
