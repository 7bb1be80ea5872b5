/**
 The full integrity check: one error list over all five tables, in the program's order of
 checks, and what it does and does not detect.

 `raw.get(field)` on a payload of another table's shape is modelled field by field below;
 a missing field and an explicit null both read as `None`.
 */
module LedgerIntegrity {
  import opened Wrappers
  import opened LedgerData
  import opened LedgerAssessment
  import opened LedgerRuns
  import opened LedgerInvariant
  import opened Merkle
  import opened Ordering

  datatype IntegrityError =
    | ClaimHashMismatch(id: string)
    | EvidenceHashMismatch(id: string)
    | EvidenceNotJson(id: string)
    | EvidenceArtifactMismatch(id: string)
    | SupersessionHashMismatch(id: string)
    | SupersessionNotJson(id: string)
    | SupersessionBindingMismatch(id: string)
    | EnvelopeHashMismatch(short: ShortId)
    | EnvelopeIdMismatch(short: ShortId)
    | EventHashMismatch(short: ShortId)
    | EventIdMismatch(short: ShortId)
    | EventNotJson(short: ShortId)
    | EventSequenceMismatch(short: ShortId)
    | EventChainMismatch(short: ShortId)
    | EventClaimMismatch(short: ShortId)
    | EventClaimPayloadMismatch(short: ShortId)
    | EventEligibleNotSubset(short: ShortId)
    | EventBindingMismatch(short: ShortId)
    | EventRootMismatch(short: ShortId)

  function When(condition: bool, error: IntegrityError): seq<IntegrityError> {
    if condition then [error] else []
  }

  // ----- reading parsed payloads -----

  function RawClaimId(document: Document): Option<string> {
    match document
    case ClaimDocument(claim) => Some(claim.claimId)
    case EvidenceDocument(evidence) => Some(evidence.claimId)
    case SupersessionDocument(c, _, _) => Some(c)
    case SignedBodyDocument(body) => Some(body.claimId)
    case EnvelopeDocument(envelope) => Some(envelope.body.claimId)
    case EventDocument(event) => Some(event.assessment.claimId)
    case LeafDocument(_, _) => None
  }

  function RawClaimSha(document: Document): Option<Digest> {
    match document
    case SignedBodyDocument(body) => Some(body.claimSha)
    case EnvelopeDocument(envelope) => Some(envelope.body.claimSha)
    case EventDocument(event) => Some(event.claimSha)
    case _ => None
  }

  function RawSequence(document: Document): Option<int> {
    if document.EventDocument? then Some(document.event.sequence) else None
  }

  function RawPrevious(document: Document): Option<Digest> {
    if document.EventDocument? then document.event.previous else None
  }

  function RawEvidenceIds(document: Document): seq<string> {
    match document
    case SignedBodyDocument(body) => body.evidenceIds
    case EnvelopeDocument(envelope) => envelope.body.evidenceIds
    case EventDocument(event) => event.assessment.evidenceIds
    case _ => []
  }

  function RawEligibleIds(document: Document): seq<string> {
    if document.EventDocument? then document.event.assessment.eligibleIds else []
  }

  function RawRoot(document: Document): Option<Digest> {
    match document
    case SignedBodyDocument(body) => Some(body.root)
    case EnvelopeDocument(envelope) => Some(envelope.body.root)
    case EventDocument(event) => Some(event.assessment.root)
    case _ => None
  }

  // ----- row by row -----

  function ClaimErrors(id: string, row: ClaimRow): seq<IntegrityError> {
    When(ShaOfText(row.payload) != row.payloadSha, ClaimHashMismatch(id))
  }

  function EvidenceErrors(files: Files, id: string, row: EvidenceRow): seq<IntegrityError> {
    if ShaOfText(row.payload) != row.payloadSha then [EvidenceHashMismatch(id)]
    else
      match Loads(row.payload)
      case None => [EvidenceNotJson(id)]
      case Some(document) =>
        When(!(document.EvidenceDocument? && ArtifactMatches(files, document.evidence)), EvidenceArtifactMismatch(id))
  }

  function SupersessionErrors(id: string, row: SupersessionRow): seq<IntegrityError> {
    When(ShaOfText(row.payload) != row.payloadSha, SupersessionHashMismatch(id))
    + match Loads(row.payload)
      case None => [SupersessionNotJson(id)]
      case Some(document) =>
        When(!(document.SupersessionDocument? && document.claimId == id && document.replacementId == row.replacementId),
             SupersessionBindingMismatch(id))
  }

  function EnvelopeErrors(id: ShortId, row: EnvelopeRow): seq<IntegrityError> {
    When(ShaOfText(row.payload) != row.payloadSha, EnvelopeHashMismatch(id))
    + When(id != ShortId(ShaOfText(row.payload)), EnvelopeIdMismatch(id))
  }

  /** Sequence and hash of the last event seen for a claim. */
  datatype Mark = Mark(sequence: int, sha: Digest)

  function ExpectedPrevious(previous: Option<Mark>): Option<Digest> {
    if previous.Some? then Some(previous.value.sha) else None
  }

  function ExpectedSequence(previous: Option<Mark>): int {
    if previous.Some? then previous.value.sequence + 1 else 1
  }

  /** The checks that tie an event to its own payload and to the event before it. */
  function ChainErrors(c: string, row: EventRow, previous: Option<Mark>): seq<IntegrityError> {
    When(ShaOfText(row.payload) != row.eventSha, EventHashMismatch(row.eventId))
    + When(row.eventId != ShortId(ShaOfText(row.payload)), EventIdMismatch(row.eventId))
    + match Loads(row.payload)
      case None => [EventNotJson(row.eventId)]
      case Some(document) =>
        When(row.sequence != ExpectedSequence(previous) || RawSequence(document) != Some(row.sequence),
             EventSequenceMismatch(row.eventId))
        + When(row.previous != ExpectedPrevious(previous) || RawPrevious(document) != ExpectedPrevious(previous),
               EventChainMismatch(row.eventId))
        + When(RawClaimId(document) != Some(c), EventClaimMismatch(row.eventId))
  }

  predicate IsBound(t: Tables, c: string, evidenceId: string) {
    evidenceId in t.evidence && t.evidence[evidenceId].claimId == c
  }

  function BoundRecords(t: Tables, c: string, ids: seq<string>): seq<EvidenceRecord> {
    if ids == [] then []
    else
      (if IsBound(t, c, ids[0]) then [EvidenceRecord(ids[0], t.evidence[ids[0]].payloadSha)] else [])
      + BoundRecords(t, c, ids[1..])
  }

  function BindingErrors(t: Tables, c: string, event: ShortId, ids: seq<string>): seq<IntegrityError> {
    if ids == [] then []
    else When(!IsBound(t, c, ids[0]), EventBindingMismatch(event)) + BindingErrors(t, c, event, ids[1..])
  }

  /** The checks that tie an event to the claim row and the evidence rows. */
  function InventoryErrors(t: Tables, c: string, row: EventRow): seq<IntegrityError> {
    match Loads(row.payload)
    case None => []
    case Some(document) =>
      When(RawClaimSha(document) != (if c in t.claims then Some(t.claims[c].payloadSha) else None),
           EventClaimPayloadMismatch(row.eventId))
      + When(!(Elements(RawEligibleIds(document)) <= Elements(RawEvidenceIds(document))),
             EventEligibleNotSubset(row.eventId))
      + BindingErrors(t, c, row.eventId, RawEligibleIds(document))
      + When(RawRoot(document) != Some(MerkleRoot(BoundRecords(t, c, RawEligibleIds(document)))),
             EventRootMismatch(row.eventId))
  }

  /** An event that does not parse is skipped: it does not become the previous event. */
  function NextMark(row: EventRow, previous: Option<Mark>): Option<Mark> {
    if Loads(row.payload).None? then previous else Some(Mark(row.sequence, row.eventSha))
  }

  function MarkAfter(rows: seq<EventRow>): Option<Mark> {
    if rows == [] then None else NextMark(rows[|rows| - 1], MarkAfter(rows[..|rows| - 1]))
  }

  // ----- table by table -----

  function ClaimTableErrors(t: Tables, keys: seq<string>): seq<IntegrityError> {
    if keys == [] then []
    else
      var id := keys[|keys| - 1];
      ClaimTableErrors(t, keys[..|keys| - 1]) + (if id in t.claims then ClaimErrors(id, t.claims[id]) else [])
  }

  function EvidenceTableErrors(t: Tables, files: Files, keys: seq<string>): seq<IntegrityError> {
    if keys == [] then []
    else
      var id := keys[|keys| - 1];
      EvidenceTableErrors(t, files, keys[..|keys| - 1])
      + (if id in t.evidence then EvidenceErrors(files, id, t.evidence[id]) else [])
  }

  function SupersessionTableErrors(t: Tables, keys: seq<string>): seq<IntegrityError> {
    if keys == [] then []
    else
      var id := keys[|keys| - 1];
      SupersessionTableErrors(t, keys[..|keys| - 1])
      + (if id in t.supersessions then SupersessionErrors(id, t.supersessions[id]) else [])
  }

  function EnvelopeTableErrors(t: Tables, keys: seq<ShortId>): seq<IntegrityError> {
    if keys == [] then []
    else
      var id := keys[|keys| - 1];
      EnvelopeTableErrors(t, keys[..|keys| - 1])
      + (if id in t.envelopes then EnvelopeErrors(id, t.envelopes[id]) else [])
  }

  function EventListErrors(t: Tables, c: string, rows: seq<EventRow>): seq<IntegrityError> {
    if rows == [] then []
    else
      var row, before := rows[|rows| - 1], rows[..|rows| - 1];
      EventListErrors(t, c, before) + ChainErrors(c, row, MarkAfter(before)) + InventoryErrors(t, c, row)
  }

  function EventTableErrors(t: Tables, keys: seq<string>): seq<IntegrityError> {
    if keys == [] then []
    else
      var c := keys[|keys| - 1];
      EventTableErrors(t, keys[..|keys| - 1]) + EventListErrors(t, c, EventsOf(t, c))
  }

  /**
   Everything the check reports. Envelope ids are digest digits, which have no order here, so
   the envelopes are read in any given order.
   */
  function IntegrityErrors(t: Tables, files: Files, envelopeOrder: seq<ShortId>): seq<IntegrityError> {
    ClaimTableErrors(t, Listing(t.claims.Keys))
    + EvidenceTableErrors(t, files, Listing(t.evidence.Keys))
    + SupersessionTableErrors(t, Listing(t.supersessions.Keys))
    + EnvelopeTableErrors(t, envelopeOrder)
    + EventTableErrors(t, Listing(t.events.Keys))
  }

  // ----- a reachable ledger reports exactly its broken artifacts -----

  function Broken(t: Tables, files: Files): set<string>
  {
    set e | e in t.evidence && EvidenceErrors(files, e, t.evidence[e]) != []
  }

  function Report(ids: seq<string>): seq<IntegrityError> {
    seq(|ids|, i requires 0 <= i < |ids| => EvidenceArtifactMismatch(ids[i]))
  }

  lemma {:induction false} ClaimTableIsClean(t: Tables, keys: seq<string>)
    requires RowsOk(t)
    ensures ClaimTableErrors(t, keys) == []
  {
    if keys != [] {
      ClaimTableIsClean(t, keys[..|keys| - 1]);
      var id := keys[|keys| - 1];
      assert id in t.claims ==> ClaimRowOk(id, t.claims[id]);
    }
  }

  lemma {:induction false} SupersessionTableIsClean(t: Tables, keys: seq<string>)
    requires RowsOk(t)
    ensures SupersessionTableErrors(t, keys) == []
  {
    if keys != [] {
      SupersessionTableIsClean(t, keys[..|keys| - 1]);
      var id := keys[|keys| - 1];
      assert id in t.supersessions ==> SupersessionRowOk(id, t.supersessions[id], t.claims.Keys);
    }
  }

  lemma {:induction false} EnvelopeTableIsClean(t: Tables, keys: seq<ShortId>)
    requires RowsOk(t)
    ensures EnvelopeTableErrors(t, keys) == []
  {
    if keys != [] {
      EnvelopeTableIsClean(t, keys[..|keys| - 1]);
      var id := keys[|keys| - 1];
      assert id in t.envelopes ==> EnvelopeRowOk(id, t.envelopes[id], t.claims.Keys);
    }
  }

  lemma {:induction false} BoundInventory(t: Tables, c: string, event: ShortId, ids: seq<string>)
    requires forall e | e in ids :: e in t.evidence && IsBound(t, c, e)
    ensures BindingErrors(t, c, event, ids) == []
    ensures BoundRecords(t, c, ids) == RecordsOf(t.evidence, ids)
  {
    if ids != [] {
      assert ids[0] in ids;
      BoundInventory(t, c, event, ids[1..]);
      assert RecordsOf(t.evidence, ids) ==
               [EvidenceRecord(ids[0], t.evidence[ids[0]].payloadSha)] + RecordsOf(t.evidence, ids[1..]);
    }
  }

  lemma InventoryIsClean(t: Tables, c: string, rows: seq<EventRow>, i: int)
    requires c in t.claims && 0 <= i < |rows| && EventOk(t.evidence, t.claims[c].payloadSha, c, rows, i)
    ensures InventoryErrors(t, c, rows[i]) == []
  {
    hide MerkleRoot, StrictlySorted;
    var a := rows[i].payload.document.event.assessment;
    BoundInventory(t, c, rows[i].eventId, a.eligibleIds);
  }

  lemma OkRowIsClean(t: Tables, c: string, rows: seq<EventRow>, i: int, previous: Option<Mark>)
    requires c in t.claims && 0 <= i < |rows| && EventOk(t.evidence, t.claims[c].payloadSha, c, rows, i)
    requires previous == if i == 0 then None else Some(Mark(i, rows[i - 1].eventSha))
    ensures ChainErrors(c, rows[i], previous) == []
    ensures NextMark(rows[i], previous) == Some(Mark(i + 1, rows[i].eventSha))
  {
    hide InventoryOk;
  }

  lemma {:induction false} OkEventsAreClean(t: Tables, c: string, rows: seq<EventRow>, n: nat)
    requires c in t.claims && n <= |rows| && ChainOk(t.evidence, t.claims[c].payloadSha, c, rows)
    ensures EventListErrors(t, c, rows[..n]) == []
    ensures MarkAfter(rows[..n]) == if n == 0 then None else Some(Mark(n, rows[n - 1].eventSha))
  {
    hide InventoryErrors, ChainErrors, NextMark, EventOk;
    if n > 0 {
      OkEventsAreClean(t, c, rows, n - 1);
      assert rows[..n][..n - 1] == rows[..n - 1];
      assert EventOk(t.evidence, t.claims[c].payloadSha, c, rows, n - 1);
      OkRowIsClean(t, c, rows, n - 1, MarkAfter(rows[..n - 1]));
      InventoryIsClean(t, c, rows, n - 1);
    }
  }

  lemma {:induction false} EventTableIsClean(t: Tables, keys: seq<string>)
    requires Inv(t)
    ensures EventTableErrors(t, keys) == []
  {
    hide RowsOk, ChainOk, RowCount;
    if keys != [] {
      EventTableIsClean(t, keys[..|keys| - 1]);
      var c := keys[|keys| - 1];
      if c in t.claims {
        assert EventsOk(t, c);
        OkEventsAreClean(t, c, t.events[c], |t.events[c]|);
        assert t.events[c][..|t.events[c]|] == t.events[c];
      }
    }
  }

  lemma EvidenceRowError(t: Tables, files: Files, e: string)
    requires RowsOk(t) && e in t.evidence
    ensures EvidenceRowOk(e, t.evidence[e], t.claims.Keys)
    ensures EvidenceErrors(files, e, t.evidence[e]) ==
            if ArtifactMatches(files, t.evidence[e].payload.document.evidence) then []
            else [EvidenceArtifactMismatch(e)]
  {
    hide ArtifactMatches;
  }

  /** The only error an evidence row can give is a broken artifact. */
  ghost predicate OnlyMismatches(t: Tables, files: Files) {
    forall e | e in t.evidence :: EvidenceErrors(files, e, t.evidence[e]) in {[], [EvidenceArtifactMismatch(e)]}
  }

  lemma ReachableMismatches(t: Tables, files: Files)
    requires RowsOk(t)
    ensures OnlyMismatches(t, files)
  {
    hide RowsOk, EvidenceErrors, ArtifactMatches;
    forall e | e in t.evidence ensures EvidenceErrors(files, e, t.evidence[e]) in {[], [EvidenceArtifactMismatch(e)]} {
      EvidenceRowError(t, files, e);
    }
  }

  /** The evidence errors over a sorted list of rows are one mismatch per broken row, in order. */
  lemma {:induction false} EvidenceTableReports(t: Tables, files: Files, keys: seq<string>) returns (bad: seq<string>)
    requires OnlyMismatches(t, files) && StrictlySorted(keys) && forall e | e in keys :: e in t.evidence
    ensures EvidenceTableErrors(t, files, keys) == Report(bad)
    ensures StrictlySorted(bad) && forall e :: e in bad <==> e in keys && e in Broken(t, files)
  {
    hide EvidenceErrors, Below;
    if keys == [] {
      bad := [];
    } else {
      var n := |keys| - 1;
      var e := keys[n];
      bad := EvidenceTableReports(t, files, keys[..n]);
      assert keys == keys[..n] + [e];
      if e in Broken(t, files) {
        assert Report(bad + [e]) == Report(bad) + [EvidenceArtifactMismatch(e)];
        forall i | 0 <= i < |bad| ensures Below(bad[i], e) {
          assert bad[i] in bad;
          var k :| 0 <= k < n && keys[k] == bad[i];
        }
        bad := bad + [e];
      }
    }
  }

  /** A ledger that only ever took calls reports one error per broken artifact, and nothing else. */
  lemma IntegrityReportsExactlyBrokenArtifacts(calls: seq<Call>, files: Files, envelopeOrder: seq<ShortId>)
    ensures var t := Run(calls);
            && IntegrityErrors(t, files, envelopeOrder) == Report(Listing(Broken(t, files)))
            && forall e | e in t.evidence ::
                 && CanAssess(t, t.evidence[e].claimId) && e in ViewOf(t, t.evidence[e].claimId).evidence
                 && (e in Broken(t, files) <==>
                     !ArtifactMatches(files, ViewOf(t, t.evidence[e].claimId).Evidence(e)))
  {
    hide Run, EventsOk, ArtifactMatches;
    var t := Run(calls);
    ReachableReport(t, files, envelopeOrder);
    forall e | e in t.evidence
      ensures && CanAssess(t, t.evidence[e].claimId) && e in ViewOf(t, t.evidence[e].claimId).evidence
              && (e in Broken(t, files) <==> !ArtifactMatches(files, ViewOf(t, t.evidence[e].claimId).Evidence(e)))
    {
      EvidenceRowError(t, files, e);
      ReadableView(t, t.evidence[e].claimId);
    }
  }

  lemma EvidenceTableReportsBroken(t: Tables, files: Files)
    requires OnlyMismatches(t, files)
    ensures EvidenceTableErrors(t, files, Listing(t.evidence.Keys)) == Report(Listing(Broken(t, files)))
  {
    hide OnlyMismatches, EvidenceErrors, Below, EvidenceTableErrors, StrictlySorted, Report;
    var keys := Listing(t.evidence.Keys);
    assert forall e :: e in keys <==> e in Elements(keys);
    var bad := EvidenceTableReports(t, files, keys);
    assert Elements(bad) == Broken(t, files);
    SortedListsOfOneSetAreEqual(bad, Listing(Broken(t, files)));
  }

  lemma ReachableReport(t: Tables, files: Files, envelopeOrder: seq<ShortId>)
    requires Inv(t)
    ensures IntegrityErrors(t, files, envelopeOrder) == Report(Listing(Broken(t, files)))
  {
    hide RowsOk, EventsOk, Broken, Listing, Report, ClaimTableErrors, EvidenceTableErrors, SupersessionTableErrors,
         EnvelopeTableErrors, EventTableErrors;
    ClaimTableIsClean(t, Listing(t.claims.Keys));
    SupersessionTableIsClean(t, Listing(t.supersessions.Keys));
    EnvelopeTableIsClean(t, envelopeOrder);
    EventTableIsClean(t, Listing(t.events.Keys));
    ReachableMismatches(t, files);
    EvidenceTableReportsBroken(t, files);
  }
}
