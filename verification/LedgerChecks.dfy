/** What the checks of the five tables ask of a row, field by field. */
module LedgerChecks {
  import opened Wrappers
  import opened LedgerData
  import opened LedgerAssessment
  import opened LedgerRuns
  import opened LedgerIntegrity
  import opened LedgerTamper
  import opened LedgerReplacement
  import opened Merkle
  import opened Ordering

  // ----- rows by themselves -----

  /** A regular file is at the stored path, with the stored digest. */
  predicate HasArtifact(files: Files, x: ClaimEvidence) {
    && x.artifactPath in files.resolved && files.resolved[x.artifactPath] in files.contents
    && x.artifactSha == Hex(Sha256(Bytes(files.contents[files.resolved[x.artifactPath]])))
  }

  /** A claim, evidence or envelope row passes exactly when it is hashed, and evidence has its artifact. */
  lemma RowChecksExactly(files: Files, claim: ClaimRow, evidence: EvidenceRow, envelope: EnvelopeRow, id: string,
                         short: ShortId)
    ensures ClaimErrors(id, claim) == [] <==> claim.payloadSha == Sha256(Utf8(claim.payload))
    ensures EvidenceErrors(files, id, evidence) == [] <==>
              && evidence.payloadSha == Sha256(Utf8(evidence.payload))
              && evidence.payload.Json? && evidence.payload.document.EvidenceDocument?
              && HasArtifact(files, evidence.payload.document.evidence)
    ensures EnvelopeErrors(short, envelope) == [] <==>
              envelope.payloadSha == Sha256(Utf8(envelope.payload)) && short == ShortId(envelope.payloadSha)
  {
  }

  // ----- events in their chain -----

  /** The event is hashed, follows the one before it, and is about its claim's own row and evidence. */
  ghost predicate IsLinked(t: Tables, c: string, rows: seq<EventRow>, i: nat)
    requires i < |rows|
  {
    var row := rows[i];
    && row.eventSha == Sha256(Utf8(row.payload)) && row.eventId == ShortId(row.eventSha)
    && row.sequence == i + 1 && row.previous == (if i == 0 then None else Some(rows[i - 1].eventSha))
    && row.payload.Json? && row.payload.document.EventDocument?
    && var event, a := row.payload.document.event, row.payload.document.event.assessment;
    && event.sequence == row.sequence && event.previous == row.previous && a.claimId == c
    && c in t.claims && event.claimSha == t.claims[c].payloadSha
    && (forall e | e in a.eligibleIds :: e in a.evidenceIds && e in t.evidence && t.evidence[e].claimId == c)
    && a.root == MerkleRoot(RecordsOf(t.evidence, a.eligibleIds))
  }

  lemma {:induction false} BindingsExactly(t: Tables, c: string, event: ShortId, ids: seq<string>)
    ensures BindingErrors(t, c, event, ids) == [] <==>
              forall e | e in ids :: e in t.evidence && t.evidence[e].claimId == c
    ensures BindingErrors(t, c, event, ids) == [] ==> BoundRecords(t, c, ids) == RecordsOf(t.evidence, ids)
  {
    if ids != [] {
      BindingsExactly(t, c, event, ids[1..]);
      assert ids == [ids[0]] + ids[1..];
      if BindingErrors(t, c, event, ids) == [] {
        assert RecordsOf(t.evidence, ids) ==
                 [EvidenceRecord(ids[0], t.evidence[ids[0]].payloadSha)] + RecordsOf(t.evidence, ids[1..]);
      }
    }
  }

  /** The row against the event before it, whose place and hash are known. */
  lemma RowPassesExactly(t: Tables, c: string, rows: seq<EventRow>, i: nat)
    requires i < |rows|
    requires MarkAfter(rows[..i]) == if i == 0 then None else Some(Mark(i, rows[i - 1].eventSha))
    ensures RowPasses(t, c, rows, i) <==> IsLinked(t, c, rows, i)
  {
    hide MarkAfter, BindingErrors, BoundRecords, MerkleRoot, RecordsOf;
    var row := rows[i];
    if row.payload.Json? {
      BindingsExactly(t, c, row.eventId, RawEligibleIds(row.payload.document));
      ElementsInside(RawEligibleIds(row.payload.document), RawEvidenceIds(row.payload.document));
    }
    hide Elements;
  }

  lemma ElementsInside(a: seq<string>, b: seq<string>)
    ensures Elements(a) <= Elements(b) <==> forall e | e in a :: e in b
  {
    assert forall e :: (e in a <==> e in Elements(a)) && (e in b <==> e in Elements(b));
  }

  lemma {:induction false} PassedMark(t: Tables, c: string, rows: seq<EventRow>, n: nat)
    requires n <= |rows| && forall i | 0 <= i < n :: RowPasses(t, c, rows, i)
    ensures MarkAfter(rows[..n]) == if n == 0 then None else Some(Mark(n, rows[n - 1].eventSha))
  {
    if n > 0 {
      PassedMark(t, c, rows, n - 1);
      assert rows[..n][..n - 1] == rows[..n - 1];
      assert RowPasses(t, c, rows, n - 1);
      hide InventoryErrors;
    }
  }

  /** A claim's events pass the check exactly when each of them is linked so. */
  lemma EventsPassExactly(t: Tables, c: string)
    ensures ListPasses(t, c) <==> forall i | 0 <= i < |EventsOf(t, c)| :: IsLinked(t, c, EventsOf(t, c), i)
  {
    hide RowPasses, IsLinked, MarkAfter, EventsOf;
    AllPassExactly(t, c, EventsOf(t, c), |EventsOf(t, c)|);
  }

  lemma {:induction false} AllPassExactly(t: Tables, c: string, rows: seq<EventRow>, n: nat)
    requires n <= |rows|
    ensures (forall i | 0 <= i < n :: RowPasses(t, c, rows, i)) <==> forall i | 0 <= i < n :: IsLinked(t, c, rows, i)
  {
    hide RowPasses, IsLinked, MarkAfter;
    if n > 0 {
      AllPassExactly(t, c, rows, n - 1);
      if forall i | 0 <= i < n - 1 :: RowPasses(t, c, rows, i) {
        PassedMark(t, c, rows, n - 1);
        RowPassesExactly(t, c, rows, n - 1);
      }
    }
  }
}
